/** The streaming scanner inside the pinned workspace reader: it is fed decoded chunks, keeps at
    most one unfinished line, and gives up a line as soon as it cannot be metadata
    (src/aep/dogfood_runtime.py:1173-1267, 1285-1304). */
module StatusScanner {
  import opened Wrappers
  import opened StatusLines
  import opened Utf8

  /** What is still to be read when `rest` follows what the scanner has been fed. */
  function Pending(buffer: string, afterCr: bool, rest: string): string {
    buffer + AfterBreak(if afterCr then '\r' else '\n', rest)
  }

  /** What the scan must end with when it stands at `p` and `text` is still to be read. */
  function Outcome(p: Progress, text: string): Result<seq<(string, nat)>, Error> {
    if p.active then FoldLines(p, Split(text)) else Ok(p.fields)
  }

  /** `str.find`. */
  function Find(text: string, c: char): (i: int)
    ensures -1 <= i < |text|
    ensures i == -1 ==> c !in text
    ensures i >= 0 ==> text[i] == c && c !in text[..i]
  {
    if text == "" then -1
    else if text[0] == c then 0
    else
      var i := Find(text[1..], c);
      if i == -1 then -1
      else
        assert text[..i + 1] == [text[0]] + text[1..][..i];
        i + 1
  }

  predicate StartsWithLineFeed(text: string) { text != "" && text[0] == '\n' }

  lemma BreakWithin(delimiter: char, text: string, rest: string)
    requires text != "" || !StartsWithLineFeed(rest) || delimiter != '\r'
    ensures AfterBreak(delimiter, text + rest) == AfterBreak(delimiter, text) + rest
  {
  }

  /** `remainder[1:]` if it starts with a LF. */
  function SkipLineFeed(remainder: string): (r: string)
    ensures r == AfterBreak('\r', remainder) && |r| <= |remainder|
  {
    if remainder != "" && remainder[0] == '\n' then remainder[1..] else remainder
  }

  lemma NoLineFeedSkipped(text: string)
    ensures AfterBreak('\n', text) == text
  {
  }

  lemma PendingText(afterCr: bool, rest: string)
    ensures Pending("", afterCr, rest) == AfterBreak(if afterCr then '\r' else '\n', rest)
  {
  }

  // ---------------------------------------------------------------- the scan limit

  /** A line that so far is `candidate` may be metadata and is over the limit. */
  predicate TooMuch(p: Progress, candidate: string, limit: nat) {
    Possible(candidate, p.titleSeen || p.statusSeen) && Utf8Length(candidate) > limit
  }

  /** A scan that stands at `p` gets to the line on which the first `n` characters of `text` end, and
      they have too much of it. */
  predicate Overfull(p: Progress, text: string, n: nat, limit: nat)
    requires n <= |text|
    decreases |text|
  {
    FirstLineEnds(text);
    var line := FirstLine(text);
    p.active &&
    if n <= |line| then TooMuch(p, text[..n], limit)
    else
      var rest := AfterBreak(text[|line|], text[|line| + 1..]);
      var past := |text| - |rest|;
      past <= n && ConsumeLine(p, line).Ok? && Overfull(ConsumeLine(p, line).value, rest, n - past, limit)
  }

  /** The scanner looks at what it has of a line at the line's end and wherever a chunk ends; `cuts`
      are the lengths of the texts that follow the chunks. */
  predicate LooksAt(text: string, n: nat, cuts: set<nat>) {
    n <= |text| && (|text| - n in cuts || (n < |text| && IsBreak(text[n])))
  }

  /** Somewhere the scanner looks and finds too much. */
  ghost predicate Exceeds(p: Progress, text: string, cuts: set<nat>, limit: nat) {
    exists n: nat :: LooksAt(text, n, cuts) && Overfull(p, text, n, limit)
  }

  /** No chunk ends inside `fragment` when `tail` follows it. */
  predicate Whole(fragment: string, tail: string, cuts: set<nat>) {
    forall m | m in cuts :: m <= |tail| || |fragment| + |tail| <= m
  }

  /** A scan that is over raises nothing more. */
  lemma NothingExceeds(p: Progress, cuts: set<nat>, limit: nat)
    requires !p.active
    ensures forall text :: !Exceeds(p, text, cuts, limit)
  {
  }

  lemma PrefixIsShorter(text: string, prefix: string)
    requires prefix <= text
    ensures Utf8Length(prefix) <= Utf8Length(text)
  {
    assert text == prefix + text[|prefix|..];
    Utf8LengthAdds(prefix, text[|prefix|..]);
  }

  /** A candidate that cannot become metadata decides the rest of the scan. */
  lemma ImpossibleCandidate(p: Progress, buffer: string, fragment: string, tail: string, cuts: set<nat>, limit: nat)
    requires p.active && Unbroken(buffer + fragment) && Utf8Length(buffer) <= limit
    requires !Possible(buffer + fragment, p.titleSeen || p.statusSeen)
    requires Whole(fragment, tail, cuts)
    ensures Outcome(p, buffer + fragment + tail) == Ok(p.fields)
    ensures !Exceeds(p, buffer + fragment + tail, cuts, limit)
  {
    hide Possible, ConsumeLine;
    var candidate := buffer + fragment;
    var text := candidate + tail;
    FirstLineOf(candidate, tail);
    ImpossibleLineEnds(p, candidate, FirstLine(text));
    var next := p.(active := false, line := p.line + 1);
    assert FoldLines(p, Split(text)) == FoldLines(next, Split(text)[1..]) == Ok(next.fields);
    forall n: nat | LooksAt(text, n, cuts) ensures !Overfull(p, text, n, limit) {
      if n <= |FirstLine(text)| {
        NotTooMuchYet(p, buffer, fragment, tail, cuts, limit, n);
      }
    }
  }

  lemma NotTooMuchYet(p: Progress, buffer: string, fragment: string, tail: string, cuts: set<nat>, limit: nat, n: nat)
    requires Unbroken(buffer + fragment) && Utf8Length(buffer) <= limit && Whole(fragment, tail, cuts)
    requires !Possible(buffer + fragment, p.titleSeen || p.statusSeen)
    requires LooksAt(buffer + fragment + tail, n, cuts)
    ensures !TooMuch(p, (buffer + fragment + tail)[..n], limit)
  {
    hide Possible;
    var candidate := buffer + fragment;
    var text := candidate + tail;
    if n <= |buffer| {
      assert text[..n] == buffer[..n];
      PrefixIsShorter(buffer, buffer[..n]);
    } else if |candidate| <= n {
      assert candidate <= text[..n];
      PossiblePrefix(candidate, text[..n], p.titleSeen || p.statusSeen);
    }
  }

  /** A candidate that is too long where the scanner looks. */
  lemma LongCandidate(p: Progress, candidate: string, tail: string, cuts: set<nat>, limit: nat)
    requires p.active && Unbroken(candidate) && TooMuch(p, candidate, limit)
    requires |tail| in cuts || (tail != "" && IsBreak(tail[0]))
    ensures Exceeds(p, candidate + tail, cuts, limit)
  {
    var text, n := candidate + tail, |candidate|;
    FirstLineOf(candidate, tail);
    assert text[..n] == candidate;
    assert tail != "" ==> text[n] == tail[0];
    assert LooksAt(text, n, cuts) && Overfull(p, text, n, limit);
  }

  /** What is left when the text ends is the last line. */
  lemma LastLine(p: Progress, line: string, cuts: set<nat>, limit: nat)
    requires Unbroken(line) && Utf8Length(line) <= limit
    ensures !Exceeds(p, line, cuts, limit)
    ensures !p.active ==> Outcome(p, line) == Ok(p.fields)
    ensures p.active && ConsumeLine(p, line).Ok? ==> Outcome(p, line) == Ok(ConsumeLine(p, line).value.fields)
    ensures p.active && ConsumeLine(p, line).Err? ==> Outcome(p, line) == Err(ConsumeLine(p, line).error)
    ensures p.active && line == "" ==> ConsumeLine(p, line).Ok? && ConsumeLine(p, line).value.fields == p.fields
  {
    SplitLine(line);
    assert [line][1..] == [];
    if p.active && ConsumeLine(p, line).Ok? {
      assert FoldLines(p, [line]) == FoldLines(ConsumeLine(p, line).value, []);
    }
    FirstLineOf(line, "");
    assert line + "" == line;
    forall n: nat | LooksAt(line, n, cuts) ensures !Overfull(p, line, n, limit) {
      PrefixIsShorter(line, line[..n]);
    }
  }

  /** Reading one whole line moves the scan one line further in the text. */
  lemma LineRead(p: Progress, line: string, delimiter: char, tail: string, cuts: set<nat>, limit: nat)
    requires p.active && Unbroken(line) && IsBreak(delimiter) && Utf8Length(line) <= limit
    ensures ConsumeLine(p, line).Ok? ==>
              && Outcome(ConsumeLine(p, line).value, AfterBreak(delimiter, tail))
              == Outcome(p, line + [delimiter] + tail)
              && (Exceeds(ConsumeLine(p, line).value, AfterBreak(delimiter, tail), cuts, limit)
                  <==> Exceeds(p, line + [delimiter] + tail, cuts, limit))
    ensures ConsumeLine(p, line).Err? ==>
              && ConsumeLine(p, line) == Err(StatusFieldMalformed)
              && Outcome(p, line + [delimiter] + tail) == Err(StatusFieldMalformed)
              && !Exceeds(p, line + [delimiter] + tail, cuts, limit)
  {
    hide AfterBreak, StatusValue, IsTitle, Blank, Split, Exceeds;
    SplitAt(line, delimiter, tail);
    var later := Split(AfterBreak(delimiter, tail));
    assert ([line] + later)[0] == line && ([line] + later)[1..] == later;
    match ConsumeLine(p, line) {
      case Ok(next) =>
        assert FoldLines(p, [line] + later) == FoldLines(next, later);
        ExceedsBeyond(p, line, delimiter, tail, cuts, limit);
      case Err(_) =>
        ExceedsBeyond(p, line, delimiter, tail, cuts, limit);
    }
  }

  /** Where the first line is within the limit, only what follows it can be too much. */
  lemma OverfullBeyond(p: Progress, line: string, delimiter: char, tail: string, n: nat, limit: nat)
    requires p.active && Unbroken(line) && IsBreak(delimiter) && Utf8Length(line) <= limit
    requires n <= |line| + 1 + |tail|
    ensures
      var text, rest := line + [delimiter] + tail, AfterBreak(delimiter, tail);
      Overfull(p, text, n, limit) <==>
        && |text| - |rest| <= n && ConsumeLine(p, line).Ok?
        && Overfull(ConsumeLine(p, line).value, rest, n - (|text| - |rest|), limit)
  {
    hide ConsumeLine, Possible;
    var text := line + [delimiter] + tail;
    assert text == line + ([delimiter] + tail);
    FirstLineOf(line, [delimiter] + tail);
    assert FirstLine(text) == line && text[|line|] == delimiter && text[|line| + 1..] == tail;
    if n <= |line| {
      assert text[..n] == line[..n];
      PrefixIsShorter(line, line[..n]);
    }
  }

  lemma ExceedsBeyond(p: Progress, line: string, delimiter: char, tail: string, cuts: set<nat>, limit: nat)
    requires p.active && Unbroken(line) && IsBreak(delimiter) && Utf8Length(line) <= limit
    ensures Exceeds(p, line + [delimiter] + tail, cuts, limit) <==>
              && ConsumeLine(p, line).Ok?
              && Exceeds(ConsumeLine(p, line).value, AfterBreak(delimiter, tail), cuts, limit)
  {
    hide ConsumeLine, Overfull;
    var text, rest := line + [delimiter] + tail, AfterBreak(delimiter, tail);
    var past := |text| - |rest|;
    forall i: nat | past <= i < |text| ensures text[i] == rest[i - past] {}
    if n: nat :| LooksAt(text, n, cuts) && Overfull(p, text, n, limit) {
      OverfullBeyond(p, line, delimiter, tail, n, limit);
      assert LooksAt(rest, n - past, cuts);
    }
    if ConsumeLine(p, line).Ok? {
      var next := ConsumeLine(p, line).value;
      if n: nat :| LooksAt(rest, n, cuts) && Overfull(next, rest, n, limit) {
        OverfullBeyond(p, line, delimiter, tail, n + past, limit);
        assert LooksAt(text, n + past, cuts);
      }
    }
  }

  // ---------------------------------------------------------------- how much the cuts matter

  /** The limit is only raised in a document with a line over the limit. */
  lemma {:induction false} OverfullHasLongLine(p: Progress, text: string, n: nat, limit: nat)
    requires n <= |text| && Overfull(p, text, n, limit)
    ensures HasLongLine(text, limit)
    decreases |text|
  {
    FirstLineEnds(text);
    var line := FirstLine(text);
    if n <= |line| {
      PrefixIsShorter(line, text[..n]);
    } else {
      var rest := AfterBreak(text[|line|], text[|line| + 1..]);
      OverfullHasLongLine(ConsumeLine(p, line).value, rest, n - (|text| - |rest|), limit);
      assert Split(text) == [line] + Split(rest);
    }
  }

  /** A line that may be metadata as a whole and is over the limit is raised however the text is cut;
      a text that is not cut raises nothing else. */
  lemma {:induction false} WholeLinesExceed(p: Progress, text: string, cuts: set<nat>, limit: nat)
    requires 0 in cuts
    ensures ReachesLongLine(p, Split(text), limit) ==> Exceeds(p, text, cuts, limit)
    ensures Whole(text, "", cuts) ==> (Exceeds(p, text, cuts, limit) <==> ReachesLongLine(p, Split(text), limit))
    decreases |text|
  {
    hide Possible, ConsumeLine;
    FirstLineEnds(text);
    var line := FirstLine(text);
    assert Split(text)[0] == line && text[..|line|] == line;
    if !p.active {
      NothingExceeds(p, cuts, limit);
    } else if TooMuch(p, line, limit) {
      assert LooksAt(text, |line|, cuts) && Overfull(p, text, |line|, limit);
    } else if |line| == |text| {
      assert Split(text)[1..] == [];
      assert ConsumeLine(p, line).Ok? ==> !ReachesLongLine(ConsumeLine(p, line).value, Split(text)[1..], limit);
      if Whole(text, "", cuts) { NothingInFirstLine(p, text, cuts, limit); }
    } else {
      var delimiter, tail := text[|line|], text[|line| + 1..];
      assert text == line + [delimiter] + tail;
      SplitAt(line, delimiter, tail);
      assert Split(text)[1..] == Split(AfterBreak(delimiter, tail));
      if ConsumeLine(p, line).Ok? {
        WholeLinesExceed(ConsumeLine(p, line).value, AfterBreak(delimiter, tail), cuts, limit);
      }
      if Utf8Length(line) <= limit {
        ExceedsBeyond(p, line, delimiter, tail, cuts, limit);
      } else {
        ImpossibleLineEnds(p, line, line);
        if Whole(text, "", cuts) { NothingInFirstLine(p, text, cuts, limit); }
      }
    }
  }

  lemma NothingInFirstLine(p: Progress, text: string, cuts: set<nat>, limit: nat)
    requires p.active && !TooMuch(p, FirstLine(text), limit) && Whole(text, "", cuts)
    requires |FirstLine(text)| == |text|
             || (ConsumeLine(p, FirstLine(text)).Ok? && !ConsumeLine(p, FirstLine(text)).value.active)
    ensures !Exceeds(p, text, cuts, limit)
  {
    hide Possible, ConsumeLine;
    FirstLineEnds(text);
    var line := FirstLine(text);
    forall n: nat | LooksAt(text, n, cuts) ensures !Overfull(p, text, n, limit) {
      if n < |line| {
        assert n == 0 && text[..n] == "";
      } else if n == |line| {
        assert text[..n] == line;
      }
    }
  }

  class Scanner {
    const limit: nat
    var buffer: string
    var afterCr: bool
    var progress: Progress
    var error: Option<Error>

    constructor (limit: nat)
      ensures this.limit == limit && Valid() && progress == START && buffer == "" && !afterCr && error.None?
    {
      this.limit := limit;
      buffer, afterCr, progress, error := "", false, START, None;
    }

    /** The unfinished line is within the limit and has no break; after a CR it is empty. */
    ghost predicate Valid()
      reads this
    {
      && Unbroken(buffer) && Utf8Length(buffer) <= limit
      && (afterCr ==> buffer == "")
      && (!progress.active ==> buffer == "")
    }

    /** With `rest` still to come the scan can only end with `expected`, or raise the limit, which it
        does exactly if `over`. */
    ghost predicate Heads(rest: string, cuts: set<nat>, expected: Result<seq<(string, nat)>, Error>, over: bool)
      reads this
    {
      match error
      case Some(StatusFieldMalformed) => expected == Err(StatusFieldMalformed) && !over
      case Some(StatusFieldScanLimitExceeded) => over
      case None =>
        && (over <==> Exceeds(progress, Pending(buffer, afterCr, rest), cuts, limit))
        && Outcome(progress, Pending(buffer, afterCr, rest)) == expected
    }

    /** `consume_status_line` on the finished line in the buffer; the caller then clears it. */
    method ConsumeBuffer()
      requires error.None?
      modifies this
      ensures buffer == "" && afterCr == old(afterCr)
      ensures match ConsumeLine(old(progress), old(buffer))
              case Ok(next) => error.None? && progress == next
              case Err(e) => error == Some(e) && progress == old(progress)
    {
      var line := progress.line + 1;
      if !Blank(buffer) {
        var value := StatusValue(buffer);
        if value.Some? {
          progress := progress.(fields := progress.fields + [(value.value, progress.line)], statusSeen := true);
        } else if STATUS_PREFIX <= buffer {
          buffer, error := "", Some(StatusFieldMalformed);
          return;
        } else if !progress.titleSeen && !progress.statusSeen && IsTitle(buffer) {
          progress := progress.(titleSeen := true);
        } else {
          progress := progress.(active := false);
        }
      }
      progress := progress.(line := line);
      buffer := "";
    }

    /** `retain_status_fragment`. */
    method Retain(fragment: string)
      requires error.None? && Valid() && progress.active && !afterCr && Unbroken(fragment)
      modifies this
      ensures Valid() && !afterCr
      ensures
        var candidate := old(buffer) + fragment;
        if !Possible(candidate, old(progress).titleSeen || old(progress).statusSeen) then
          error.None? && buffer == "" && progress == old(progress).(active := false)
        else
          progress == old(progress) &&
          if Utf8Length(candidate) > limit then error == Some(StatusFieldScanLimitExceeded) && buffer == old(buffer)
          else error.None? && buffer == candidate
    {
      var candidate := buffer + fragment;
      var possible := true;
      if candidate != "" && !Blank(candidate) {
        if STATUS_PREFIX <= candidate {
          possible := true;
        } else if candidate <= STATUS_PREFIX {
          possible := true;
        } else if !progress.titleSeen && !progress.statusSeen {
          possible := Heading(candidate);
        } else {
          possible := false;
        }
      }
      if !possible {
        progress, buffer := progress.(active := false), "";
        return;
      }
      Utf8LengthAdds(buffer, fragment);
      if Utf8Length(buffer) + Utf8Length(fragment) > limit {
        error := Some(StatusFieldScanLimitExceeded);
        return;
      }
      buffer := candidate;
    }

    /** Reads the line that ends at `delimiter`; afterwards only the break itself is open. */
    method ReadLine(fragment: string, delimiter: char, ghost tail: string, ghost cuts: set<nat>,
                    ghost expected: Result<seq<(string, nat)>, Error>, ghost over: bool)
      requires error.None? && Valid() && progress.active && !afterCr && Unbroken(fragment) && IsBreak(delimiter)
      requires Heads(fragment + [delimiter] + tail, cuts, expected, over)
      requires Whole(fragment, [delimiter] + tail, cuts)
      modifies this
      ensures Valid() && !afterCr
      ensures error.Some? ==> Heads("", cuts, expected, over)
      ensures error.None? ==>
                && Outcome(progress, AfterBreak(delimiter, tail)) == expected
                && buffer == ""
                && (over <==> Exceeds(progress, AfterBreak(delimiter, tail), cuts, limit))
    {
      ghost var p, candidate, before := progress, buffer + fragment, buffer;
      assert buffer + (fragment + [delimiter] + tail) == candidate + ([delimiter] + tail);
      assert candidate + [delimiter] + tail == candidate + ([delimiter] + tail);
      Retain(fragment);
      if error.Some? {
        LongCandidate(p, candidate, [delimiter] + tail, cuts, limit);
        return;
      }
      if !progress.active {
        ImpossibleCandidate(p, before, fragment, [delimiter] + tail, cuts, limit);
        NothingExceeds(progress, cuts, limit);
        return;
      }
      ConsumeBuffer();
      LineRead(p, candidate, delimiter, tail, cuts, limit);
    }

    /** `consume_status_text`.  `rest` is any text that may follow; the scanner does not see it.  One
        of the cuts is at the end of the chunk, and none inside it. */
    method Feed(chunk: string, ghost rest: string, ghost cuts: set<nat>,
                ghost expected: Result<seq<(string, nat)>, Error>, ghost over: bool)
      requires error.None? && Valid() && progress.active
      requires chunk == "" ==> !StartsWithLineFeed(rest)
      requires Heads(chunk + rest, cuts, expected, over)
      requires Whole(chunk, rest, cuts) && |rest| in cuts
      modifies this
      ensures Valid() && Heads(rest, cuts, expected, over)
    {
      hide Split, FoldLines, Exceeds, Utf8Length, AfterBreak;
      var remainder := chunk;
      if afterCr {
        PendingText(true, chunk + rest);
        BreakWithin('\r', chunk, rest);
        assert chunk == "" ==> chunk + rest == rest;
        remainder := SkipLineFeed(remainder);
        afterCr := false;
        PendingText(false, remainder + rest);
        NoLineFeedSkipped(remainder + rest);
      }
      while remainder != "" && progress.active
        invariant Valid() && error.None? && (afterCr ==> remainder == "")
        invariant Heads(remainder + rest, cuts, expected, over) && |remainder| <= |chunk|
        decreases |remainder|
      {
        var cr, lf := Find(remainder, '\r'), Find(remainder, '\n');
        if cr < 0 && lf < 0 {
          FeedFragment(remainder, rest, cuts, expected, over);
          return;
        }
        var boundary := if cr < 0 || 0 <= lf < cr then lf else cr;
        remainder := FeedLine(remainder, boundary, rest, cuts, expected, over);
        if error.Some? || !progress.active { return; }
      }
      assert remainder == "" ==> remainder + rest == rest;
      if !progress.active { NothingExceeds(progress, cuts, limit); }
    }

    /** One round of the loop: the line up to `boundary`, and its break. */
    method FeedLine(text: string, boundary: nat, ghost rest: string, ghost cuts: set<nat>,
                    ghost expected: Result<seq<(string, nat)>, Error>, ghost over: bool)
      returns (remainder: string)
      requires error.None? && Valid() && progress.active && !afterCr
      requires boundary < |text| && IsBreak(text[boundary]) && Unbroken(text[..boundary])
      requires Heads(text + rest, cuts, expected, over) && Whole(text, rest, cuts)
      modifies this
      ensures Valid() && |remainder| < |text|
      ensures error.None? ==> (afterCr ==> remainder == "")
      ensures error.None? && progress.active ==> Heads(remainder + rest, cuts, expected, over)
      ensures error.Some? || !progress.active ==> Heads(rest, cuts, expected, over)
    {
      hide Split, FoldLines, Exceeds, Utf8Length, Unbroken, AfterBreak, ConsumeLine;
      var fragment, delimiter := text[..boundary], text[boundary];
      remainder := text[boundary + 1..];
      assert text + rest == fragment + [delimiter] + (remainder + rest);
      ReadLine(fragment, delimiter, remainder + rest, cuts, expected, over);
      if error.None? && !progress.active { NothingExceeds(progress, cuts, limit); }
      if error.Some? || !progress.active { return; }
      if delimiter == '\r' {
        if remainder == "" {
          assert remainder + rest == rest;
          afterCr := true;
          PendingText(true, rest);
          return;
        }
        BreakWithin('\r', remainder, rest);
        remainder := SkipLineFeed(remainder);
      } else {
        BreakWithin('\n', remainder, rest);
        assert AfterBreak('\n', remainder) == remainder by { NoLineFeedSkipped(remainder); }
      }
      PendingText(false, remainder + rest);
      NoLineFeedSkipped(remainder + rest);
    }

    /** The last, unfinished part of a chunk. */
    method FeedFragment(fragment: string, ghost rest: string, ghost cuts: set<nat>,
                        ghost expected: Result<seq<(string, nat)>, Error>, ghost over: bool)
      requires error.None? && Valid() && progress.active && !afterCr && Unbroken(fragment)
      requires Heads(fragment + rest, cuts, expected, over)
      requires Whole(fragment, rest, cuts) && |rest| in cuts
      modifies this
      ensures Valid() && Heads(rest, cuts, expected, over)
    {
      hide Exceeds, Split, FoldLines;
      ghost var p, candidate, before := progress, buffer + fragment, buffer;
      assert buffer + (fragment + rest) == candidate + rest;
      Retain(fragment);
      if error.Some? {
        LongCandidate(p, candidate, rest, cuts, limit);
      } else if !progress.active {
        ImpossibleCandidate(p, before, fragment, rest, cuts, limit);
        NothingExceeds(progress, cuts, limit);
      }
    }

    /** The end of the text: what is left in the buffer is the last line. */
    method Finish(ghost cuts: set<nat>, ghost expected: Result<seq<(string, nat)>, Error>, ghost over: bool)
      requires error.None? && Valid() && Heads("", cuts, expected, over) && 0 in cuts
      modifies this
      ensures match error
              case Some(StatusFieldScanLimitExceeded) => over
              case Some(e) => expected == Err(e) && !over
              case None => expected == Ok(progress.fields) && !over
    {
      if progress.active {
        Feed("", "", cuts, expected, over);
        if error.Some? { return; }
        hide ConsumeLine, Split, FoldLines, Exceeds, Utf8Length, Blank;
        assert Pending(buffer, afterCr, "") == buffer by { assert buffer + "" == buffer; }
        LastLine(progress, buffer, cuts, limit);
        if buffer != "" { ConsumeBuffer(); }
      } else {
        NothingExceeds(progress, cuts, limit);
      }
    }
  }

  function Joined(chunks: seq<string>): string {
    if chunks == [] then "" else chunks[0] + Joined(chunks[1..])
  }

  /** What follows each chunk, and all of it. */
  function Cuts(chunks: seq<string>): set<nat> {
    {|Joined(chunks)|} + if chunks == [] then {} else Cuts(chunks[1..])
  }

  lemma {:induction false} CutsAreBehind(chunks: seq<string>, i: nat)
    requires i <= |chunks|
    ensures |Joined(chunks[i..])| in Cuts(chunks) && 0 in Cuts(chunks)
    ensures forall m | m in Cuts(chunks) :: m <= |Joined(chunks)|
    ensures i < |chunks| ==> Whole(chunks[i], Joined(chunks[i + 1..]), Cuts(chunks))
    decreases |chunks|
  {
    if chunks != [] {
      if i == 0 {
        CutsAreBehind(chunks[1..], 0);
        assert chunks[0..] == chunks && chunks[1..][0..] == chunks[1..];
      } else {
        CutsAreBehind(chunks[1..], i - 1);
        assert chunks[1..][i - 1..] == chunks[i..];
        if i < |chunks| {
          assert chunks[1..][i..] == chunks[i + 1..];
          JoinedFrom(chunks, i);
        }
      }
    }
  }

  lemma {:induction false} JoinedFrom(chunks: seq<string>, i: nat)
    requires i < |chunks|
    ensures |chunks[i]| + |Joined(chunks[i + 1..])| <= |Joined(chunks)|
    decreases i
  {
    if i > 0 {
      JoinedFrom(chunks[1..], i - 1);
      assert chunks[1..][i..] == chunks[i + 1..];
    }
  }

  /** The reader's loop over the decoded chunks of a text.  However the text is cut into chunks, the
      scan ends as the whole document does, or it raises the scan limit, and that exactly if it gets
      to a line of which, at its end or where a chunk ends, it has more than the limit and that may
      be metadata so far.  An empty chunk, which the incremental decoder only yields inside a
      multi-byte character, never stands before a LF. */
  method Scan(chunks: seq<string>, limit: nat) returns (result: Result<seq<(string, nat)>, Error>)
    requires forall i | 0 <= i < |chunks| && chunks[i] == "" :: !StartsWithLineFeed(Joined(chunks[i + 1..]))
    ensures result == if Exceeds(START, Joined(chunks), Cuts(chunks), limit) then Err(StatusFieldScanLimitExceeded)
                      else StatusFields(Joined(chunks))
  {
    hide Split, FoldLines, Exceeds, Utf8Length, AfterBreak, Cuts, Whole;
    var scanner := new Scanner(limit);
    ghost var expected, cuts := StatusFields(Joined(chunks)), Cuts(chunks);
    ghost var over := Exceeds(START, Joined(chunks), cuts, limit);
    PendingText(false, Joined(chunks));
    NoLineFeedSkipped(Joined(chunks));
    assert chunks[0..] == chunks;
    CutsAreBehind(chunks, 0);
    for i := 0 to |chunks|
      invariant fresh(scanner) && scanner.limit == limit && scanner.Valid() && scanner.error.None?
      invariant scanner.Heads(Joined(chunks[i..]), cuts, expected, over)
    {
      assert chunks[i..][1..] == chunks[i + 1..];
      CutsAreBehind(chunks, i);
      CutsAreBehind(chunks, i + 1);
      if scanner.progress.active {
        scanner.Feed(chunks[i], Joined(chunks[i + 1..]), cuts, expected, over);
        if scanner.error.Some? { return Err(scanner.error.value); }
      } else {
        NothingExceeds(scanner.progress, cuts, limit);
      }
    }
    scanner.Finish(cuts, expected, over);
    result := if scanner.error.Some? then Err(scanner.error.value) else Ok(scanner.progress.fields);
  }

  // ---------------------------------------------------------------- a text whose cuts decide

  function Blanks(n: nat): string { seq(n, _ => ' ') }

  lemma {:induction false} BlanksAreNarrow(n: nat)
    ensures Utf8Length(Blanks(n)) == n
  {
    if n > 0 {
      assert Blanks(n)[..n - 1] == Blanks(n - 1);
      BlanksAreNarrow(n - 1);
    }
  }

  /** Blanks may start a metadata line, but not a line that goes on with an `x`. */
  lemma IndentedIsImpossible(n: nat)
    requires n > 0
    ensures !Possible(Blanks(n) + "x", false) && Unbroken(Blanks(n) + "x")
  {
    var text := Blanks(n) + "x";
    assert forall i | 0 <= i < n :: text[i] == ' ';
    assert text[n] == 'x' && text[n] in text;
    assert text[0] != STATUS_PREFIX[0];
  }

  lemma IndentedText(n: nat)
    requires n > 0
    ensures
      var text := Blanks(n) + "x";
      FirstLine(text) == text && StatusFields(text) == Ok([])
  {
    hide Possible, Unbroken, Blanks, FirstLine, Split, ConsumeLine;
    var text := Blanks(n) + "x";
    IndentedIsImpossible(n);
    SplitLine(text);
    FirstLineOf(text, "");
    FirstLineEnds("");
    assert text + "" == text;
    ImpossibleLineEnds(START, text, text);
    var next := START.(active := false, line := 2);
    assert [text][1..] == [];
    assert FoldLines(START, [text]) == FoldLines(next, []) == Ok([]);
  }

  lemma CutsDecide(n: nat, limit: nat)
    requires n > limit
    ensures Exceeds(START, Blanks(n) + "x", {1}, limit)
    ensures !Exceeds(START, Blanks(n) + "x", {0, n + 1}, limit)
  {
    var text := Blanks(n) + "x";
    IndentedText(n);
    IndentedIsImpossible(n);
    BlanksAreNarrow(n);
    assert text[..n] == Blanks(n) && Blank(Blanks(n));
    assert LooksAt(text, n, {1}) && Overfull(START, text, n, limit);
    NothingInFirstLine(START, text, {0, n + 1}, limit);
  }

  lemma MoreCuts(p: Progress, text: string, few: set<nat>, many: set<nat>, limit: nat)
    requires few <= many && Exceeds(p, text, few, limit)
    ensures Exceeds(p, text, many, limit)
  {
    hide Overfull;
    var n: nat :| LooksAt(text, n, few) && Overfull(p, text, n, limit);
    assert LooksAt(text, n, many);
  }

  /** More blanks than the limit and then text: if a chunk ends behind the blanks the scan limit is
      raised, if not the document has no fields. */
  method CutsMatter(n: nat, limit: nat)
    returns (cut: Result<seq<(string, nat)>, Error>, whole: Result<seq<(string, nat)>, Error>)
    requires n > limit
    ensures cut == Err(StatusFieldScanLimitExceeded) && whole == Ok([])
  {
    hide Exceeds, StatusFields;
    var first, second := [Blanks(n), "x"], [Blanks(n) + "x"];
    assert first[1..] == ["x"] && ["x"][1..] == [] && second[1..] == [];
    assert Joined(["x"]) == "x";
    assert Joined(first) == Joined(second) == Blanks(n) + "x";
    assert Cuts(["x"]) == {0, 1} && Cuts(first) == {0, 1, n + 1} && Cuts(second) == {0, n + 1};
    CutsDecide(n, limit);
    MoreCuts(START, Blanks(n) + "x", {1}, Cuts(first), limit);
    IndentedText(n);
    cut := Scan(first, limit);
    whole := Scan(second, limit);
  }
}
