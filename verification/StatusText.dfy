/** What Status lines, titles and lines are, without the functions that find them
    (src/aep/planning_evidence.py:37-97, src/aep/dogfood_runtime.py:1178-1226). */
module StatusText {
  import opened Wrappers
  import opened StatusLines

  // ---------------------------------------------------------------- trimming

  predicate All(text: string, kept: char -> bool) { forall c | c in text :: kept(c) }

  /** `core` neither starts nor ends with one of these characters. */
  predicate Bare(core: string, outer: char -> bool) {
    core != "" ==> !outer(core[0]) && !outer(core[|core| - 1])
  }

  lemma {:induction false} TrimLeftIs(text: string, outer: char -> bool)
    ensures
      var rest := TrimLeft(text, outer);
      && |rest| <= |text| && text[|text| - |rest|..] == rest
      && All(text[..|text| - |rest|], outer) && (rest != "" ==> !outer(rest[0]))
  {
    if text != "" && outer(text[0]) {
      TrimLeftIs(text[1..], outer);
      var n := |text| - |TrimLeft(text, outer)|;
      assert text[..n] == [text[0]] + text[1..][..n - 1];
    }
  }

  lemma {:induction false} TrimRightIs(text: string, outer: char -> bool)
    ensures
      var rest := TrimRight(text, outer);
      && rest <= text && All(text[|rest|..], outer)
      && (rest != "" ==> !outer(rest[|rest| - 1]))
  {
    var last := |text| - 1;
    if text != "" && outer(text[last]) {
      TrimRightIs(text[..last], outer);
      var n := |TrimRight(text, outer)|;
      assert text[n..] == text[..last][n..] + [text[last]];
    }
  }

  lemma {:induction false} TrimLeftDrops(before: string, rest: string, outer: char -> bool)
    requires All(before, outer) && (rest != "" ==> !outer(rest[0]))
    ensures TrimLeft(before + rest, outer) == rest
  {
    if before == "" {
      assert before + rest == rest;
    } else {
      assert (before + rest)[1..] == before[1..] + rest && before[0] in before;
      TrimLeftDrops(before[1..], rest, outer);
    }
  }

  lemma {:induction false} TrimRightDrops(rest: string, after: string, outer: char -> bool)
    requires All(after, outer) && (rest != "" ==> !outer(rest[|rest| - 1]))
    ensures TrimRight(rest + after, outer) == rest
    decreases |after|
  {
    if after == "" {
      assert rest + after == rest;
    } else {
      var last := |after| - 1;
      assert (rest + after)[..|rest + after| - 1] == rest + after[..last] && after[last] in after;
      TrimRightDrops(rest, after[..last], outer);
    }
  }

  /** Trimming finds the one bare text between outer characters. */
  lemma TrimmedExactly(before: string, core: string, after: string, outer: char -> bool)
    requires All(before, outer) && All(after, outer) && Bare(core, outer)
    ensures Trim(before + core + after, outer) == core
  {
    if core == "" {
      TrimLeftDrops(before + after, "", outer);
      assert before + core + after == before + after + "";
    } else {
      TrimLeftDrops(before, core + after, outer);
      assert before + core + after == before + (core + after);
      TrimRightDrops(core, after, outer);
    }
  }

  lemma TrimSplits(text: string, outer: char -> bool)
    ensures
      var core := Trim(text, outer);
      exists before, after :: text == before + core + after && All(before, outer) && All(after, outer)
    ensures Bare(Trim(text, outer), outer)
  {
    TrimLeftIs(text, outer);
    var left := TrimLeft(text, outer);
    TrimRightIs(left, outer);
    var core := TrimRight(left, outer);
    assert text == text[..|text| - |left|] + core + left[|core|..];
  }

  // ---------------------------------------------------------------- Status lines

  /** The line is the prefix and a value among whitespace, as `_STATUS` matches it. */
  ghost predicate HasStatus(line: string, value: string) {
    && value != "" && Bare(value, IsSpace)
    && exists before, after ::
         line == STATUS_PREFIX + before + value + after && All(before, IsSpace) && All(after, IsSpace)
  }

  lemma Behind(prefix: string, before: string, core: string, after: string)
    ensures prefix + before + core + after == prefix + (before + core + after)
    ensures prefix <= prefix + before + core + after
    ensures (prefix + before + core + after)[|prefix|..] == before + core + after
  {
  }

  /** The value read from a line is the value the line has; it has at most one. */
  lemma StatusValueExactly(line: string, value: string)
    ensures StatusValue(line) == Some(value) <==> HasStatus(line, value)
  {
    hide IsSpace, Trim, STATUS_PREFIX;
    if HasStatus(line, value) {
      var before, after :| line == STATUS_PREFIX + before + value + after && All(before, IsSpace) && All(after, IsSpace);
      Behind(STATUS_PREFIX, before, value, after);
      TrimmedExactly(before, value, after, IsSpace);
    }
    if StatusValue(line) == Some(value) {
      var rest := line[|STATUS_PREFIX|..];
      TrimSplits(rest, IsSpace);
      var before, after :| rest == before + value + after && All(before, IsSpace) && All(after, IsSpace);
      Behind(STATUS_PREFIX, before, value, after);
      assert line == STATUS_PREFIX + rest;
    }
  }

  // ---------------------------------------------------------------- titles

  predicate Hashes(text: string) { forall c | c in text :: c == '#' }

  /** At most three spaces, a `#`, and then nothing or a blank. */
  predicate HeadingParts(line: string, indent: string, rest: string) {
    && line == indent + "#" + rest
    && |indent| <= 3 && (forall c | c in indent :: c == ' ')
    && (rest != "" ==> IsBlank(rest[0]))
  }

  /** A run of `#` behind blanks closes a heading. */
  ghost predicate Closes(closing: string) {
    exists blanks, hashes :: closing == blanks + hashes && blanks != "" && Blank(blanks) && hashes != "" && Hashes(hashes)
  }

  /** The text of a heading: what stands between blanks, without a closing run of `#`. */
  ghost predicate HasTitle(line: string, title: string) {
    exists indent, before, closing, after :: TitleParts(line, indent, before, title, closing, after)
  }

  ghost predicate TitleParts(line: string, indent: string, before: string, title: string, closing: string, after: string)
  {
    && HeadingParts(line, indent, before + (title + closing) + after)
    && Blank(before) && Blank(after) && Bare(title, IsBlank) && IsTitleOf(title, closing)
  }

  /** Of a heading's trimmed text, `title` is what it says and `closing` the rest. */
  ghost predicate IsTitleOf(title: string, closing: string) {
    if title == "" then Hashes(closing)
    else Closes(closing) || (closing == "" && !Hashes(title) && !EndsClosed(title))
  }

  ghost predicate EndsClosed(title: string) {
    exists head, closing :: title == head + closing && Closes(closing)
  }

  lemma HeadingHasParts(line: string) returns (indent: string, rest: string)
    requires Heading(line)
    ensures HeadingParts(line, indent, rest)
  {
    var n: nat :| n <= 3 && n < |line| && line[n] == '#' && (forall i | 0 <= i < n :: line[i] == ' ')
                  && (n + 1 == |line| || IsBlank(line[n + 1]));
    hide IsBlank;
    indent, rest := line[..n], line[n + 1..];
    assert line == indent + "#" + rest;
    assert rest != "" ==> rest[0] == line[n + 1];
  }

  lemma PartsAreHeading(line: string, indent: string, rest: string)
    requires HeadingParts(line, indent, rest)
    ensures Heading(line)
  {
    hide IsBlank;
    var n := |indent|;
    assert forall i | 0 <= i < n :: line[i] == indent[i] && indent[i] in indent;
    assert rest != "" ==> line[n + 1] == rest[0];
    assert line[n] == '#';
  }

  lemma HeadingExactly(line: string)
    ensures Heading(line) <==> exists indent, rest :: HeadingParts(line, indent, rest)
  {
    if Heading(line) { var indent, rest := HeadingHasParts(line); }
    if indent, rest :| HeadingParts(line, indent, rest) { PartsAreHeading(line, indent, rest); }
    hide Heading, HeadingParts;
  }

  /** What `TitleOf` makes of the text behind the `#`. */
  lemma TitleOfRest(line: string, indent: string, rest: string)
    requires HeadingParts(line, indent, rest) && Heading(line)
    ensures
      var body := Trim(rest, IsBlank);
      var open := TrimRight(body, c => c == '#');
      TitleOf(line) == if open == "" then ""
                       else if open != body && IsBlank(open[|open| - 1]) then TrimRight(open, IsBlank)
                       else body
  {
    assert line == indent + ("#" + rest);
    TrimLeftDrops(indent, "#" + rest, c => c == ' ');
    assert ("#" + rest)[1..] == rest;
  }

  lemma HashesOnly(text: string)
    ensures Hashes(text) <==> TrimRight(text, c => c == '#') == ""
  {
    var hash := (c: char) => c == '#';
    TrimRightIs(text, hash);
    if Hashes(text) { TrimRightDrops("", text, hash); assert "" + text == text; }
  }

  lemma ClosedBody(body: string, title: string, blanks: string, hashes: string)
    requires body == title + (blanks + hashes) && title != "" && Bare(title, IsBlank)
    requires blanks != "" && Blank(blanks) && hashes != "" && Hashes(hashes)
    ensures body[0] == title[0] && body[|body| - 1] == '#'
    ensures TrimRight(body, c => c == '#') == title + blanks && IsBlank((title + blanks)[|title + blanks| - 1])
    ensures TrimRight(title + blanks, IsBlank) == title
  {
    var open := title + blanks;
    assert body == open + hashes && body[|body| - 1] == hashes[|hashes| - 1] && hashes[|hashes| - 1] in hashes;
    assert open[|open| - 1] == blanks[|blanks| - 1] && blanks[|blanks| - 1] in blanks;
    TrimRightDrops(open, hashes, c => c == '#');
    TrimRightDrops(title, blanks, IsBlank);
  }

  /** The title of a trimmed heading text is found by taking the closing run away. */
  lemma BodyHasTitle(body: string, title: string, closing: string)
    requires body == title + closing && Bare(title, IsBlank) && IsTitleOf(title, closing)
    ensures Bare(body, IsBlank)
    ensures
      var open := TrimRight(body, c => c == '#');
      title == if open == "" then ""
               else if open != body && IsBlank(open[|open| - 1]) then TrimRight(open, IsBlank)
               else body
  {
    var hash := (c: char) => c == '#';
    HashesOnly(body);
    if title == "" {
      assert body == closing;
      if body != "" { assert body[0] in closing && body[|body| - 1] in closing; }
    } else if Closes(closing) {
      var blanks, hashes :| closing == blanks + hashes && blanks != "" && Blank(blanks) && hashes != "" && Hashes(hashes);
      ClosedBody(body, title, blanks, hashes);
    } else {
      assert body == title;
      TrimRightIs(body, hash);
      var open := TrimRight(body, hash);
      if open != body && IsBlank(open[|open| - 1]) { ClosedEnd(body, open); }
    }
  }

  lemma ClosedEnd(body: string, open: string)
    requires open <= body && open != body && Hashes(body[|open|..])
    requires open != "" && IsBlank(open[|open| - 1])
    ensures EndsClosed(body)
  {
    var last := |open| - 1;
    var blanks, hashes := [open[last]], body[|open|..];
    assert body == open[..last] + (blanks + hashes);
    assert Closes(blanks + hashes);
  }

  lemma ClosingRun(body: string, title: string, open: string)
    requires title <= open <= body && |title| < |open| < |body|
    requires Blank(open[|title|..]) && Hashes(body[|open|..])
    ensures Closes(body[|title|..])
  {
    assert open == body[..|open|];
    assert body[|title|..] == open[|title|..] + body[|open|..];
  }

  /** Every trimmed text has a title. */
  lemma BodySplits(body: string) returns (title: string, closing: string)
    requires Bare(body, IsBlank)
    ensures body == title + closing && Bare(title, IsBlank) && IsTitleOf(title, closing)
  {
    var hash := (c: char) => c == '#';
    TrimRightIs(body, hash);
    var open := TrimRight(body, hash);
    HashesOnly(body);
    if open == "" {
      title, closing := "", body;
    } else if open != body && IsBlank(open[|open| - 1]) {
      TrimRightIs(open, IsBlank);
      title := TrimRight(open, IsBlank);
      closing := body[|title|..];
      assert title <= body && body == title + closing;
      assert body[0] == open[0];
      ClosingRun(body, title, open);
    } else {
      title, closing := body, "";
      if EndsClosed(body) { NotClosed(body, open); }
    }
  }

  /** A closed end is what taking the closing run away finds. */
  lemma NotClosed(body: string, open: string)
    requires EndsClosed(body) && open == TrimRight(body, c => c == '#')
    ensures open != "" && open != body && IsBlank(open[|open| - 1])
  {
    var head, closing :| body == head + closing && Closes(closing);
    var blanks, hashes :| closing == blanks + hashes && blanks != "" && Blank(blanks) && hashes != "" && Hashes(hashes);
    assert body == (head + blanks) + hashes && (head + blanks)[|head + blanks| - 1] in blanks;
    TrimRightDrops(head + blanks, hashes, c => c == '#');
  }

  lemma TitlePartsDecide(line: string, indent: string, before: string, title: string, closing: string, after: string)
    requires TitleParts(line, indent, before, title, closing, after) && Heading(line)
    ensures TitleOf(line) == title
  {
    hide TitleOf, Heading, Trim, TrimRight, HeadingParts;
    var body := title + closing;
    BodyHasTitle(body, title, closing);
    TitleOfRest(line, indent, before + body + after);
    TrimmedExactly(before, body, after, IsBlank);
  }

  lemma TitleOfHasParts(line: string)
    requires Heading(line)
    ensures HasTitle(line, TitleOf(line))
  {
    hide TitleOf, Heading, Trim, TrimRight, HeadingParts, IsTitleOf;
    HeadingExactly(line);
    var indent, rest :| HeadingParts(line, indent, rest);
    TrimSplits(rest, IsBlank);
    var body := Trim(rest, IsBlank);
    var before, after :| rest == before + body + after && All(before, IsBlank) && All(after, IsBlank);
    var title, closing := BodySplits(body);
    BodyHasTitle(body, title, closing);
    TitleOfRest(line, indent, rest);
    assert TitleParts(line, indent, before, title, closing, after);
  }

  /** The title of a heading is the one title it has. */
  lemma TitleExactly(line: string, title: string)
    requires Heading(line)
    ensures TitleOf(line) == title <==> HasTitle(line, title)
  {
    hide TitleOf, Heading, TitleParts;
    TitleOfHasParts(line);
    if indent, before, closing, after :| TitleParts(line, indent, before, title, closing, after) {
      TitlePartsDecide(line, indent, before, title, closing, after);
    }
  }

  /** A line is a title line exactly if it is a heading with a title that is not empty. */
  lemma IsTitleExactly(line: string)
    ensures IsTitle(line) <==> exists title :: title != "" && HasTitle(line, title)
  {
    hide TitleOf, Heading, Trim;
    HeadingExactly(line);
    if Heading(line) { TitleExactly(line, TitleOf(line)); }
    if title :| title != "" && HasTitle(line, title) {
      var indent, before, closing, after :| TitleParts(line, indent, before, title, closing, after);
      assert Heading(line);
      TitleExactly(line, title);
    }
  }

  // ---------------------------------------------------------------- lines

  /** A break between two lines: a LF, a CR, or both in this order, which are one break. */
  predicate Breaks(separator: string, rest: string) {
    separator == "\n" || separator == "\r\n" || (separator == "\r" && !(rest != "" && rest[0] == '\n'))
  }

  /** `lines` stand between the breaks of `text`. */
  ghost predicate AreLines(text: string, lines: seq<string>)
    decreases |lines|
  {
    && lines != [] && Unbroken(lines[0])
    && if |lines| == 1 then text == lines[0]
       else exists separator, rest :: LineThen(text, lines, separator, rest)
  }

  ghost predicate LineThen(text: string, lines: seq<string>, separator: string, rest: string)
    requires |lines| > 1
    decreases |lines|, 0
  {
    text == lines[0] + separator + rest && Breaks(separator, rest) && AreLines(rest, lines[1..])
  }

  lemma BreakOf(line: string, delimiter: char, tail: string) returns (separator: string, rest: string)
    requires IsBreak(delimiter)
    ensures rest == AfterBreak(delimiter, tail) && Breaks(separator, rest)
    ensures line + [delimiter] + tail == line + separator + rest
  {
    rest := AfterBreak(delimiter, tail);
    separator := if |rest| == |tail| then [delimiter] else "\r\n";
    if |rest| != |tail| { assert [delimiter] + tail == separator + rest; }
  }

  lemma BreakRead(line: string, separator: string, rest: string)
    requires Breaks(separator, rest)
    ensures
      var delimiter, tail := separator[0], separator[1..] + rest;
      && IsBreak(delimiter) && AfterBreak(delimiter, tail) == rest
      && line + separator + rest == line + [delimiter] + tail
  {
    var tail := separator[1..] + rest;
    if separator == "\r\n" {
      assert tail[0] == '\n' && tail[1..] == rest;
    } else {
      assert tail == rest;
    }
    assert [separator[0]] + tail == separator + rest;
  }

  lemma {:induction false} SplitGivesLines(text: string)
    ensures AreLines(text, Split(text))
    decreases |text|
  {
    hide Breaks, AfterBreak, Unbroken;
    FirstLineEnds(text);
    var first := FirstLine(text);
    if |first| == |text| {
      assert first == text;
      SplitLine(text);
    } else {
      var delimiter, tail := text[|first|], text[|first| + 1..];
      var separator, rest := BreakOf(first, delimiter, tail);
      AfterBreakIsShorter(delimiter, tail);
      SplitGivesLines(rest);
      assert Split(text) == [first] + Split(rest);
      assert Split(text)[1..] == Split(rest);
      assert text == first + [delimiter] + tail;
      assert LineThen(text, Split(text), separator, rest);
    }
  }

  lemma AfterBreakIsShorter(delimiter: char, tail: string)
    ensures |AfterBreak(delimiter, tail)| <= |tail|
  {
  }

  lemma {:induction false} LinesAreSplit(text: string, lines: seq<string>)
    requires AreLines(text, lines)
    ensures lines == Split(text)
    decreases |lines|
  {
    hide Breaks, AfterBreak, Unbroken, Split;
    if |lines| == 1 {
      SplitLine(text);
    } else {
      var separator, rest :| LineThen(text, lines, separator, rest);
      LinesAreSplit(rest, lines[1..]);
      BreakRead(lines[0], separator, rest);
      SplitAt(lines[0], separator[0], separator[1..] + rest);
      assert lines == [lines[0]] + lines[1..];
    }
  }

  /** Splitting gives the one sequence of lines a text has. */
  lemma SplitExactly(text: string, lines: seq<string>)
    ensures AreLines(text, lines) <==> lines == Split(text)
  {
    SplitGivesLines(text);
    if AreLines(text, lines) { LinesAreSplit(text, lines); }
  }

  // ---------------------------------------------------------------- the leading fields

  ghost predicate IsTitleLine(line: string) {
    !(STATUS_PREFIX <= line) && exists title :: title != "" && HasTitle(line, title)
  }

  /** Before line `k` stand only blank lines, Status lines and at most one title, behind nothing but
      blank lines. */
  ghost predicate LedByMetadata(lines: seq<string>, k: nat)
    requires k <= |lines|
  {
    forall j | 0 <= j < k ::
      || Blank(lines[j]) || (exists value :: HasStatus(lines[j], value))
      || (IsTitleLine(lines[j]) && AllBlank(lines, j))
  }

  /** A Status line with the prefix and no value. */
  ghost predicate IsMalformed(lines: seq<string>, k: nat) {
    && k < |lines| && LedByMetadata(lines, k)
    && STATUS_PREFIX <= lines[k] && forall value :: !HasStatus(lines[k], value)
  }

  lemma PrefixIsNotBlank(line: string)
    requires STATUS_PREFIX <= line
    ensures !Blank(line)
  {
    assert line[0] == '*' && line[0] in line;
  }

  lemma StatusLine(line: string)
    ensures StatusValue(line).Some? <==> exists value :: HasStatus(line, value)
    ensures StatusValue(line).Some? ==> STATUS_PREFIX <= line
  {
    if StatusValue(line).Some? { StatusValueExactly(line, StatusValue(line).value); }
    if value :| HasStatus(line, value) { StatusValueExactly(line, value); }
  }

  lemma MetadataAlike(lines: seq<string>, k: nat)
    requires k <= |lines|
    ensures OnlyMetadata(lines, k) <==> LedByMetadata(lines, k)
  {
    hide StatusValue, IsTitle, HasStatus, HasTitle;
    forall j | 0 <= j < k
      ensures StatusValue(lines[j]).Some? <==> exists value :: HasStatus(lines[j], value)
      ensures IsTitle(lines[j]) && !(STATUS_PREFIX <= lines[j]) <==> IsTitleLine(lines[j])
    {
      StatusLine(lines[j]);
      IsTitleExactly(lines[j]);
    }
  }

  /** The Status fields of a document are, in order, its Status lines that only blank lines, one title
      and other Status lines precede; it is refused if and only if such a line has no value. */
  lemma StatusFieldsAreRead(content: string, lines: seq<string>)
    requires AreLines(content, lines)
    ensures StatusFields(content).Err? <==> exists k: nat :: IsMalformed(lines, k)
    ensures StatusFields(content).Err? ==> StatusFields(content).error == StatusFieldMalformed
    ensures StatusFields(content).Ok? ==>
              && Ascending(StatusFields(content).value)
              && forall value, n :: (value, n) in StatusFields(content).value <==>
                   1 <= n <= |lines| && LedByMetadata(lines, n - 1) && HasStatus(lines[n - 1], value)
  {
    hide StatusValue, HasStatus, OnlyMetadata, LedByMetadata, FoldLines, Split, AreLines;
    SplitExactly(content, lines);
    StatusFieldsLead(content);
    OnlyMalformed(START, Split(content));
    forall k: nat ensures MalformedAt(lines, k) <==> IsMalformed(lines, k) {
      if k < |lines| {
        MetadataAlike(lines, k);
        StatusLine(lines[k]);
        if STATUS_PREFIX <= lines[k] { PrefixIsNotBlank(lines[k]); }
      }
    }
    if StatusFields(content).Ok? {
      forall value, n: nat
        ensures (value, n) in StatusFields(content).value <==>
                  1 <= n <= |lines| && LedByMetadata(lines, n - 1) && HasStatus(lines[n - 1], value)
      {
        if 1 <= n <= |lines| {
          MetadataAlike(lines, n - 1);
          StatusValueExactly(lines[n - 1], value);
          StatusLine(lines[n - 1]);
          if STATUS_PREFIX <= lines[n - 1] { PrefixIsNotBlank(lines[n - 1]); }
        }
      }
    }
  }

  lemma {:induction false} OnlyMalformed(p: Progress, lines: seq<string>)
    ensures FoldLines(p, lines).Err? ==> FoldLines(p, lines).error == StatusFieldMalformed
    decreases |lines|
  {
    hide StatusValue, IsTitle, Blank;
    if lines != [] && p.active && ConsumeLine(p, lines[0]).Ok? {
      OnlyMalformed(ConsumeLine(p, lines[0]).value, lines[1..]);
    }
  }

  // ---------------------------------------------------------------- lines not yet read to their end

  /** What keeps the scan going or refuses the document. */
  predicate Decides(line: string, headed: bool) {
    Blank(line) || STATUS_PREFIX <= line || (!headed && IsTitle(line))
  }

  /** A heading can always be given a title. */
  lemma HeadingMayBeTitle(candidate: string)
    requires Heading(candidate)
    ensures IsTitle(candidate + " x")
  {
    hide Heading, TitleOf;
    HeadingExactly(candidate);
    var indent, rest :| HeadingParts(candidate, indent, rest);
    var line := candidate + " x";
    assert line == indent + "#" + (rest + " x");
    assert HeadingParts(line, indent, rest + " x");
    HeadingExactly(line);
    TrimSplits(rest + " x", IsBlank);
    var body := Trim(rest + " x", IsBlank);
    var before, after :| rest + " x" == before + body + after && All(before, IsBlank) && All(after, IsBlank);
    var text := before + body + after;
    assert text[|text| - 1] == 'x';
    var last := 'x';
    assert after != "" ==> last in after;
    assert after == "" && body == "" ==> last in before;
    assert body[|body| - 1] == 'x';
    TitleOfRest(line, indent, rest + " x");
    HashesOnly(body);
    TrimRightDrops(body, "", c => c == '#');
    assert body + "" == body;
  }

  /** A line is kept exactly as long as it may still become metadata or refuse the document. */
  lemma PossibleExactly(candidate: string, headed: bool)
    requires Unbroken(candidate)
    ensures Possible(candidate, headed) <==>
              exists line :: candidate <= line && Unbroken(line) && Decides(line, headed)
  {
    hide Heading, TitleOf;
    if Possible(candidate, headed) {
      if Blank(candidate) || STATUS_PREFIX <= candidate {
        assert Decides(candidate, headed);
      } else if candidate <= STATUS_PREFIX {
        assert Decides(STATUS_PREFIX, headed);
        assert Unbroken(STATUS_PREFIX);
      } else {
        HeadingMayBeTitle(candidate);
        var line := candidate + " x";
        assert candidate <= line && Unbroken(line) && Decides(line, headed);
      }
    }
    if line :| candidate <= line && Unbroken(line) && Decides(line, headed) {
      PossiblePrefix(candidate, line, headed);
    }
  }
}
