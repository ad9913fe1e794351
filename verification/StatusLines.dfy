/** The leading Status field of a document, defined on the whole text: split it on CR, LF and CRLF
    and fold the line rule until the first line that is not metadata
    (src/aep/planning_evidence.py:37-97, src/aep/dogfood_runtime.py:1186-1237). */
module StatusLines {
  import opened Wrappers
  import opened Utf8

  datatype Error = StatusFieldMalformed | StatusFieldScanLimitExceeded

  const STATUS_PREFIX := "**Status:**"

  predicate IsBreak(c: char) { c == '\r' || c == '\n' }

  predicate IsBlank(c: char) { c == ' ' || c == '\t' }

  /** `\s` on Python strings. */
  predicate IsSpace(c: char) {
    var n := c as int;
    || 9 <= n <= 13 || 28 <= n <= 32 || n == 0x85 || n == 0xa0 || n == 0x1680 || 0x2000 <= n <= 0x200a
    || n == 0x2028 || n == 0x2029 || n == 0x202f || n == 0x205f || n == 0x3000
  }

  predicate Blank(text: string) { forall c | c in text :: IsBlank(c) }

  predicate Unbroken(text: string) { forall c | c in text :: !IsBreak(c) }

  function TrimLeft(text: string, dropped: char -> bool): string {
    if text != "" && dropped(text[0]) then TrimLeft(text[1..], dropped) else text
  }

  function TrimRight(text: string, dropped: char -> bool): string {
    if text != "" && dropped(text[|text| - 1]) then TrimRight(text[..|text| - 1], dropped) else text
  }

  function Trim(text: string, dropped: char -> bool): string {
    TrimRight(TrimLeft(text, dropped), dropped)
  }

  /** The value of a well-formed Status line: what follows the prefix, without outer whitespace. */
  function StatusValue(text: string): Option<string> {
    if STATUS_PREFIX <= text && Trim(text[|STATUS_PREFIX|..], IsSpace) != "" then
      Some(Trim(text[|STATUS_PREFIX|..], IsSpace))
    else None
  }

  /** At most three spaces, a `#`, and then a blank or the end. */
  predicate Heading(text: string) {
    exists n | 0 <= n <= 3 ::
      && n < |text| && text[n] == '#'
      && (forall i | 0 <= i < n :: text[i] == ' ')
      && (n + 1 == |text| || IsBlank(text[n + 1]))
  }

  /** The heading's text, without a closing run of `#`. */
  function TitleOf(text: string): string
    requires Heading(text)
  {
    var rest := TrimLeft(text, c => c == ' ');
    var title := Trim(if rest == "" then "" else rest[1..], IsBlank);
    var open := TrimRight(title, c => c == '#');
    if open == "" then ""
    else if open != title && IsBlank(open[|open| - 1]) then TrimRight(open, IsBlank)
    else title
  }

  predicate IsTitle(text: string) { Heading(text) && TitleOf(text) != "" }

  // ---------------------------------------------------------------- the line rule

  /** What the lines so far have established; `line` is the number of the next line. */
  datatype Progress = Progress(active: bool, line: nat, titleSeen: bool, statusSeen: bool, fields: seq<(string, nat)>)

  const START := Progress(true, 1, false, false, [])

  function ConsumeLine(p: Progress, text: string): Result<Progress, Error> {
    if Blank(text) then Ok(p.(line := p.line + 1))
    else if StatusValue(text).Some? then
      Ok(p.(fields := p.fields + [(StatusValue(text).value, p.line)], statusSeen := true, line := p.line + 1))
    else if STATUS_PREFIX <= text then Err(StatusFieldMalformed)
    else if !p.titleSeen && !p.statusSeen && IsTitle(text) then Ok(p.(titleSeen := true, line := p.line + 1))
    else Ok(p.(active := false, line := p.line + 1))
  }

  function FoldLines(p: Progress, lines: seq<string>): Result<seq<(string, nat)>, Error>
    decreases |lines|
  {
    if lines == [] || !p.active then Ok(p.fields)
    else
      match ConsumeLine(p, lines[0])
      case Err(e) => Err(e)
      case Ok(next) => FoldLines(next, lines[1..])
  }

  /** The text up to its first line break. */
  function FirstLine(text: string): string {
    if text == "" || IsBreak(text[0]) then "" else [text[0]] + FirstLine(text[1..])
  }

  /** What follows a line break: a LF right behind a CR belongs to it. */
  function AfterBreak(delimiter: char, rest: string): string {
    if delimiter == '\r' && rest != "" && rest[0] == '\n' then rest[1..] else rest
  }

  lemma FirstLineEnds(text: string)
    ensures FirstLine(text) <= text && Unbroken(FirstLine(text))
    ensures |FirstLine(text)| < |text| ==> IsBreak(text[|FirstLine(text)|])
  {
    if text != "" && !IsBreak(text[0]) { FirstLineEnds(text[1..]); }
  }

  function Split(text: string): seq<string>
    decreases |text|
  {
    FirstLineEnds(text);
    var first := FirstLine(text);
    if |first| == |text| then [first]
    else [first] + Split(AfterBreak(text[|first|], text[|first| + 1..]))
  }

  /** The Status fields of a whole document, and their line numbers. */
  function StatusFields(content: string): Result<seq<(string, nat)>, Error> {
    FoldLines(START, Split(content))
  }

  /** Every line before `k` is blank, a Status line, or a title with nothing but blank lines before. */
  ghost predicate OnlyMetadata(lines: seq<string>, k: nat)
    requires k <= |lines|
  {
    forall j | 0 <= j < k ::
      || Blank(lines[j]) || StatusValue(lines[j]).Some?
      || (IsTitle(lines[j]) && !(STATUS_PREFIX <= lines[j]) && AllBlank(lines, j))
  }

  predicate AllBlank(lines: seq<string>, k: nat)
    requires k <= |lines|
  {
    forall j | 0 <= j < k :: Blank(lines[j])
  }

  /** `fields` are the Status lines among the first `k` that only metadata precedes, in their order. */
  ghost predicate LeadingFields(lines: seq<string>, k: nat, fields: seq<(string, nat)>)
    requires k <= |lines|
  {
    && (forall value, n ::
          (value, n) in fields <==>
            1 <= n <= k && OnlyMetadata(lines, n - 1) && !Blank(lines[n - 1]) && StatusValue(lines[n - 1]) == Some(value))
    && Ascending(fields)
  }

  predicate Ascending(fields: seq<(string, nat)>) {
    forall i, j | 0 <= i < j < |fields| :: fields[i].1 < fields[j].1
  }

  /** A malformed Status line that only metadata precedes. */
  ghost predicate MalformedAt(lines: seq<string>, k: nat) {
    && k < |lines| && OnlyMetadata(lines, k)
    && !Blank(lines[k]) && STATUS_PREFIX <= lines[k] && StatusValue(lines[k]).None?
  }

  lemma NoMoreFields(lines: seq<string>, k: nat, fields: seq<(string, nat)>)
    requires k < |lines| && LeadingFields(lines, k, fields)
    requires Blank(lines[k]) || StatusValue(lines[k]).None?
    ensures LeadingFields(lines, k + 1, fields)
  {
    hide Blank, StatusValue, OnlyMetadata;
  }

  lemma OneMoreField(lines: seq<string>, k: nat, fields: seq<(string, nat)>)
    requires k < |lines| && LeadingFields(lines, k, fields) && OnlyMetadata(lines, k)
    requires !Blank(lines[k]) && StatusValue(lines[k]).Some?
    ensures LeadingFields(lines, k + 1, fields + [(StatusValue(lines[k]).value, k + 1)])
  {
    hide Blank, StatusValue, OnlyMetadata;
    forall i | 0 <= i < |fields| ensures fields[i].1 <= k {
      assert (fields[i].0, fields[i].1) in fields;
    }
  }

  lemma StoppedFields(lines: seq<string>, k: nat, fields: seq<(string, nat)>)
    requires k < |lines| && LeadingFields(lines, k + 1, fields) && !OnlyMetadata(lines, k + 1)
    ensures LeadingFields(lines, |lines|, fields)
  {
    hide Blank, StatusValue, IsTitle;
    forall m: nat | k < m <= |lines| ensures !OnlyMetadata(lines, m) {}
  }

  /** The fold from line `k` on, when only metadata precedes it. */
  lemma {:induction false} FoldFindsLeadingFields(lines: seq<string>, k: nat, p: Progress)
    requires k <= |lines| && OnlyMetadata(lines, k) && LeadingFields(lines, k, p.fields)
    requires p.active && p.line == k + 1 && (p.titleSeen || p.statusSeen <==> !AllBlank(lines, k))
    ensures FoldLines(p, lines[k..]).Ok? ==> LeadingFields(lines, |lines|, FoldLines(p, lines[k..]).value)
    ensures FoldLines(p, lines[k..]).Err? ==> exists j: nat :: MalformedAt(lines, j)
    ensures forall j: nat | k <= j && MalformedAt(lines, j) :: FoldLines(p, lines[k..]).Err?
    decreases |lines| - k
  {
    hide Blank, StatusValue, IsTitle;
    if k < |lines| {
      assert lines[k..][0] == lines[k] && lines[k..][1..] == lines[k + 1..];
      match ConsumeLine(p, lines[k]) {
        case Err(_) => assert MalformedAt(lines, k);
        case Ok(next) =>
          assert FoldLines(p, lines[k..]) == FoldLines(next, lines[k + 1..]);
          if !Blank(lines[k]) && StatusValue(lines[k]).Some? {
            OneMoreField(lines, k, p.fields);
          } else {
            NoMoreFields(lines, k, p.fields);
          }
          assert !MalformedAt(lines, k);
          if next.active {
            FoldFindsLeadingFields(lines, k + 1, next);
          } else {
            assert !OnlyMetadata(lines, k + 1);
            StoppedFields(lines, k, p.fields);
            forall j: nat | k < j < |lines| ensures !MalformedAt(lines, j) {}
          }
      }
    }
  }

  /** The fold over the whole document; StatusText says what its lines, values and titles are. */
  lemma StatusFieldsLead(content: string)
    ensures StatusFields(content).Ok? ==> LeadingFields(Split(content), |Split(content)|, StatusFields(content).value)
    ensures StatusFields(content).Err? ==> exists k: nat :: MalformedAt(Split(content), k)
    ensures forall k: nat | MalformedAt(Split(content), k) :: StatusFields(content).Err?
  {
    var lines := Split(content);
    assert lines[0..] == lines;
    FoldFindsLeadingFields(lines, 0, START);
  }

  // ---------------------------------------------------------------- sizes

  /** Some line of the text takes more than `limit` bytes. */
  predicate HasLongLine(text: string, limit: nat) {
    exists line | line in Split(text) :: Utf8Length(line) > limit
  }

  // ---------------------------------------------------------------- splitting

  lemma {:induction false} FirstLineOf(line: string, rest: string)
    requires Unbroken(line)
    ensures FirstLine(line + rest) == line + FirstLine(rest)
    decreases |line|
  {
    if line == "" {
      assert line + rest == rest;
    } else {
      assert (line + rest)[1..] == line[1..] + rest;
      FirstLineOf(line[1..], rest);
    }
  }

  /** A line, its break and the rest. */
  lemma SplitAt(line: string, delimiter: char, rest: string)
    requires Unbroken(line) && IsBreak(delimiter)
    ensures Split(line + [delimiter] + rest) == [line] + Split(AfterBreak(delimiter, rest))
  {
    var text := line + [delimiter] + rest;
    assert text == line + ([delimiter] + rest);
    FirstLineOf(line, [delimiter] + rest);
    assert FirstLine(text) == line;
    assert text[|line|] == delimiter && text[|line| + 1..] == rest;
  }

  lemma SplitLine(line: string)
    requires Unbroken(line)
    ensures Split(line) == [line]
  {
    FirstLineOf(line, "");
    assert line + "" == line;
    assert FirstLine(line) == line;
  }

  // ---------------------------------------------------------------- prefixes of metadata lines

  /** A line may still become metadata, or raise, after this much of it. */
  predicate Possible(candidate: string, headed: bool) {
    || Blank(candidate)
    || STATUS_PREFIX <= candidate
    || candidate <= STATUS_PREFIX
    || (!headed && Heading(candidate))
  }

  lemma HeadingPrefix(candidate: string, text: string)
    requires candidate <= text && Heading(text) && !Blank(candidate)
    ensures Heading(candidate)
  {
    var n :| 0 <= n <= 3 && n < |text| && text[n] == '#' && (forall i | 0 <= i < n :: text[i] == ' ')
             && (n + 1 == |text| || IsBlank(text[n + 1]));
    var c :| c in candidate && !IsBlank(c);
    var i :| 0 <= i < |candidate| && candidate[i] == c;
    assert text[i] == c && n <= i;
    assert candidate[n] == '#';
  }

  /** Once a line cannot be metadata, whatever follows on it ends the scan and adds nothing. */
  lemma ImpossibleLineEnds(p: Progress, candidate: string, text: string)
    requires candidate <= text && !Possible(candidate, p.titleSeen || p.statusSeen)
    ensures ConsumeLine(p, text) == Ok(p.(active := false, line := p.line + 1))
  {
    hide Heading;
    assert !Blank(text) by {
      var c :| c in candidate && !IsBlank(c);
      assert c in text;
    }
    assert !(STATUS_PREFIX <= text);
    if Heading(text) { HeadingPrefix(candidate, text); }
  }

  lemma PossiblePrefix(candidate: string, text: string, headed: bool)
    requires candidate <= text
    ensures Possible(text, headed) ==> Possible(candidate, headed)
  {
    hide Heading;
    if Blank(text) {
      assert forall i | 0 <= i < |candidate| :: candidate[i] == text[i] && text[i] in text;
    } else if !Blank(candidate) && !headed && Heading(text) {
      HeadingPrefix(candidate, text);
    }
  }

  /** The scan gets to a line that may be metadata as a whole and is longer than the limit. */
  predicate ReachesLongLine(p: Progress, lines: seq<string>, limit: nat)
    decreases |lines|
  {
    && p.active && lines != []
    && ((Possible(lines[0], p.titleSeen || p.statusSeen) && Utf8Length(lines[0]) > limit)
        || (ConsumeLine(p, lines[0]).Ok? && ReachesLongLine(ConsumeLine(p, lines[0]).value, lines[1..], limit)))
  }
}
