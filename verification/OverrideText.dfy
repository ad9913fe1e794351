/** Overrides as text: `Kind:name:version` (src/aep/execution_replay.py:22-34, 274-295,
    src/aep/evaluation_suites.py:453-454). */
module OverrideText {
  import opened Wrappers
  import opened Resources

  const OVERRIDE_KINDS: set<string> := {"Agent", "Prompt", "Model", "KnowledgeBase", "Evaluation", "Policy"}

  predicate IsDigit(c: char) { '0' <= c <= '9' }

  predicate IsNameChar(c: char) { 'a' <= c <= 'z' || IsDigit(c) }

  predicate IsTagChar(c: char) { IsDigit(c) || 'a' <= c <= 'z' || 'A' <= c <= 'Z' || c == '.' || c == '-' }

  /** Lower-case letters, digits and hyphens, a hyphen neither first nor last. */
  predicate IsName(text: string) {
    && text != "" && IsNameChar(text[0]) && IsNameChar(text[|text| - 1])
    && forall c | c in text :: IsNameChar(c) || c == '-'
  }

  function DigitsOf(text: string): nat {
    if text != "" && IsDigit(text[0]) then 1 + DigitsOf(text[1..]) else 0
  }

  function TagOf(text: string): nat {
    if text != "" && IsTagChar(text[0]) then 1 + TagOf(text[1..]) else 0
  }

  lemma {:induction false} RunsAreRuns(text: string)
    ensures DigitsOf(text) <= |text| && forall c | c in text[..DigitsOf(text)] :: IsDigit(c)
    ensures TagOf(text) <= |text| && forall c | c in text[..TagOf(text)] :: IsTagChar(c)
    decreases |text|
  {
    if text != "" {
      RunsAreRuns(text[1..]);
      if DigitsOf(text) > 0 { assert text[..DigitsOf(text)] == [text[0]] + text[1..][..DigitsOf(text[1..])]; }
      if TagOf(text) > 0 { assert text[..TagOf(text)] == [text[0]] + text[1..][..TagOf(text[1..])]; }
    }
  }

  /** What follows a leading number without superfluous zeros. */
  function AfterNumber(text: string): Option<string> {
    RunsAreRuns(text);
    var n := DigitsOf(text);
    if n == 0 || (n > 1 && text[0] == '0') then None else Some(text[n..])
  }

  function AfterDot(text: Option<string>): Option<string> {
    if text.Some? && text.value != "" && text.value[0] == '.' then Some(text.value[1..]) else None
  }

  /** Nothing, a pre-release tag, a build tag, or both. */
  predicate AreTags(text: string) {
    RunsAreRuns(if text == "" then "" else text[1..]);
    if text == "" then true
    else
      var n := TagOf(text[1..]);
      n > 0 && (text[0] == '-' || text[0] == '+')
      && (n + 1 == |text| || (text[0] == '-' && text[n + 1] == '+' && IsTag(text[n + 2..])))
  }

  predicate IsTag(text: string) { text != "" && forall c | c in text :: IsTagChar(c) }

  /** A semantic version, possibly with a leading `v`. */
  predicate IsVersion(text: string) {
    var numbers := if text != "" && text[0] == 'v' then text[1..] else text;
    var major := AfterDot(AfterNumber(numbers));
    major.Some? &&
    var minor := AfterDot(AfterNumber(major.value));
    minor.Some? &&
    var patch := AfterNumber(minor.value);
    patch.Some? && AreTags(patch.value)
  }

  /** A reference that replay accepts as an override. */
  predicate IsOverride(ref: Ref) {
    ref.kind in OVERRIDE_KINDS && IsName(ref.name) && IsVersion(ref.version)
  }

  function Print(ref: Ref): string {
    ref.kind + ":" + ref.name + ":" + ref.version
  }

  /** `text.split(":")`. */
  function Parts(text: string): seq<string> {
    if text == "" then [""]
    else if text[0] == ':' then [""] + Parts(text[1..])
    else
      var rest := Parts(text[1..]);
      if rest == [] then [[text[0]]] else [[text[0]] + rest[0]] + rest[1..]
  }

  datatype Error = NotThreeParts | NotSupported

  /** `_parse_override`. */
  function Parse(text: string): Result<Ref, Error> {
    var parts := Parts(text);
    if |parts| != 3 then Err(NotThreeParts)
    else
      var ref := Ref(parts[0], parts[1], parts[2]);
      if IsOverride(ref) then Ok(ref) else Err(NotSupported)
  }

  // ---------------------------------------------------------------- what a version is

  predicate AreDigits(text: string) { text != "" && forall c | c in text :: IsDigit(c) }

  /** A number without superfluous zeros. */
  predicate IsNumber(text: string) {
    AreDigits(text) && (text[0] == '0' ==> |text| == 1)
  }

  /** The parts of a version: three numbers, and a pre-release and a build tag that may be missing. */
  predicate VersionParts(text: string, lead: string, major: string, minor: string, patch: string, pre: string,
                         build: string)
  {
    && text == lead + major + "." + minor + "." + patch + pre + build
    && (lead == "" || lead == "v") && IsNumber(major) && IsNumber(minor) && IsNumber(patch)
    && IsMarked(pre, '-') && IsMarked(build, '+')
  }

  ghost predicate HasVersion(text: string) {
    exists lead, major, minor, patch, pre, build :: VersionParts(text, lead, major, minor, patch, pre, build)
  }

  lemma {:induction false} RunsGoOn(run: string, rest: string)
    ensures (forall c | c in run :: IsDigit(c)) && (rest == "" || !IsDigit(rest[0])) ==> DigitsOf(run + rest) == |run|
    ensures (forall c | c in run :: IsTagChar(c)) && (rest == "" || !IsTagChar(rest[0])) ==> TagOf(run + rest) == |run|
    decreases |run|
  {
    if run == "" {
      assert run + rest == rest;
    } else {
      assert (run + rest)[1..] == run[1..] + rest && run[0] in run;
      RunsGoOn(run[1..], rest);
    }
  }

  /** What follows the number at the front, which ends where the digits do. */
  lemma AfterNumberExactly(text: string, rest: string)
    ensures AfterNumber(text) == Some(rest) <==>
              exists number :: IsNumber(number) && text == number + rest && (rest == "" || !IsDigit(rest[0]))
  {
    RunsAreRuns(text);
    if AfterNumber(text) == Some(rest) {
      var n := DigitsOf(text);
      DigitsEnd(text);
      assert text == text[..n] + rest && IsNumber(text[..n]);
    }
    if number :| IsNumber(number) && text == number + rest && (rest == "" || !IsDigit(rest[0])) {
      RunsGoOn(number, rest);
      assert text[|number|..] == rest && text[0] == number[0];
    }
  }

  lemma {:induction false} DigitsEnd(text: string)
    ensures DigitsOf(text) <= |text|
    ensures DigitsOf(text) < |text| ==> !IsDigit(text[DigitsOf(text)])
    decreases |text|
  {
    if text != "" { DigitsEnd(text[1..]); }
  }

  lemma {:induction false} TagEnds(text: string)
    ensures TagOf(text) <= |text|
    ensures TagOf(text) < |text| ==> !IsTagChar(text[TagOf(text)])
    decreases |text|
  {
    if text != "" { TagEnds(text[1..]); }
  }

  /** A tag behind its mark, if there is one. */
  predicate IsMarked(text: string, mark: char) {
    text == "" || (text[0] == mark && IsTag(text[1..]))
  }

  lemma TagsExactly(text: string)
    ensures AreTags(text) <==> exists pre, build :: text == pre + build && IsMarked(pre, '-') && IsMarked(build, '+')
  {
    if AreTags(text) { var pre, build := TagsFound(text); }
    if pre, build :| text == pre + build && IsMarked(pre, '-') && IsMarked(build, '+') {
      TagsAreFound(pre, build);
    }
    hide AreTags, IsMarked;
  }

  lemma TagsFound(text: string) returns (pre: string, build: string)
    requires AreTags(text)
    ensures text == pre + build && IsMarked(pre, '-') && IsMarked(build, '+')
  {
    if text == "" { return "", ""; }
    RunsAreRuns(text[1..]);
    var n := TagOf(text[1..]);
    assert IsTag(text[1..][..n]);
    if n + 1 == |text| {
      assert text[1..][..n] == text[1..];
      pre, build := if text[0] == '-' then text else "", if text[0] == '-' then "" else text;
    } else {
      pre, build := text[..n + 1], text[n + 1..];
      assert pre[1..] == text[1..][..n] && build[1..] == text[n + 2..];
    }
  }

  lemma TagsAreFound(pre: string, build: string)
    requires IsMarked(pre, '-') && IsMarked(build, '+')
    ensures AreTags(pre + build)
  {
    var text := pre + build;
    if pre == "" {
      assert text == build;
      if build != "" { WholeTag(build[1..]); }
    } else {
      assert text[1..] == pre[1..] + build;
      RunsGoOn(pre[1..], build);
      if build != "" { assert text[|pre|] == build[0] && text[|pre| + 1..] == build[1..]; }
    }
  }

  lemma WholeTag(text: string)
    requires IsTag(text)
    ensures TagOf(text) == |text|
  {
    RunsGoOn(text, "");
    assert text + "" == text;
  }

  /** The versions accepted are those that can be put together from such parts. */
  lemma VersionExactly(text: string)
    ensures IsVersion(text) <==> HasVersion(text)
  {
    if IsVersion(text) { VersionHasParts(text); }
    if lead, major, minor, patch, pre, build :| VersionParts(text, lead, major, minor, patch, pre, build) {
      PartsMakeVersion(text, lead, major, minor, patch, pre, build);
    }
  }

  lemma DotFound(text: string) returns (number: string, rest: string)
    requires AfterDot(AfterNumber(text)).Some?
    ensures IsNumber(number) && rest == AfterDot(AfterNumber(text)).value && text == number + "." + rest
  {
    var dotted := AfterNumber(text).value;
    AfterNumberExactly(text, dotted);
    number :| IsNumber(number) && text == number + dotted;
    rest := dotted[1..];
    assert dotted == "." + rest;
  }

  lemma DotIsFound(number: string, rest: string)
    requires IsNumber(number)
    ensures AfterDot(AfterNumber(number + "." + rest)) == Some(rest)
  {
    hide AfterNumber;
    assert number + "." + rest == number + ("." + rest);
    AfterNumberExactly(number + "." + rest, "." + rest);
    assert ("." + rest)[1..] == rest;
  }

  lemma Regrouped(lead: string, major: string, minor: string, patch: string, pre: string, build: string)
    ensures lead + major + "." + minor + "." + patch + pre + build
         == lead + (major + "." + (minor + "." + (patch + (pre + build))))
  {
  }

  lemma VersionHasParts(text: string)
    requires IsVersion(text)
    ensures HasVersion(text)
  {
    hide AfterNumber, AfterDot, AreTags, IsNumber, IsMarked, HasVersion;
    var lead := if text != "" && text[0] == 'v' then "v" else "";
    var numbers := if text != "" && text[0] == 'v' then text[1..] else text;
    assert text == lead + numbers;
    var major, second := DotFound(numbers);
    var minor, third := DotFound(second);
    var tags := AfterNumber(third).value;
    AfterNumberExactly(third, tags);
    var patch :| IsNumber(patch) && third == patch + tags;
    TagsExactly(tags);
    var pre, build :| tags == pre + build && IsMarked(pre, '-') && IsMarked(build, '+');
    hide IsVersion;
    Regrouped(lead, major, minor, patch, pre, build);
    assert VersionParts(text, lead, major, minor, patch, pre, build);
    PartsAreVersion(text, lead, major, minor, patch, pre, build);
  }

  lemma PartsAreVersion(text: string, lead: string, major: string, minor: string, patch: string, pre: string,
                        build: string)
    requires VersionParts(text, lead, major, minor, patch, pre, build)
    ensures HasVersion(text)
  {
    hide VersionParts;
  }

  lemma Unled(lead: string, numbers: string)
    requires lead == "" || lead == "v"
    requires numbers != "" && IsDigit(numbers[0])
    ensures
      var text := lead + numbers;
      numbers == if text != "" && text[0] == 'v' then text[1..] else text
  {
    if lead == "" { assert lead + numbers == numbers; }
  }

  lemma PartsMakeVersion(text: string, lead: string, major: string, minor: string, patch: string, pre: string,
                         build: string)
    requires VersionParts(text, lead, major, minor, patch, pre, build)
    ensures IsVersion(text)
  {
    var tags := pre + build;
    var third := patch + tags;
    var second := minor + "." + third;
    var numbers := major + "." + second;
    Regrouped(lead, major, minor, patch, pre, build);
    assert major[0] in major && numbers[0] == major[0];
    Unled(lead, numbers);
    DotIsFound(major, second);
    DotIsFound(minor, third);
    AfterNumberExactly(third, tags);
    TagsExactly(tags);
    hide AfterNumber, AfterDot, AreTags, IsNumber, IsMarked;
  }

  // ---------------------------------------------------------------- round trip

  lemma NumberHasNoColon(text: string)
    ensures AfterNumber(text).Some? && ':' !in AfterNumber(text).value ==> ':' !in text
  {
    RunsAreRuns(text);
    if AfterNumber(text).Some? { assert text == text[..DigitsOf(text)] + AfterNumber(text).value; }
  }

  lemma DotHasNoColon(text: Option<string>)
    ensures AfterDot(text).Some? && ':' !in AfterDot(text).value ==> text.Some? && ':' !in text.value
  {
    if AfterDot(text).Some? { assert text.value == "." + AfterDot(text).value; }
  }

  lemma TagsHaveNoColon(text: string)
    requires AreTags(text)
    ensures ':' !in text
  {
    if text != "" {
      RunsAreRuns(text[1..]);
      var n := TagOf(text[1..]);
      if n + 1 == |text| {
        assert text == [text[0]] + text[1..][..n];
      } else {
        assert text == [text[0]] + text[1..][..n] + [text[n + 1]] + text[n + 2..];
      }
    }
  }

  lemma VersionHasNoColon(text: string)
    requires IsVersion(text)
    ensures ':' !in text
  {
    hide AfterNumber, AfterDot, AreTags;
    var numbers := if text != "" && text[0] == 'v' then text[1..] else text;
    var major := AfterDot(AfterNumber(numbers));
    var minor := AfterDot(AfterNumber(major.value));
    var patch := AfterNumber(minor.value);
    TagsHaveNoColon(patch.value);
    NumberHasNoColon(minor.value);
    DotHasNoColon(AfterNumber(major.value));
    NumberHasNoColon(major.value);
    DotHasNoColon(AfterNumber(numbers));
    NumberHasNoColon(numbers);
    assert text == numbers || text == "v" + numbers;
  }

  lemma OverrideHasNoColon(ref: Ref)
    requires IsOverride(ref)
    ensures ':' !in ref.kind && ':' !in ref.name && ':' !in ref.version
  {
    hide IsVersion;
    VersionHasNoColon(ref.version);
    hide IsOverride;
  }

  lemma {:induction false} PartsOf(first: string, rest: string)
    requires ':' !in first
    ensures Parts(first + ":" + rest) == [first] + Parts(rest)
    decreases |first|
  {
    if first == "" {
      assert "" + ":" + rest == ":" + rest && (":" + rest)[1..] == rest;
    } else {
      var text := first + ":" + rest;
      assert first[0] in first && text[1..] == first[1..] + ":" + rest && first == [text[0]] + first[1..];
      PartsOf(first[1..], rest);
      assert ([first[1..]] + Parts(rest))[1..] == Parts(rest);
    }
  }

  lemma {:induction false} OnePart(text: string)
    requires ':' !in text
    ensures Parts(text) == [text]
    decreases |text|
  {
    if text != "" {
      assert text[0] in text && text == [text[0]] + text[1..];
      OnePart(text[1..]);
    }
  }

  /** Joined again, the parts are the text. */
  lemma {:induction false} PartsJoin(text: string)
    ensures Parts(text) != []
    ensures |Parts(text)| == 1 ==> Parts(text)[0] == text
    ensures |Parts(text)| == 2 ==> text == Parts(text)[0] + ":" + Parts(text)[1]
    ensures |Parts(text)| == 3 ==> text == Parts(text)[0] + ":" + Parts(text)[1] + ":" + Parts(text)[2]
    decreases |text|
  {
    if text != "" {
      PartsJoin(text[1..]);
      assert text == [text[0]] + text[1..];
    }
  }

  /** Printing and parsing are inverse to each other: a printed override is read back, and an
      accepted text is the one its override prints. */
  lemma OverridesRoundTrip(ref: Ref, text: string)
    requires IsOverride(ref)
    ensures Parse(Print(ref)) == Ok(ref)
    ensures Parse(text).Ok? ==> Print(Parse(text).value) == text
  {
    hide IsOverride;
    OverrideHasNoColon(ref);
    assert Print(ref) == ref.kind + ":" + (ref.name + ":" + ref.version);
    PartsOf(ref.kind, ref.name + ":" + ref.version);
    PartsOf(ref.name, ref.version);
    OnePart(ref.version);
    PartsJoin(text);
  }
}
