/** The canonical JSON text of the parts of a slice, and the sizes the token counts are made from
    (src/aep/context_builder.py:1370-1384, 1588-1594, 1686-1693; RFC 8259, section 7). */
module CanonicalJson {
  import opened Wrappers
  import opened Resources
  import opened Sums
  import opened Utf8
  import opened ContextElements

  // ---------------------------------------------------------------- strings

  const DIGITS := "0123456789abcdef"

  /** One character inside a string, as `json.dumps` without ASCII escapes writes it. */
  function Escaped(c: char): string {
    var n := c as int;
    if c == '\"' then "\\\""
    else if c == '\\' then "\\\\"
    else if n == 8 then "\\b"
    else if c == '\t' then "\\t"
    else if c == '\n' then "\\n"
    else if n == 12 then "\\f"
    else if c == '\r' then "\\r"
    else if n < 0x20 then "\\u00" + [DIGITS[n / 16], DIGITS[n % 16]]
    else [c]
  }

  function EscapedText(text: string): string {
    if text == "" then "" else Escaped(text[0]) + EscapedText(text[1..])
  }

  function Quoted(text: string): string { "\"" + EscapedText(text) + "\"" }

  /** The value of a hexadecimal digit. */
  function DigitValue(c: char): Option<nat> {
    if '0' <= c <= '9' then Some(c as int - '0' as int)
    else if 'a' <= c <= 'f' then Some(c as int - 'a' as int + 10)
    else None
  }

  /** The character an escape of one letter stands for. */
  function Unescaped(letter: char): Option<char> {
    if letter == '\"' || letter == '\\' then Some(letter)
    else if letter == 'b' then Some(8 as char)
    else if letter == 't' then Some('\t')
    else if letter == 'n' then Some('\n')
    else if letter == 'f' then Some(12 as char)
    else if letter == 'r' then Some('\r')
    else None
  }

  /** Reads the contents of a string; no character below U+0020 and no quote stands for itself. */
  function Read(text: string): Option<string>
    decreases |text|
  {
    if text == "" then Some("")
    else if text[0] != '\\' then
      if text[0] as int < 0x20 || text[0] == '\"' || Read(text[1..]).None? then None
      else Some([text[0]] + Read(text[1..]).value)
    else if |text| < 2 then None
    else if Unescaped(text[1]).Some? then
      if Read(text[2..]).None? then None else Some([Unescaped(text[1]).value] + Read(text[2..]).value)
    else if |text| < 6 || text[1..4] != "u00" || DigitValue(text[4]).None? || DigitValue(text[5]).None?
            || Read(text[6..]).None? then None
    else Some([(16 * DigitValue(text[4]).value + DigitValue(text[5]).value) as char] + Read(text[6..]).value)
  }

  lemma DigitsAreRead(n: nat)
    requires n < 16
    ensures DigitValue(DIGITS[n]) == Some(n)
  {
  }

  lemma PlainIsRead(c: char, rest: string)
    requires c != '\\' && c != '\"' && c as int >= 0x20 && Read(rest).Some?
    ensures Read([c] + rest) == Some([c] + Read(rest).value)
  {
    assert ([c] + rest)[1..] == rest;
  }

  lemma LetterIsRead(letter: char, rest: string)
    requires Unescaped(letter).Some? && Read(rest).Some?
    ensures Read("\\" + [letter] + rest) == Some([Unescaped(letter).value] + Read(rest).value)
  {
    assert ("\\" + [letter] + rest)[2..] == rest;
  }

  lemma NumberIsRead(n: nat, rest: string)
    requires n < 0x20 && Read(rest).Some?
    ensures Read("\\u00" + [DIGITS[n / 16], DIGITS[n % 16]] + rest) == Some([n as char] + Read(rest).value)
  {
    DigitsAreRead(n / 16);
    DigitsAreRead(n % 16);
    hide DIGITS;
    var text := "\\u00" + [DIGITS[n / 16], DIGITS[n % 16]] + rest;
    assert text[6..] == rest && text[1..4] == "u00";
  }

  lemma EscapedIsRead(c: char, rest: string)
    requires Read(rest).Some?
    ensures Read(Escaped(c) + rest) == Some([c] + Read(rest).value)
  {
    if c == '\"' || c == '\\' || (8 <= c as int <= 13 && c as int != 11) {
      var letter := EscapeLetter(c);
      LetterIsRead(letter, rest);
    } else if c as int < 0x20 {
      NumberIsRead(c as int, rest);
      hide DIGITS;
    } else {
      PlainIsRead(c, rest);
    }
    hide Read;
  }

  lemma EscapeLetter(c: char) returns (letter: char)
    requires c == '\"' || c == '\\' || (8 <= c as int <= 13 && c as int != 11)
    ensures Escaped(c) == "\\" + [letter] && Unescaped(letter) == Some(c)
  {
    letter := Escaped(c)[1];
  }

  /** Every text is read back from its JSON string. */
  lemma {:induction false} QuotedIsRead(text: string)
    ensures Read(EscapedText(text)) == Some(text)
    decreases |text|
  {
    if text != "" {
      QuotedIsRead(text[1..]);
      EscapedIsRead(text[0], EscapedText(text[1..]));
      assert text == [text[0]] + text[1..];
    }
  }

  lemma {:induction false} NarrowBytes(text: string)
    requires forall c | c in text :: c as int < 0x80
    ensures Utf8Length(text) == |text|
    decreases |text|
  {
    if text != "" {
      var n := |text| - 1;
      assert text[n] in text && forall c | c in text[..n] :: c in text;
      NarrowBytes(text[..n]);
    }
  }

  lemma OneBytes(c: char)
    ensures Utf8Length([c]) == Utf8Width(c)
  {
    assert [c][..0] == "";
    assert Utf8Length([c]) == Utf8Length("") + Utf8Width(c);
  }

  lemma EscapedBytes(c: char)
    ensures Utf8Length(Escaped(c)) == CharBytes(c)
  {
    if c == '\"' || c == '\\' || (8 <= c as int <= 13 && c as int != 11) {
      var letter := EscapeLetter(c);
      NarrowBytes(Escaped(c));
    } else if c as int < 0x20 {
      DigitsAreRead(c as int / 16);
      DigitsAreRead(c as int % 16);
      hide DIGITS;
      NarrowBytes(Escaped(c));
    } else {
      OneBytes(c);
    }
    hide Utf8Length;
  }

  lemma {:induction false} EscapedTextBytes(text: string)
    ensures Utf8Length(EscapedText(text)) + 2 == TextBytes(text)
    decreases |text|
  {
    if text != "" {
      EscapedBytes(text[0]);
      EscapedTextBytes(text[1..]);
      Utf8LengthAdds(Escaped(text[0]), EscapedText(text[1..]));
    }
  }

  /** The bytes counted for a text are those of its JSON string. */
  lemma TextBytesExactly(text: string)
    ensures Utf8Length(Quoted(text)) == TextBytes(text)
  {
    EscapedTextBytes(text);
    NarrowBytes("\"");
    Utf8LengthAdds("\"", EscapedText(text));
    Utf8LengthAdds("\"" + EscapedText(text), "\"");
  }

  // ---------------------------------------------------------------- lists and references

  function Joined(texts: seq<string>): string {
    if texts == [] then "" else if |texts| == 1 then texts[0] else texts[0] + "," + Joined(texts[1..])
  }

  function ListText(texts: seq<string>): string { "[" + Joined(texts) + "]" }

  function PathText(path: Path): string { ListText(seq(|path|, i requires 0 <= i < |path| => Quoted(path[i]))) }

  function RefText(ref: Ref): string {
    "{\"kind\":" + Quoted(ref.kind) + ",\"name\":" + Quoted(ref.name) + ",\"version\":" + Quoted(ref.version) + "}"
  }

  function SumBytes(texts: seq<string>): nat {
    if texts == [] then 0 else Utf8Length(texts[0]) + SumBytes(texts[1..])
  }

  lemma {:induction false} JoinedBytes(texts: seq<string>)
    ensures Utf8Length(Joined(texts)) == SumBytes(texts) + if texts == [] then 0 else |texts| - 1
    decreases |texts|
  {
    if |texts| == 1 {
      assert texts[1..] == [];
    } else if |texts| > 1 {
      JoinedBytes(texts[1..]);
      NarrowBytes(",");
      Utf8LengthAdds(texts[0], ",");
      Utf8LengthAdds(texts[0] + ",", Joined(texts[1..]));
    }
  }

  lemma ListTextBytes(texts: seq<string>)
    ensures Utf8Length(ListText(texts)) == 2 + SumBytes(texts) + if texts == [] then 0 else |texts| - 1
  {
    JoinedBytes(texts);
    NarrowBytes("[");
    NarrowBytes("]");
    Utf8LengthAdds("[", Joined(texts));
    Utf8LengthAdds("[" + Joined(texts), "]");
  }

  lemma {:induction false} PathSum(path: Path, texts: seq<string>)
    requires |texts| == |path| && forall i | 0 <= i < |path| :: texts[i] == Quoted(path[i])
    ensures PathBytes(path) == 2 + SumBytes(texts) + if path == [] then 0 else |path| - 1
    decreases |path|
  {
    if path != [] {
      TextBytesExactly(path[0]);
      PathSum(path[1..], texts[1..]);
    }
  }

  lemma PathBytesExactly(path: Path)
    ensures Utf8Length(PathText(path)) == PathBytes(path)
  {
    var texts := seq(|path|, i requires 0 <= i < |path| => Quoted(path[i]));
    ListTextBytes(texts);
    PathSum(path, texts);
  }

  lemma RefBytesExactly(ref: Ref)
    ensures Utf8Length(RefText(ref)) == RefBytes(ref)
  {
    var kind, name, version := Quoted(ref.kind), Quoted(ref.name), Quoted(ref.version);
    TextBytesExactly(ref.kind);
    TextBytesExactly(ref.name);
    TextBytesExactly(ref.version);
    hide Quoted, Utf8Length;
    var a, b, c := "{\"kind\":", ",\"name\":", ",\"version\":";
    NarrowBytes(a);
    NarrowBytes(b);
    NarrowBytes(c);
    NarrowBytes("}");
    Utf8LengthAdds(a, kind);
    Utf8LengthAdds(a + kind, b);
    Utf8LengthAdds(a + kind + b, name);
    Utf8LengthAdds(a + kind + b + name, c);
    Utf8LengthAdds(a + kind + b + name + c, version);
    Utf8LengthAdds(a + kind + b + name + c + version, "}");
  }

  /** The items of a set in the order in which they are listed. */
  ghost predicate Lists<T(!new)>(items: seq<T>, s: set<T>) {
    NoDuplicates(items) && forall x :: x in items <==> x in s
  }

  /** The bytes counted for a set are those of any list of its items. */
  lemma {:induction false} ListBytesExactly<T(!new)>(items: seq<T>, s: set<T>, texts: seq<string>, bytes: T -> nat)
    requires Lists(items, s) && |texts| == |items|
    requires forall i | 0 <= i < |items| :: Utf8Length(texts[i]) == bytes(items[i])
    ensures Utf8Length(ListText(texts)) == ListBytes(s, bytes)
  {
    ListTextBytes(texts);
    ListSum(items, s, texts, bytes);
  }

  lemma ListsNothing<T(!new)>(items: seq<T>, s: set<T>)
    requires Lists(items, s) && items == []
    ensures s == {}
  {
  }

  lemma SumOfNothing<T>(bytes: T -> nat)
    ensures SumOver({}, bytes) == 0
  {
  }

  lemma ListsRest<T(!new)>(items: seq<T>, s: set<T>)
    requires Lists(items, s) && items != []
    ensures items[0] in s && Lists(items[1..], s - {items[0]})
  {
    assert items == [items[0]] + items[1..];
    forall x ensures x in items[1..] <==> x in s - {items[0]} {
      if x in items[1..] {
        var i :| 0 <= i < |items[1..]| && items[1..][i] == x;
        assert items[i + 1] == x && items[0] != items[i + 1];
      }
    }
  }

  lemma {:induction false} ListSum<T(!new)>(items: seq<T>, s: set<T>, texts: seq<string>, bytes: T -> nat)
    requires Lists(items, s) && |texts| == |items|
    requires forall i | 0 <= i < |items| :: Utf8Length(texts[i]) == bytes(items[i])
    ensures SumBytes(texts) == SumOver(s, bytes) && |s| == |items|
    decreases |items|
  {
    hide Lists, SumOver, Utf8Length;
    if items == [] {
      ListsNothing(items, s);
      SumOfNothing(bytes);
    } else {
      var rest, more := s - {items[0]}, texts[1..];
      ListsRest(items, s);
      forall i | 0 <= i < |more| ensures Utf8Length(more[i]) == bytes(items[1..][i]) {
        assert more[i] == texts[i + 1] && items[1..][i] == items[i + 1];
      }
      ListSum(items[1..], rest, more, bytes);
      SumOverTakes(s, items[0], bytes);
      assert s == rest + {items[0]};
    }
  }

  /** The size of a slice is that of the JSON texts of its reasons, paths and references, in whatever
      order they are listed, and of everything else in it. */
  lemma SizeIsOfText(e: Element, reasons: seq<string>, paths: seq<Path>, refs: seq<Ref>)
    requires e.Slice? && Lists(reasons, e.reasons) && Lists(paths, e.paths) && Lists(refs, e.refs)
    ensures Size(e) == e.fixed
                       + Utf8Length(ListText(seq(|reasons|, i requires 0 <= i < |reasons| => Quoted(reasons[i]))))
                       + Utf8Length(ListText(seq(|paths|, i requires 0 <= i < |paths| => PathText(paths[i]))))
                       + Utf8Length(ListText(seq(|refs|, i requires 0 <= i < |refs| => RefText(refs[i]))))
  {
    hide Quoted, PathText, RefText, ListText, TextBytes, PathBytes, RefBytes, ListBytes;
    forall i | 0 <= i < |reasons| ensures Utf8Length(Quoted(reasons[i])) == TextBytes(reasons[i]) {
      TextBytesExactly(reasons[i]);
    }
    forall i | 0 <= i < |paths| ensures Utf8Length(PathText(paths[i])) == PathBytes(paths[i]) {
      PathBytesExactly(paths[i]);
    }
    forall i | 0 <= i < |refs| ensures Utf8Length(RefText(refs[i])) == RefBytes(refs[i]) {
      RefBytesExactly(refs[i]);
    }
    ListBytesExactly(reasons, e.reasons, seq(|reasons|, i requires 0 <= i < |reasons| => Quoted(reasons[i])), TextBytes);
    ListBytesExactly(paths, e.paths, seq(|paths|, i requires 0 <= i < |paths| => PathText(paths[i])), PathBytes);
    ListBytesExactly(refs, e.refs, seq(|refs|, i requires 0 <= i < |refs| => RefText(refs[i])), RefBytes);
  }

  /** The token count is the least positive number of which four times is the size. */
  lemma TokensExactly(e: Element, n: nat)
    ensures n >= Tokens(e) <==> n >= 1 && 4 * n >= Size(e)
  {
  }
}
