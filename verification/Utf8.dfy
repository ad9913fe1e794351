/** Text in UTF-8 and its size (RFC 3629, section 3). */
module Utf8 {

  function Utf8Width(c: char): nat {
    var n := c as int;
    if n < 0x80 then 1 else if n < 0x800 then 2 else if n < 0x10000 then 3 else 4
  }

  function Utf8Length(text: string): nat {
    if text == "" then 0 else Utf8Length(text[..|text| - 1]) + Utf8Width(text[|text| - 1])
  }

  lemma {:induction false} Utf8LengthAdds(a: string, b: string)
    ensures Utf8Length(a + b) == Utf8Length(a) + Utf8Length(b)
    decreases |b|
  {
    if b == "" {
      assert a + b == a;
    } else {
      assert (a + b)[..|a + b| - 1] == a + b[..|b| - 1];
      Utf8LengthAdds(a, b[..|b| - 1]);
    }
  }

  // ---------------------------------------------------------------- octets

  type Octet = n: int | 0 <= n < 256

  /** An octet that continues a character carries six bits. */
  function Continuation(bits: int): Octet { 0x80 + bits % 64 }

  function Octets(c: char): seq<Octet> {
    var n := c as int;
    if n < 0x80 then [n]
    else if n < 0x800 then [0xc0 + n / 64, Continuation(n)]
    else if n < 0x10000 then [0xe0 + n / 4096, Continuation(n / 64), Continuation(n)]
    else [0xf0 + n / 262144, Continuation(n / 4096), Continuation(n / 64), Continuation(n)]
  }

  function Encoded(text: string): seq<Octet> {
    if text == "" then [] else Octets(text[0]) + Encoded(text[1..])
  }

  /** How many octets the first one announces, and the bits it carries itself. */
  function Announced(first: Octet): (nat, nat) {
    if first < 0x80 then (1, first)
    else if first < 0xe0 then (2, first % 32)
    else if first < 0xf0 then (3, first % 16)
    else (4, first % 8)
  }

  /** The number the first character stands for, and how many octets it takes. */
  function FirstNumber(octets: seq<Octet>): (nat, nat)
    requires octets != [] && Announced(octets[0]).0 <= |octets|
  {
    var (count, bits) := Announced(octets[0]);
    (Continued(bits, octets[1..count]), count)
  }

  function Continued(bits: nat, octets: seq<Octet>): nat
    decreases |octets|
  {
    if octets == [] then bits else Continued(bits * 64 + octets[0] % 64, octets[1..])
  }

  /** The bits of a number, put together from its six lowest upwards. */
  lemma SixBits(high: nat, n: nat)
    requires high == n / 64
    ensures high * 64 + Continuation(n) % 64 == n
  {
  }

  lemma OneOctet(n: nat, more: seq<Octet>)
    ensures Continued(n / 64, [Continuation(n)] + more) == Continued(n, more)
  {
    SixBits(n / 64, n);
    assert ([Continuation(n)] + more)[1..] == more;
  }

  lemma TwoOctets(n: nat)
    ensures Continued(n / 4096, [Continuation(n / 64), Continuation(n)]) == n
  {
    assert n / 64 / 64 == n / 4096;
    OneOctet(n / 64, [Continuation(n)]);
    OneOctet(n, []);
    assert [Continuation(n / 64)] + [Continuation(n)] == [Continuation(n / 64), Continuation(n)];
    assert [Continuation(n)] + [] == [Continuation(n)];
  }

  lemma ThreeOctets(n: nat)
    ensures Continued(n / 262144, [Continuation(n / 4096), Continuation(n / 64), Continuation(n)]) == n
  {
    assert n / 4096 / 64 == n / 262144;
    OneOctet(n / 4096, [Continuation(n / 64), Continuation(n)]);
    TwoOctets(n);
    assert [Continuation(n / 4096)] + [Continuation(n / 64), Continuation(n)]
        == [Continuation(n / 4096), Continuation(n / 64), Continuation(n)];
  }

  /** The character is read back from its octets, whatever follows them, and its width is theirs. */
  lemma OctetsAreRead(c: char, rest: seq<Octet>)
    ensures |Octets(c)| == Utf8Width(c)
    ensures Announced(Octets(c)[0]).0 == Utf8Width(c)
    ensures FirstNumber(Octets(c) + rest) == (c as int, Utf8Width(c))
  {
    var n, octets := c as int, Octets(c);
    var (count, bits) := Announced(octets[0]);
    assert (octets + rest)[0] == octets[0] && (octets + rest)[1..count] == octets[1..];
    if count == 2 {
      OneOctet(n, []);
      assert octets[1..] == [Continuation(n)] + [];
    } else if count == 3 {
      TwoOctets(n);
      assert octets[1..] == [Continuation(n / 64), Continuation(n)];
    } else if count == 4 {
      ThreeOctets(n);
      assert octets[1..] == [Continuation(n / 4096), Continuation(n / 64), Continuation(n)];
    }
    hide Continued;
  }

  /** The length of a text is the number of its octets. */
  lemma {:induction false} LengthIsEncoded(text: string)
    ensures Utf8Length(text) == |Encoded(text)|
    decreases |text|
  {
    if text != "" {
      OctetsAreRead(text[0], []);
      LengthIsEncoded(text[1..]);
      assert text == [text[0]] + text[1..];
      Utf8LengthAdds([text[0]], text[1..]);
      assert [text[0]][..0] == "";
      assert Utf8Length([text[0]]) == Utf8Length("") + Utf8Width(text[0]);
    }
  }
}
