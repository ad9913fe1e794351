/** Big-endian integers and the DER subset a private key is read with
    (src/aep/github_app_provider.py:909-943; ITU-T X.690 sections 8.1.3 and 10.1). */
module Der {
  import opened Wrappers

  type Byte = x: int | 0 <= x < 256

  type Bytes = seq<Byte>

  datatype Item = Item(tag: Byte, content: Bytes)

  datatype Error = ValueError | InvalidKey

  // ---------------------------------------------------------------- integers

  function Pow(b: nat, e: nat): nat {
    if e == 0 then 1 else b * Pow(b, e - 1)
  }

  lemma {:induction false} PowPositive(b: nat, e: nat)
    requires b > 0
    ensures Pow(b, e) > 0
    decreases e
  {
    if e > 0 {
      PowPositive(b, e - 1);
      assert b * Pow(b, e - 1) > 0;
    }
  }

  lemma {:induction false} PowGrows(b: nat, small: nat, large: nat)
    requires b > 0 && small <= large
    ensures Pow(b, small) <= Pow(b, large)
    decreases large - small
  {
    if small < large {
      PowGrows(b, small, large - 1);
      PowPositive(b, large - 1);
    }
  }

  lemma {:induction false} PowAdds(b: nat, m: nat, n: nat)
    ensures Pow(b, m + n) == Pow(b, m) * Pow(b, n)
    decreases m
  {
    if m > 0 {
      PowAdds(b, m - 1, n);
      var p, q := Pow(b, m - 1), Pow(b, n);
      assert b * (p * q) == (b * p) * q;
    }
  }

  /** `int.from_bytes(value, "big")`. */
  function FromBytes(value: Bytes): nat {
    if value == [] then 0 else 256 * FromBytes(value[..|value| - 1]) + value[|value| - 1]
  }

  lemma {:induction false} FromBytesFits(value: Bytes)
    ensures FromBytes(value) < Pow(256, |value|)
    decreases |value|
  {
    if value != [] { FromBytesFits(value[..|value| - 1]); }
  }

  /** The shortest big-endian form of a number; zero takes one byte. */
  function BigEndian(n: nat): Bytes {
    if n < 256 then [n] else BigEndian(n / 256) + [n % 256]
  }

  lemma {:induction false} BigEndianReads(n: nat)
    ensures FromBytes(BigEndian(n)) == n
    decreases n
  {
    if n < 256 {
      assert [n][..0] == [];
      assert FromBytes([n]) == 256 * FromBytes([]) + n;
    } else {
      BigEndianReads(n / 256);
      assert BigEndian(n)[..|BigEndian(n)| - 1] == BigEndian(n / 256);
    }
  }

  /** No form of a number is shorter, and the one of that length is the same. */
  lemma {:induction false} BigEndianIsShortest(value: Bytes)
    requires value != []
    ensures |BigEndian(FromBytes(value))| <= |value|
    ensures |BigEndian(FromBytes(value))| == |value| ==> BigEndian(FromBytes(value)) == value
    decreases |value|
  {
    var n, front, last := FromBytes(value), value[..|value| - 1], value[|value| - 1];
    assert value == front + [last];
    assert n == 256 * FromBytes(front) + last;
    if front == [] {
      assert n == last;
    } else {
      BigEndianIsShortest(front);
      if n < 256 {
        assert FromBytes(front) == 0;
      }
    }
  }

  lemma {:induction false} BigEndianLength(n: nat, count: nat)
    requires count > 0 && n < Pow(256, count)
    ensures 1 <= |BigEndian(n)| <= count
    decreases count
  {
    if n >= 256 {
      assert Pow(256, 1) == 256 * Pow(256, 0) == 256;
      assert count > 1;
      assert Pow(256, count) == 256 * Pow(256, count - 1);
      BigEndianLength(n / 256, count - 1);
    }
  }

  /** `int.to_bytes(size, "big")`. */
  function ToBytes(n: nat, size: nat): Bytes {
    if size == 0 then [] else ToBytes(n / 256, size - 1) + [n % 256]
  }

  lemma {:induction false} ToBytesReads(n: nat, size: nat)
    requires n < Pow(256, size)
    ensures |ToBytes(n, size)| == size && FromBytes(ToBytes(n, size)) == n
    decreases size
  {
    if size > 0 {
      ToBytesReads(n / 256, size - 1);
      assert ToBytes(n, size)[..size - 1] == ToBytes(n / 256, size - 1);
    }
  }

  // ---------------------------------------------------------------- lengths

  /** The length octets DER demands: the short form, or the shortest long form. */
  function EncodeLength(n: nat): Bytes
    requires n < 0x1_0000_0000
  {
    if n < 128 then [n]
    else
      assert |BigEndian(n)| <= 4 by { FourBytes(n); }
      [128 + |BigEndian(n)|] + BigEndian(n)
  }

  lemma PowFour()
    ensures Pow(256, 4) == 0x1_0000_0000
  {
    assert Pow(256, 1) == 256 * Pow(256, 0) == 256;
    assert Pow(256, 2) == 256 * Pow(256, 1);
    assert Pow(256, 3) == 256 * Pow(256, 2);
  }

  lemma FourBytes(n: nat)
    requires n < 0x1_0000_0000
    ensures 1 <= |BigEndian(n)| <= 4
  {
    PowFour();
    BigEndianLength(n, 4);
  }

  /** `_der_length`: the length at `offset` and where its contents start. */
  function DerLength(value: Bytes, offset: nat): (r: Result<(nat, nat), Error>)
    ensures r.Ok? ==> offset < r.value.1 <= |value|
  {
    if offset >= |value| then Err(ValueError)
    else if value[offset] < 128 then Ok((value[offset], offset + 1))
    else
      var count := value[offset] - 128;
      if count == 0 || count > 4 || offset + count >= |value| then Err(ValueError)
      else Ok((FromBytes(value[offset + 1..offset + 1 + count]), offset + 1 + count))
  }

  /** Encoded lengths are read back, wherever they stand. */
  lemma LengthRoundTrip(before: Bytes, n: nat, after: Bytes)
    requires n < 0x1_0000_0000
    ensures DerLength(before + EncodeLength(n) + after, |before|) == Ok((n, |before| + |EncodeLength(n)|))
  {
    if n >= 128 {
      FourBytes(n);
      BigEndianReads(n);
      var digits := BigEndian(n);
      hide BigEndian, FromBytes;
      Within(before, 128 + |digits|, digits, after);
    } else {
      Within(before, n, [], after);
    }
  }

  lemma Within(before: Bytes, first: Byte, digits: Bytes, after: Bytes)
    ensures
      var value := before + ([first] + digits) + after;
      && |before| + |digits| < |value| && value[|before|] == first
      && value[|before| + 1..|before| + 1 + |digits|] == digits
    ensures [first] + [] == [first]
  {
  }

  /** Length octets are never shorter than DER has them, and of that length only if they are the
      same. */
  lemma EncodedLengthIsShortest(value: Bytes, offset: nat)
    requires DerLength(value, offset).Ok?
    ensures
      var (n, next) := DerLength(value, offset).value;
      && n < 0x1_0000_0000
      && |EncodeLength(n)| <= next - offset
      && (|EncodeLength(n)| == next - offset <==> EncodeLength(n) == value[offset..next])
  {
    var (n, next) := DerLength(value, offset).value;
    if value[offset] >= 128 {
      var count := value[offset] - 128;
      var digits := value[offset + 1..offset + 1 + count];
      FromBytesFits(digits);
      PowGrows(256, count, 4);
      assert n < 0x1_0000_0000 by { FourBytes(0); PowFour(); }
      BigEndianIsShortest(digits);
      assert value[offset..next] == [value[offset]] + digits;
    } else {
      assert value[offset..next] == [value[offset]];
    }
  }

  /** The first digit of a positive number is not zero, and digits that start so are the shortest. */
  lemma {:induction false} ShortestStartsNonzero(n: nat)
    ensures |BigEndian(n)| > 0 && (n > 0 ==> BigEndian(n)[0] != 0)
    decreases n
  {
    if n >= 256 { ShortestStartsNonzero(n / 256); }
  }

  lemma {:induction false} NonzeroStartIsShortest(value: Bytes)
    requires value != [] && value[0] != 0
    ensures BigEndian(FromBytes(value)) == value && FromBytes(value) > 0
    decreases |value|
  {
    var front, last := value[..|value| - 1], value[|value| - 1];
    assert value == front + [last];
    if front == [] {
      assert FromBytes(value) == 256 * FromBytes([]) + last;
    } else {
      NonzeroStartIsShortest(front);
    }
  }

  /** The length octets at `offset` are in the short form, or in a long form with a nonzero first
      digit for a length that needs it. */
  predicate MinimalLength(value: Bytes, offset: nat)
    requires DerLength(value, offset).Ok?
  {
    || value[offset] < 128
    || (value[offset + 1] != 0 && DerLength(value, offset).value.0 >= 128)
  }

  lemma LengthIsDerExactly(value: Bytes, offset: nat)
    requires DerLength(value, offset).Ok?
    ensures
      var (n, next) := DerLength(value, offset).value;
      n < 0x1_0000_0000 && (EncodeLength(n) == value[offset..next] <==> MinimalLength(value, offset))
  {
    var (n, next) := DerLength(value, offset).value;
    EncodedLengthIsShortest(value, offset);
    if value[offset] >= 128 {
      var digits := value[offset + 1..next];
      assert value[offset..next] == [value[offset]] + digits && digits[0] == value[offset + 1];
      if n >= 128 {
        ShortestStartsNonzero(n);
        if digits[0] != 0 { NonzeroStartIsShortest(digits); }
        assert EncodeLength(n)[1..] == BigEndian(n);
        assert value[offset..next][1..] == digits;
      } else {
        assert |EncodeLength(n)| == 1 < |value[offset..next]|;
      }
    } else {
      assert value[offset..next] == [value[offset]];
    }
  }

  // ---------------------------------------------------------------- sequences

  function EncodeItems(items: seq<Item>): Bytes
    requires forall item | item in items :: |item.content| < 0x1_0000_0000
  {
    if items == [] then []
    else [items[0].tag] + EncodeLength(|items[0].content|) + items[0].content + EncodeItems(items[1..])
  }

  function EncodeSequence(items: seq<Item>): Bytes
    requires forall item | item in items :: |item.content| < 0x1_0000_0000
    requires |EncodeItems(items)| < 0x1_0000_0000
  {
    [0x30] + EncodeLength(|EncodeItems(items)|) + EncodeItems(items)
  }

  /** The items between `offset` and `end`. */
  function DecodeItems(value: Bytes, offset: nat, end: nat): Result<seq<Item>, Error>
    requires end <= |value|
    decreases |value| - offset
  {
    if offset >= end then Ok([])
    else
      match DerLength(value, offset + 1)
      case Err(e) => Err(e)
      case Ok((length, start)) =>
        if start + length > end then Err(InvalidKey)
        else
          match DecodeItems(value, start + length, end)
          case Err(e) => Err(e)
          case Ok(rest) => Ok([Item(value[offset], value[start..start + length])] + rest)
  }

  function DecodeSequence(value: Bytes): Result<seq<Item>, Error> {
    if value == [] || value[0] != 0x30 then Err(InvalidKey)
    else
      match DerLength(value, 1)
      case Err(e) => Err(e)
      case Ok((length, start)) => if start + length != |value| then Err(InvalidKey)
          else DecodeItems(value, start, |value|)
  }

  function After(items: seq<Item>, rest: Result<seq<Item>, Error>): Result<seq<Item>, Error> {
    match rest case Err(e) => Err(e) case Ok(more) => Ok(items + more)
  }

  lemma AfterNothing(rest: Result<seq<Item>, Error>)
    ensures After([], rest) == rest
  {
    if rest.Ok? { assert [] + rest.value == rest.value; }
  }

  /** `_der_sequence`. */
  method DerSequence(value: Bytes) returns (result: Result<seq<Item>, Error>)
    ensures result == DecodeSequence(value)
  {
    if value == [] || value[0] != 0x30 { return Err(InvalidKey); }
    var header := DerLength(value, 1);
    if header.Err? { return Err(header.error); }
    var (length, offset) := header.value;
    var end := offset + length;
    if end != |value| { return Err(InvalidKey); }
    var items: seq<Item> := [];
    AfterNothing(DecodeItems(value, offset, end));
    while offset < end
      invariant offset <= end == |value|
      invariant DecodeSequence(value) == After(items, DecodeItems(value, offset, end))
      decreases end - offset
    {
      var tag := value[offset];
      var next := DerLength(value, offset + 1);
      if next.Err? { return Err(next.error); }
      var (size, start) := next.value;
      var contentEnd := start + size;
      if contentEnd > end { return Err(InvalidKey); }
      ghost var rest := DecodeItems(value, contentEnd, end);
      assert rest.Ok? ==> items + ([Item(tag, value[start..contentEnd])] + rest.value)
                          == items + [Item(tag, value[start..contentEnd])] + rest.value;
      items := items + [Item(tag, value[start..contentEnd])];
      offset := contentEnd;
    }
    assert items + [] == items;
    result := Ok(items);
  }

  /** One item in front of the rest. */
  lemma DecodeStep(value: Bytes, offset: nat, end: nat, length: nat, start: nat, rest: seq<Item>)
    requires offset < end <= |value| && DerLength(value, offset + 1) == Ok((length, start)) && start + length <= end
    requires DecodeItems(value, start + length, end) == Ok(rest)
    ensures DecodeItems(value, offset, end) == Ok([Item(value[offset], value[start..start + length])] + rest)
  {
  }

  lemma {:induction false} ItemsRoundTrip(before: Bytes, items: seq<Item>)
    requires forall item | item in items :: |item.content| < 0x1_0000_0000
    ensures
      var value := before + EncodeItems(items);
      DecodeItems(value, |before|, |value|) == Ok(items)
    decreases |items|
  {
    if items != [] {
      var item, more := items[0], items[1..];
      assert items == [item] + more && forall m | m in more :: m in items;
      var octets, rest := EncodeLength(|item.content|), EncodeItems(more);
      assert EncodeItems(items) == [item.tag] + octets + item.content + rest;
      ItemsRoundTrip(before + [item.tag] + octets + item.content, more);
      OneMoreItem(before, item, more, rest);
    }
  }

  lemma OneMoreItem(before: Bytes, item: Item, more: seq<Item>, rest: Bytes)
    requires |item.content| < 0x1_0000_0000
    requires
      var done := before + [item.tag] + EncodeLength(|item.content|) + item.content;
      DecodeItems(done + rest, |done|, |done + rest|) == Ok(more)
    ensures
      var value := before + ([item.tag] + EncodeLength(|item.content|) + item.content + rest);
      DecodeItems(value, |before|, |value|) == Ok([item] + more)
  {
    hide EncodeLength, DerLength, DecodeItems;
    var octets, head := EncodeLength(|item.content|), before + [item.tag];
    var value := before + ([item.tag] + octets + item.content + rest);
    Layout(before, item.tag, octets, item.content, rest);
    LengthRoundTrip(head, |item.content|, item.content + rest);
    var start := |head| + |octets|;
    assert |head + octets + item.content| == start + |item.content|;
    DecodeStep(value, |before|, |value|, |item.content|, start, more);
  }

  lemma Layout(before: Bytes, tag: Byte, octets: Bytes, content: Bytes, rest: Bytes)
    ensures
      var value, head := before + ([tag] + octets + content + rest), before + [tag];
      && value == head + octets + (content + rest) == head + octets + content + rest
      && value[|before|] == tag
      && value[|head| + |octets|..|head| + |octets| + |content|] == content
  {
  }

  /** What DER encodes is decoded to the same items. */
  lemma SequenceRoundTrip(items: seq<Item>)
    requires forall item | item in items :: |item.content| < 0x1_0000_0000
    requires |EncodeItems(items)| < 0x1_0000_0000
    ensures DecodeSequence(EncodeSequence(items)) == Ok(items)
  {
    var body := EncodeItems(items);
    var header := [0x30] + EncodeLength(|body|);
    LengthRoundTrip([0x30], |body|, body);
    ItemsRoundTrip(header, items);
  }

  /** All length octets of the items between `offset` and `end` are minimal. */
  predicate MinimalFrom(value: Bytes, offset: nat, end: nat)
    requires end <= |value|
    decreases |value| - offset
  {
    offset < end && DerLength(value, offset + 1).Ok? ==>
      var (length, start) := DerLength(value, offset + 1).value;
      MinimalLength(value, offset + 1) && (start + length <= end ==> MinimalFrom(value, start + length, end))
  }

  lemma {:induction false} ItemsAreShortest(value: Bytes, offset: nat, end: nat)
    requires offset <= end <= |value| && DecodeItems(value, offset, end).Ok?
    ensures
      var items := DecodeItems(value, offset, end).value;
      && (forall item | item in items :: |item.content| < 0x1_0000_0000)
      && |EncodeItems(items)| <= end - offset
      && (|EncodeItems(items)| == end - offset <==> EncodeItems(items) == value[offset..end])
      && (EncodeItems(items) == value[offset..end] <==> MinimalFrom(value, offset, end))
    decreases end - offset
  {
    hide DerLength, EncodeLength, MinimalLength;
    var items := DecodeItems(value, offset, end).value;
    if offset < end {
      var (length, start) := DerLength(value, offset + 1).value;
      EncodedLengthIsShortest(value, offset + 1);
      LengthIsDerExactly(value, offset + 1);
      var middle := start + length;
      assert offset + 1 < start <= middle <= end;
      assert DecodeItems(value, middle, end).Ok?;
      ItemsAreShortest(value, middle, end);
      var more := DecodeItems(value, middle, end).value;
      assert items == [Item(value[offset], value[start..middle])] + more && items[1..] == more;
      assert MinimalFrom(value, offset, end) <==> MinimalLength(value, offset + 1) && MinimalFrom(value, middle, end);
      var octets, content, rest := EncodeLength(length), value[start..middle], EncodeItems(more);
      assert EncodeItems(items) == [value[offset]] + octets + content + rest;
      hide DecodeItems, EncodeItems, MinimalFrom;
      assert value[offset..end] == [value[offset]] + value[offset + 1..start] + content + value[middle..end];
    }
  }

  /** Every length field that decoding reaches has DER's length octets. */
  predicate MinimalLengths(value: Bytes) {
    DerLength(value, 1).Ok? ==>
      MinimalLength(value, 1) && MinimalFrom(value, DerLength(value, 1).value.1, |value|)
  }

  /** Of all accepted encodings of the same items the DER encoding is the shortest; re-encoding gives
      an accepted input back if and only if all its length fields are minimal. */
  lemma ReencodingIsExact(value: Bytes)
    requires DecodeSequence(value).Ok?
    ensures
      var items := DecodeSequence(value).value;
      && (forall item | item in items :: |item.content| < 0x1_0000_0000)
      && |EncodeItems(items)| < 0x1_0000_0000
      && |EncodeSequence(items)| <= |value|
      && (EncodeSequence(items) == value <==> MinimalLengths(value))
  {
    hide DerLength, EncodeLength, MinimalLength, DecodeItems, MinimalFrom, EncodeItems;
    var (length, start) := DerLength(value, 1).value;
    ItemsAreShortest(value, start, |value|);
    EncodedLengthIsShortest(value, 1);
    LengthIsDerExactly(value, 1);
    var items := DecodeSequence(value).value;
    var body, rest := EncodeItems(items), value[start..];
    EncodedLengthsGrow(|body|, length);
    assert value[start..|value|] == rest && value == [0x30] + value[1..start] + rest;
    HeadersDiffer(|body|, value[1..start], body, rest, length);
  }

  lemma HeadersDiffer(size: nat, octets: Bytes, body: Bytes, rest: Bytes, length: nat)
    requires size == |body| <= |rest| == length < 0x1_0000_0000
    requires |EncodeLength(size)| <= |EncodeLength(length)| <= |octets|
    requires |body| == |rest| <==> body == rest
    ensures |[0x30] + EncodeLength(size) + body| <= |[0x30] + octets + rest|
    ensures [0x30] + EncodeLength(size) + body == [0x30] + octets + rest <==>
              EncodeLength(length) == octets && body == rest
  {
    hide EncodeLength;
    var left, right := [0x30] + EncodeLength(size) + body, [0x30] + octets + rest;
    if left == right {
      assert |left| == |right|;
      assert body == rest;
      assert left[1..1 + |octets|] == EncodeLength(size) && right[1..1 + |octets|] == octets;
    }
  }

  /** The reader accepts length octets that DER forbids: here the empty sequence with its length in
      the long form. */
  lemma AcceptsLongForm()
    ensures DecodeSequence([0x30, 0x81, 0x00]) == Ok([])
    ensures EncodeSequence([]) == [0x30, 0x00] && !MinimalLengths([0x30, 0x81, 0x00])
  {
    var value: Bytes := [0x30, 0x81, 0x00];
    assert value[2..3] == [0x00] && [0x00][..0] == [];
    assert FromBytes([0x00]) == 256 * FromBytes([]) + 0;
    assert DerLength(value, 1) == Ok((0, 3));
  }

  lemma EncodedLengthsGrow(a: nat, b: nat)
    requires a <= b < 0x1_0000_0000
    ensures |EncodeLength(a)| <= |EncodeLength(b)|
  {
    if b >= 128 {
      FourBytes(b);
      BigEndianReads(b);
      FromBytesFits(BigEndian(b));
      BigEndianLength(a, |BigEndian(b)|);
    }
  }
}
