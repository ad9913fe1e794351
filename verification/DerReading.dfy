/** Exactly what the DER reader accepts (src/aep/github_app_provider.py:909-937; ITU-T X.690 sections
    8.1.2 to 8.1.4). */
module DerReading {
  import opened Wrappers
  import opened Der

  /** Length octets of the definite form: one octet, or a count of one to four octets that follow. */
  predicate IsLength(octets: Bytes, n: nat) {
    || (|octets| == 1 && octets[0] < 128 && n == octets[0])
    || (2 <= |octets| <= 5 && octets[0] == 128 + (|octets| - 1) && n == FromBytes(octets[1..]))
  }

  /** The octets are those of the items one after the other, each a tag, its length and its content. */
  ghost predicate SpellsItems(octets: Bytes, items: seq<Item>)
    decreases |items|
  {
    if items == [] then octets == []
    else
      exists length: Bytes, rest: Bytes ::
        && IsLength(length, |items[0].content|) && SpellsItems(rest, items[1..])
        && octets == [items[0].tag] + length + items[0].content + rest
  }

  /** The octets are those of one SEQUENCE of the items, and nothing after it. */
  ghost predicate SpellsSequence(octets: Bytes, items: seq<Item>) {
    exists length: Bytes, body: Bytes ::
      IsLength(length, |body|) && SpellsItems(body, items) && octets == [0x30] + length + body
  }

  lemma LengthExactly(value: Bytes, offset: nat, n: nat, next: nat)
    ensures DerLength(value, offset) == Ok((n, next)) <==>
              offset < next <= |value| && IsLength(value[offset..next], n)
  {
    if offset < |value| {
      if value[offset] >= 128 {
        var count := value[offset] - 128;
        if offset < next <= |value| {
          assert value[offset..next][1..] == value[offset + 1..next];
          assert value[offset..next][0] == value[offset];
        }
      } else if offset < next <= |value| {
        assert value[offset..next][0] == value[offset];
      }
    }
  }

  /** A length in the middle of octets. */
  lemma LengthAt(value: Bytes, offset: nat, length: Bytes, n: nat)
    requires IsLength(length, n) && offset + |length| <= |value|
    requires value[offset..offset + |length|] == length
    ensures DerLength(value, offset) == Ok((n, offset + |length|))
  {
    hide DerLength;
    LengthExactly(value, offset, n, offset + |length|);
  }

  lemma {:induction false} ItemsExactly(value: Bytes, offset: nat, end: nat, items: seq<Item>)
    requires offset <= end <= |value|
    ensures DecodeItems(value, offset, end) == Ok(items) <==> SpellsItems(value[offset..end], items)
    decreases |items|
  {
    hide DerLength, IsLength;
    if DecodeItems(value, offset, end) == Ok(items) && items != [] {
      var (n, start) := DerLength(value, offset + 1).value;
      LengthExactly(value, offset + 1, n, start);
      ItemsExactly(value, start + n, end, items[1..]);
      assert items[0].content == value[start..start + n];
      InParts(value, offset, start, start + n, end);
    }
    if items != [] && SpellsItems(value[offset..end], items) {
      var length, rest := ItemSpelled(value[offset..end], items);
      SpelledIsDecoded(value, offset, end, items, length, rest);
    }
  }

  lemma InParts(value: Bytes, offset: nat, start: nat, next: nat, end: nat)
    requires offset < start <= next <= end <= |value|
    ensures value[offset..end] == [value[offset]] + value[offset + 1..start] + value[start..next] + value[next..end]
  {
  }

  lemma ItemSpelled(octets: Bytes, items: seq<Item>) returns (length: Bytes, rest: Bytes)
    requires items != [] && SpellsItems(octets, items)
    ensures IsLength(length, |items[0].content|) && SpellsItems(rest, items[1..])
    ensures octets == [items[0].tag] + length + items[0].content + rest
  {
    length, rest :|
      && IsLength(length, |items[0].content|) && SpellsItems(rest, items[1..])
      && octets == [items[0].tag] + length + items[0].content + rest;
  }

  lemma {:induction false} SpelledIsDecoded(value: Bytes, offset: nat, end: nat, items: seq<Item>, length: Bytes,
                                            rest: Bytes)
    requires offset <= end <= |value| && items != []
    requires IsLength(length, |items[0].content|) && SpellsItems(rest, items[1..])
    requires value[offset..end] == [items[0].tag] + length + items[0].content + rest
    ensures DecodeItems(value, offset, end) == Ok(items)
    decreases |items|, 0
  {
    hide DerLength, SpellsItems;
    var n, start := |items[0].content|, offset + 1 + |length|;
    Parts(value, offset, end, items[0].tag, length, items[0].content, rest);
    LengthAt(value, offset + 1, length, n);
    ItemsExactly(value, start + n, end, items[1..]);
    DecodeStep(value, offset, end, n, start, items[1..]);
    assert [Item(value[offset], value[start..start + n])] + items[1..] == items;
  }

  lemma Slice(value: Bytes, offset: nat, end: nat, i: nat, j: nat)
    requires offset <= end <= |value| && i <= j <= end - offset
    ensures value[offset..end][i..j] == value[offset + i..offset + j]
  {
    var part, whole := value[offset..end][i..j], value[offset + i..offset + j];
    assert |part| == |whole|;
    assert forall k | 0 <= k < |part| :: part[k] == value[offset..end][i + k] == value[offset + i + k] == whole[k];
  }

  lemma Parts(value: Bytes, offset: nat, end: nat, tag: Byte, length: Bytes, content: Bytes, rest: Bytes)
    requires offset <= end <= |value| && value[offset..end] == [tag] + length + content + rest
    ensures
      var start := offset + 1 + |length|;
      && start + |content| + |rest| == end && value[offset] == tag && value[offset + 1..start] == length
      && value[start..start + |content|] == content && value[start + |content|..end] == rest
  {
    var part, start := [tag] + length + content + rest, offset + 1 + |length|;
    assert |value[offset..end]| == |part|;
    assert value[offset] == value[offset..end][0];
    Slice(value, offset, end, 1, 1 + |length|);
    Slice(value, offset, end, 1 + |length|, 1 + |length| + |content|);
    Slice(value, offset, end, 1 + |length| + |content|, |part|);
    assert part[1..1 + |length|] == length && part[1 + |length|..1 + |length| + |content|] == content
           && part[1 + |length| + |content|..] == rest;
  }

  /** Decoding gives some items exactly if the octets spell one SEQUENCE of them, every length in any
      definite form of up to four octets. */
  lemma SequenceExactly(value: Bytes, items: seq<Item>)
    ensures DecodeSequence(value) == Ok(items) <==> SpellsSequence(value, items)
  {
    hide DerLength, IsLength, SpellsItems, DecodeItems;
    if DecodeSequence(value) == Ok(items) {
      var (n, start) := DerLength(value, 1).value;
      LengthExactly(value, 1, n, start);
      ItemsExactly(value, start, |value|, items);
      assert value == [0x30] + value[1..start] + value[start..|value|];
    }
    if SpellsSequence(value, items) {
      var length: Bytes, body: Bytes :|
        IsLength(length, |body|) && SpellsItems(body, items) && value == [0x30] + length + body;
      assert value[1..1 + |length|] == length && value[1 + |length|..|value|] == body;
      LengthAt(value, 1, length, |body|);
      ItemsExactly(value, 1 + |length|, |value|, items);
    }
  }
}
