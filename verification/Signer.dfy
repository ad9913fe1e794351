/** The RS256 signer's key reading and message encoding
    (src/aep/github_app_provider.py:159-187, 940-943; sections 5.2.1, 8.2.1 and 9.2 of RFC 8017). */
module Signer {
  import opened Wrappers
  import opened Der
  import opened DerReading

  /** The DER prefix of a SHA-256 DigestInfo. */
  const DIGEST_INFO: Bytes :=
    [0x30, 0x31, 0x30, 0x0d, 0x06, 0x09, 0x60, 0x86, 0x48, 0x01, 0x65, 0x03, 0x04, 0x02, 0x01, 0x05, 0x00, 0x04, 0x20]

  datatype SignError = Malformed(error: Error) | Unsupported | InvalidNumbers | TooShort

  /** `int.bit_length()`. */
  function BitLength(n: nat): nat {
    if n == 0 then 0 else 1 + BitLength(n / 2)
  }

  lemma {:induction false} BitLengthBounds(n: nat)
    requires n > 0
    ensures BitLength(n) > 0 && Pow(2, BitLength(n) - 1) <= n < Pow(2, BitLength(n))
    decreases n
  {
    if n == 1 {
      assert BitLength(1) == 1 + BitLength(0) == 1;
      assert Pow(2, 1) == 2 * Pow(2, 0) == 2;
    } else {
      BitLengthBounds(n / 2);
      var k := BitLength(n / 2);
      assert BitLength(n) == 1 + k;
      assert Pow(2, k) == 2 * Pow(2, k - 1) && Pow(2, k + 1) == 2 * Pow(2, k);
    }
  }

  lemma {:induction false} BytesAreBits(k: nat)
    ensures Pow(256, k) == Pow(2, 8 * k)
    decreases k
  {
    if k > 0 {
      BytesAreBits(k - 1);
      PowAdds(2, 8, 8 * (k - 1));
      assert Pow(2, 8) == 256 by { EightBits(); }
    }
  }

  lemma EightBits()
    ensures Pow(2, 8) == 256
  {
    assert Pow(2, 2) == 4 && Pow(2, 4) == 16 by {
      assert Pow(2, 1) == 2 * Pow(2, 0) == 2;
      assert Pow(2, 3) == 2 * Pow(2, 2);
    }
    PowAdds(2, 4, 4);
  }

  /** The octet length of the modulus. */
  function Size(modulus: nat): nat {
    (BitLength(modulus) + 7) / 8
  }

  /** A number of one octet less is below the modulus, and the modulus fits its octets. */
  lemma SizeBounds(modulus: nat)
    requires modulus > 0
    ensures Size(modulus) > 0 && Pow(256, Size(modulus) - 1) <= modulus < Pow(256, Size(modulus))
  {
    var bits, size := BitLength(modulus), Size(modulus);
    BitLengthBounds(modulus);
    BytesAreBits(size - 1);
    BytesAreBits(size);
    PowGrows(2, 8 * (size - 1), bits - 1);
    PowGrows(2, bits, 8 * size);
  }

  function Repeat(b: Byte, n: nat): (r: Bytes)
    ensures |r| == n && forall i | 0 <= i < n :: r[i] == b
  {
    if n == 0 then [] else Repeat(b, n - 1) + [b]
  }

  /** EMSA-PKCS1-v1_5: 0x00 0x01 PS 0x00 T. */
  function Encoded(size: nat, digest: Bytes): Bytes
    requires size >= |DIGEST_INFO| + |digest| + 3
  {
    [0x00, 0x01] + Repeat(0xff, size - |DIGEST_INFO| - |digest| - 3) + [0x00] + DIGEST_INFO + digest
  }

  lemma {:induction false} LeadingZero(value: Bytes)
    ensures FromBytes([0] + value) == FromBytes(value)
    decreases |value|
  {
    if value == [] {
      assert [0] + value == [0] && [0][..0] == [];
      assert FromBytes([0]) == 256 * FromBytes([]) + 0;
    } else {
      assert ([0] + value)[..|value|] == [0] + value[..|value| - 1];
      LeadingZero(value[..|value| - 1]);
    }
  }

  /** The encoded message is exactly as long as the modulus, has at least eight octets of padding,
      and is below the modulus. */
  lemma EncodedFits(modulus: nat, digest: Bytes)
    requires modulus > 0 && |digest| == 32 && Size(modulus) >= 256
    ensures |Encoded(Size(modulus), digest)| == Size(modulus)
    ensures Size(modulus) - |DIGEST_INFO| - |digest| - 3 >= 8
    ensures FromBytes(Encoded(Size(modulus), digest)) < modulus
  {
    var em := Encoded(Size(modulus), digest);
    assert em == [0] + em[1..];
    LeadingZero(em[1..]);
    FromBytesFits(em[1..]);
    SizeBounds(modulus);
  }

  /** The octets by position: 0x00, 0x01, a run of 0xff, 0x00, and the DigestInfo at the end, which is
      its prefix and the digest. */
  lemma EncodedOctets(size: nat, digest: Bytes)
    requires size >= |DIGEST_INFO| + |digest| + 3
    ensures
      var em, end := Encoded(size, digest), size - |digest| - |DIGEST_INFO|;
      && |em| == size && em[0] == 0x00 && em[1] == 0x01 && em[end - 1] == 0x00
      && (forall i | 2 <= i < end - 1 :: em[i] == 0xff)
      && em[end..size - |digest|] == DIGEST_INFO && em[size - |digest|..] == digest
  {
    var padding := Repeat(0xff, size - |DIGEST_INFO| - |digest| - 3);
    hide Repeat;
    var front := [0x00, 0x01] + padding + [0x00];
    assert Encoded(size, digest) == front + DIGEST_INFO + digest;
    assert forall i | 2 <= i < |front| - 1 :: front[i] == padding[i - 2];
    hide Encoded;
    assert forall i | 0 <= i < |front| :: Encoded(size, digest)[i] == front[i];
  }

  /** The identifier of SHA-256 and its absent parameters. */
  const SHA256: seq<Item> := [Item(0x06, [0x60, 0x86, 0x48, 0x01, 0x65, 0x03, 0x04, 0x02, 0x01]), Item(0x05, [])]

  lemma ShortItems(a: Item, b: Item)
    requires |a.content| < 128 && |b.content| < 128
    ensures EncodeItems([a, b]) == [a.tag, |a.content|] + a.content + ([b.tag, |b.content|] + b.content)
  {
    assert [a, b][1..] == [b] && [b][1..] == [];
    assert EncodeItems([b]) == [b.tag] + [|b.content|] + b.content + [];
    assert EncodeItems([a, b]) == [a.tag] + [|a.content|] + a.content + EncodeItems([b]);
  }

  lemma PrefixHasAlgorithm()
    ensures |EncodeItems(SHA256)| == 13
    ensures DIGEST_INFO == [0x30, 0x31, 0x30, 0x0d] + EncodeItems(SHA256) + [0x04, 0x20]
  {
    ShortItems(SHA256[0], SHA256[1]);
    assert SHA256 == [SHA256[0], SHA256[1]];
    hide EncodeItems;
  }

  lemma Prefixed(body: Bytes, digest: Bytes)
    requires |body| == 13 && |digest| == 32
    ensures |EncodeItems([Item(0x30, body), Item(0x04, digest)])| == 49
    ensures [0x30, 0x31, 0x30, 0x0d] + body + [0x04, 0x20] + digest
         == EncodeSequence([Item(0x30, body), Item(0x04, digest)])
  {
    ShortItems(Item(0x30, body), Item(0x04, digest));
    hide EncodeItems;
  }

  /** The prefix and a digest of 32 octets are the DER encoding of a DigestInfo: the algorithm
      identifier of SHA-256 and the digest as an OCTET STRING. */
  lemma DigestInfoIsDer(digest: Bytes)
    requires |digest| == 32
    ensures
      var algorithm, octets := Item(0x30, EncodeItems(SHA256)), Item(0x04, digest);
      && |EncodeItems(SHA256)| == 13 && |EncodeItems([algorithm, octets])| == 49
      && DIGEST_INFO + digest == EncodeSequence([algorithm, octets])
  {
    hide EncodeItems, EncodeSequence, EncodeLength, DIGEST_INFO;
    PrefixHasAlgorithm();
    Prefixed(EncodeItems(SHA256), digest);
  }

  /** `pow(base, exponent, modulus)`. */
  function PowMod(base: nat, exponent: nat, modulus: nat): (r: nat)
    requires modulus > 0
    ensures r < modulus
  {
    Pow(base, exponent) % modulus
  }

  /** `_der_integer`; a negative DER integer is read as unsigned, as the source does. */
  function DerInteger(item: Item): Option<nat> {
    if item.tag != 2 || item.content == [] then None else Some(FromBytes(item.content))
  }

  /** The numbers of a PKCS#1 key: the version, the modulus and the exponents. */
  function RsaValues(der: Bytes): Result<seq<Item>, SignError> {
    match DecodeSequence(der)
    case Err(e) => Err(Malformed(e))
    case Ok(values) =>
      if |values| >= 9 && values[0].tag == 2 then Ok(values)
      else if |values| == 3 && values[2].tag == 4 then
        match DecodeSequence(values[2].content)
        case Err(e) => Err(Malformed(e))
        case Ok(inner) => Ok(inner)
      else Err(Unsupported)
  }

  /** The signature is as long as the modulus, and the encoded message raised to the exponent. */
  ghost predicate Signs(der: Bytes, digest: Bytes, signature: Bytes)
    requires |digest| == 32
  {
    && RsaValues(der).Ok? && |RsaValues(der).value| > 3
    && DerInteger(RsaValues(der).value[1]).Some? && DerInteger(RsaValues(der).value[3]).Some?
    && var modulus := DerInteger(RsaValues(der).value[1]).value;
       var exponent := DerInteger(RsaValues(der).value[3]).value;
       && Size(modulus) >= 256 && |signature| == Size(modulus)
       && FromBytes(signature) == PowMod(FromBytes(Encoded(Size(modulus), digest)), exponent, modulus)
  }

  /** What a refusal means. */
  ghost predicate Explains(der: Bytes, error: SignError) {
    match error
    case Malformed(_) => RsaValues(der) == Err(error)
    case Unsupported => RsaValues(der) == Err(Unsupported)
    case InvalidNumbers =>
      && RsaValues(der).Ok?
      && var values := RsaValues(der).value;
         |values| <= 3 || DerInteger(values[1]).None? || DerInteger(values[3]).None?
    case TooShort =>
      && RsaValues(der).Ok? && |RsaValues(der).value| > 1
      && DerInteger(RsaValues(der).value[1]).Some?
      && DerInteger(RsaValues(der).value[1]).value < Pow(256, 255)
  }

  /** `sign` on the decoded key and the SHA-256 digest of the message.  A signature is as long as the
      modulus, and it is the encoded message raised to the private exponent. */
  method Sign(der: Bytes, digest: Bytes) returns (result: Result<Bytes, SignError>)
    requires |digest| == 32
    ensures result.Ok? ==> Signs(der, digest, result.value)
    ensures result.Err? ==> Explains(der, result.error)
  {
    hide Pow, BitLength, FromBytes;
    var keys := RsaValues(der);
    if keys.Err? { return Err(keys.error); }
    var values := keys.value;
    if |values| <= 3 { return Err(InvalidNumbers); }
    var modulus, exponent := DerInteger(values[1]), DerInteger(values[3]);
    if modulus.None? || exponent.None? { return Err(InvalidNumbers); }
    var size := Size(modulus.value);
    if size < 256 {
      ShortModulus(modulus.value);
      return Err(TooShort);
    }
    assert modulus.value > 0 by { LongModulus(modulus.value); }
    EncodedFits(modulus.value, digest);
    var encoded := Encoded(size, digest);
    var signature := PowMod(FromBytes(encoded), exponent.value, modulus.value);
    SizeBounds(modulus.value);
    ToBytesReads(signature, size);
    result := Ok(ToBytes(signature, size));
  }

  lemma LongModulus(modulus: nat)
    requires Size(modulus) >= 256
    ensures modulus > 0
  {
  }

  lemma ShortModulus(modulus: nat)
    requires Size(modulus) < 256
    ensures modulus < Pow(256, 255)
  {
    if modulus == 0 {
      PowPositive(256, 255);
    } else {
      SizeBounds(modulus);
      PowGrows(256, Size(modulus), 255);
    }
  }

  // ---------------------------------------------------------------- keys

  ghost predicate Encodable(items: seq<Item>) {
    && (forall item | item in items :: |item.content| < 0x1_0000_0000)
    && |EncodeItems(items)| < 0x1_0000_0000
  }

  /** A PKCS#1 key is read as it is, and the same key is read out of a PKCS#8 wrapping. */
  lemma KeysAreRead(key: seq<Item>, version: Item, algorithm: Item)
    requires Encodable(key) && |key| >= 9 && key[0].tag == 2
    ensures RsaValues(EncodeSequence(key)) == Ok(key)
    ensures Encodable([version, algorithm, Item(4, EncodeSequence(key))]) ==>
              RsaValues(EncodeSequence([version, algorithm, Item(4, EncodeSequence(key))])) == Ok(key)
  {
    SequenceRoundTrip(key);
    if Encodable([version, algorithm, Item(4, EncodeSequence(key))]) {
      SequenceRoundTrip([version, algorithm, Item(4, EncodeSequence(key))]);
    }
  }

  /** The two shapes of a key: nine or more items of a PKCS#1 key, or three of which the last wraps
      a SEQUENCE. */
  ghost predicate IsKey(der: Bytes, values: seq<Item>) {
    || (SpellsSequence(der, values) && |values| >= 9 && values[0].tag == 2)
    || exists outer :: IsWrapping(der, outer, values)
  }

  ghost predicate IsWrapping(der: Bytes, outer: seq<Item>, values: seq<Item>) {
    SpellsSequence(der, outer) && |outer| == 3 && outer[2].tag == 4 && SpellsSequence(outer[2].content, values)
  }

  /** The numbers of a key are read from exactly the octets that spell one of the two shapes. */
  lemma RsaValuesExactly(der: Bytes, values: seq<Item>)
    ensures RsaValues(der) == Ok(values) <==> IsKey(der, values)
  {
    hide DecodeSequence, SpellsSequence;
    SequenceExactly(der, values);
    forall outer ensures SpellsSequence(der, outer) <==> DecodeSequence(der) == Ok(outer) {
      SequenceExactly(der, outer);
    }
    if DecodeSequence(der).Ok? {
      var outer := DecodeSequence(der).value;
      if |outer| == 3 {
        SequenceExactly(outer[2].content, values);
        assert IsWrapping(der, outer, values) <==>
               outer[2].tag == 4 && DecodeSequence(outer[2].content) == Ok(values);
      }
    }
  }

  // ---------------------------------------------------------------- verification

  /** Raising to the one exponent undoes raising to the other, modulo the modulus. */
  ghost predicate Inverts(modulus: nat, privateExponent: nat, publicExponent: nat)
    requires modulus > 0
  {
    forall m: nat | m < modulus :: PowMod(PowMod(m, privateExponent, modulus), publicExponent, modulus) == m
  }

  lemma {:induction false} ToBytesRestores(value: Bytes)
    ensures ToBytes(FromBytes(value), |value|) == value
    decreases |value|
  {
    if value != [] {
      ToBytesRestores(value[..|value| - 1]);
      assert value == value[..|value| - 1] + [value[|value| - 1]];
    }
  }

  /** A signature verifies under the public exponent of its key: raised to it, it is the encoded
      message again, octet by octet (section 8.2.2 of RFC 8017). */
  lemma SignatureVerifies(der: Bytes, digest: Bytes, signature: Bytes, publicExponent: nat)
    requires |digest| == 32 && Signs(der, digest, signature)
    ensures
      var modulus := DerInteger(RsaValues(der).value[1]).value;
      var exponent := DerInteger(RsaValues(der).value[3]).value;
      && modulus > 0
      && (Inverts(modulus, exponent, publicExponent) ==>
            ToBytes(PowMod(FromBytes(signature), publicExponent, modulus), |signature|) ==
              Encoded(Size(modulus), digest))
  {
    hide Pow, FromBytes, ToBytes, Encoded, RsaValues, PowMod;
    var modulus := DerInteger(RsaValues(der).value[1]).value;
    LongModulus(modulus);
    EncodedFits(modulus, digest);
    ToBytesRestores(Encoded(Size(modulus), digest));
  }
}
