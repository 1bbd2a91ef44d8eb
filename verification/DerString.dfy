/**
 * The DER `UTF8String` decoder of src/adapters/crypto/sigstore.ts: definite lengths in their shortest form (section
 * 10.1 of ITU-T X.690), and content that survives a lossy UTF-8 decoding unchanged.
 */
module DerString {
  import opened Options

  type Byte = b: int | 0 <= b < 256

  /** A Unicode scalar value. */
  type Scalar = c: int | 0 <= c < 0x110000 && !(0xD800 <= c < 0xE000)

  // ----- UTF-8

  function EncodeScalar(c: Scalar): (bytes: seq<Byte>)
    ensures 1 <= |bytes| <= 4
  {
    if c < 0x80 then [c]
    else if c < 0x800 then [0xC0 + c / 0x40, 0x80 + c % 0x40]
    else if c < 0x10000 then [0xE0 + c / 0x1000, 0x80 + c / 0x40 % 0x40, 0x80 + c % 0x40]
    else [0xF0 + c / 0x40000, 0x80 + c / 0x1000 % 0x40, 0x80 + c / 0x40 % 0x40, 0x80 + c % 0x40]
  }

  function EncodeUtf8(text: seq<Scalar>): seq<Byte> {
    if text == [] then [] else EncodeScalar(text[0]) + EncodeUtf8(text[1..])
  }

  predicate IsTrail(b: Byte) {
    0x80 <= b < 0xC0
  }

  /** How many bytes a lead byte announces; 0 for a byte that cannot lead. */
  function Announces(lead: Byte): nat {
    if lead < 0x80 then 1
    else if 0xC2 <= lead < 0xE0 then 2
    else if 0xE0 <= lead < 0xF0 then 3
    else if 0xF0 <= lead < 0xF5 then 4
    else 0
  }

  /** The second byte excludes overlong forms, surrogates and values past U+10FFFF. */
  predicate SecondFits(lead: Byte, second: Byte) {
    && IsTrail(second)
    && (lead == 0xE0 ==> second >= 0xA0)
    && (lead == 0xED ==> second < 0xA0)
    && (lead == 0xF0 ==> second >= 0x90)
    && (lead == 0xF4 ==> second < 0x90)
  }

  /** A well-formed sequence starts here. */
  predicate Leads(bytes: seq<Byte>) {
    && bytes != []
    && var n := Announces(bytes[0]);
    && 1 <= n <= |bytes|
    && (n > 1 ==> SecondFits(bytes[0], bytes[1]))
    && (n > 2 ==> IsTrail(bytes[2]))
    && (n > 3 ==> IsTrail(bytes[3]))
  }

  function HeadScalar(bytes: seq<Byte>): Scalar
    requires Leads(bytes)
  {
    var n := Announces(bytes[0]);
    var lead: int := bytes[0];
    if n == 1 then lead
    else if n == 2 then (lead - 0xC0) * 0x40 + Low(bytes[1])
    else if n == 3 then (lead - 0xE0) * 0x1000 + Low(bytes[1]) * 0x40 + Low(bytes[2])
    else (lead - 0xF0) * 0x40000 + Low(bytes[1]) * 0x1000 + Low(bytes[2]) * 0x40 + Low(bytes[3])
  }

  /** The six bits a continuation byte carries. */
  function Low(b: Byte): int {
    b - 0x80
  }

  /** The maximal part of a malformed sequence that one replacement character stands for. */
  function Malformed(bytes: seq<Byte>): (n: nat)
    requires bytes != [] && !Leads(bytes)
    ensures 1 <= n <= |bytes|
  {
    var n := Announces(bytes[0]);
    if n < 2 || |bytes| < 2 || !SecondFits(bytes[0], bytes[1]) then 1
    else if n == 2 || |bytes| < 3 || !IsTrail(bytes[2]) then 2
    else 3
  }

  const REPLACEMENT: Scalar := 0xFFFD

  /** `bytes.toString('utf8')`: malformed parts become U+FFFD. */
  function DecodeUtf8(bytes: seq<Byte>): seq<Scalar> {
    if bytes == [] then []
    else if Leads(bytes) then [HeadScalar(bytes)] + DecodeUtf8(bytes[Announces(bytes[0])..])
    else [REPLACEMENT] + DecodeUtf8(bytes[Malformed(bytes)..])
  }

  predicate ValidUtf8(bytes: seq<Byte>) {
    bytes == [] || (Leads(bytes) && ValidUtf8(bytes[Announces(bytes[0])..]))
  }

  lemma EncodedLeads(c: Scalar, rest: seq<Byte>)
    ensures
      var bytes := EncodeScalar(c) + rest;
      Leads(bytes) && Announces(bytes[0]) == |EncodeScalar(c)| && HeadScalar(bytes) == c
      && bytes[Announces(bytes[0])..] == rest
  {
    assert (EncodeScalar(c) + rest)[|EncodeScalar(c)|..] == rest;
    if c < 0x80 {
    } else if c < 0x800 {
    } else if c < 0x10000 {
      ThreeDigits(c);
    } else {
      FourDigits(c);
    }
  }

  /** Dividing twice by 64 is dividing by 4096. */
  lemma DivideTwice(c: int)
    requires 0 <= c
    ensures c / 0x40 / 0x40 == c / 0x1000
    ensures c == c / 0x40 * 0x40 + c % 0x40
  {
    var q := c / 0x40;
    var r, high, low := c % 0x40, q / 0x40, q % 0x40;
    assert c == q * 0x40 + r && q == high * 0x40 + low;
    assert c == high * 0x1000 + (low * 0x40 + r) && 0 <= low * 0x40 + r < 0x1000;
  }

  lemma ThreeDigits(c: int)
    requires 0 <= c
    ensures c == c / 0x1000 * 0x1000 + c / 0x40 % 0x40 * 0x40 + c % 0x40
  {
    DivideTwice(c);
    DivideTwice(c / 0x40);
  }

  lemma FourDigits(c: int)
    requires 0 <= c
    ensures c == c / 0x40000 * 0x40000 + c / 0x1000 % 0x40 * 0x1000 + c / 0x40 % 0x40 * 0x40 + c % 0x40
  {
    var q := c / 0x1000;
    var high, low := q / 0x40, q % 0x40;
    ThreeDigits(c);
    assert q == high * 0x40 + low;
    var r := c - q * 0x1000;
    assert c == high * 0x40000 + (low * 0x1000 + r) && 0 <= low * 0x1000 + r < 0x40000;
  }

  /** Positional notation in base 64. */
  lemma Digits64(high: int, low: int)
    requires 0 <= low < 0x40
    ensures (high * 0x40 + low) / 0x40 == high && (high * 0x40 + low) % 0x40 == low
  {
  }

  lemma ThreeParts(a: int, b: int, c: int)
    requires 0 <= a && 0 <= b < 0x40 && 0 <= c < 0x40
    ensures
      var n := a * 0x1000 + b * 0x40 + c;
      n / 0x1000 == a && n / 0x40 % 0x40 == b && n % 0x40 == c
  {
    Digits64(a * 0x40 + b, c);
    Digits64(a, b);
  }

  lemma FourParts(a: int, b: int, c: int, d: int)
    requires 0 <= a && 0 <= b < 0x40 && 0 <= c < 0x40 && 0 <= d < 0x40
    ensures
      var n := a * 0x40000 + b * 0x1000 + c * 0x40 + d;
      n / 0x40000 == a && n / 0x1000 % 0x40 == b && n / 0x40 % 0x40 == c && n % 0x40 == d
  {
    Digits64(a * 0x1000 + b * 0x40 + c, d);
    ThreeParts(a, b, c);
  }

  lemma LeadingBytesAreEncoded(bytes: seq<Byte>)
    requires Leads(bytes)
    ensures EncodeScalar(HeadScalar(bytes)) == bytes[..Announces(bytes[0])]
  {
    var n := Announces(bytes[0]);
    if n == 1 {
      assert bytes[..1] == [bytes[0]];
    } else if n == 2 {
      Digits64(bytes[0] - 0xC0, Low(bytes[1]));
      assert bytes[..2] == [bytes[0], bytes[1]];
    } else if n == 3 {
      ThreeParts(bytes[0] - 0xE0, Low(bytes[1]), Low(bytes[2]));
      assert bytes[..3] == [bytes[0], bytes[1], bytes[2]];
    } else {
      FourParts(bytes[0] - 0xF0, Low(bytes[1]), Low(bytes[2]), Low(bytes[3]));
      assert bytes[..4] == [bytes[0], bytes[1], bytes[2], bytes[3]];
    }
  }

  /** Encoding is undone by decoding, and produces only well-formed bytes. */
  lemma {:induction false} EncodedIsDecoded(text: seq<Scalar>)
    ensures DecodeUtf8(EncodeUtf8(text)) == text && ValidUtf8(EncodeUtf8(text))
  {
    if text != [] {
      EncodedIsDecoded(text[1..]);
      EncodedLeads(text[0], EncodeUtf8(text[1..]));
    }
  }

  lemma LeadsAtLeastOne(bytes: seq<Byte>)
    requires Leads(bytes)
    ensures 1 <= Announces(bytes[0]) <= |bytes|
  {
  }

  /** A lossy decoding encodes back to the same bytes exactly when nothing was lost. */
  lemma {:induction false} LosslessIsValid(bytes: seq<Byte>)
    ensures EncodeUtf8(DecodeUtf8(bytes)) == bytes <==> ValidUtf8(bytes)
  {
    hide EncodeScalar, HeadScalar, Leads, Announces, Malformed;
    if bytes != [] {
      if Leads(bytes) {
        var n := Announces(bytes[0]);
        LeadsAtLeastOne(bytes);
        LosslessIsValid(bytes[n..]);
        LeadingBytesAreEncoded(bytes);
        assert bytes == bytes[..n] + bytes[n..];
        var again := EncodeUtf8(DecodeUtf8(bytes[n..]));
        assert EncodeUtf8(DecodeUtf8(bytes)) == bytes[..n] + again;
        assert (bytes[..n] + again)[n..] == again;
      } else {
        var more := EncodeUtf8(DecodeUtf8(bytes[Malformed(bytes)..]));
        assert EncodeUtf8(DecodeUtf8(bytes)) == EncodeScalar(REPLACEMENT) + more;
        EncodedLeads(REPLACEMENT, more);
      }
    }
  }

  // ----- lengths

  function BigEndian(octets: seq<Byte>): nat {
    if octets == [] then 0 else BigEndian(octets[..|octets| - 1]) * 256 + octets[|octets| - 1]
  }

  /** The fewest octets that hold `n`. */
  function Octets(n: nat): (octets: seq<Byte>)
    ensures octets != []
  {
    if n < 256 then [n] else Octets(n / 256) + [n % 256]
  }

  function Power256(k: nat): nat {
    if k == 0 then 1 else 256 * Power256(k - 1)
  }

  lemma {:induction false} OctetsHold(n: nat)
    ensures BigEndian(Octets(n)) == n
    ensures n > 0 ==> Octets(n)[0] != 0
  {
    if n < 256 {
      assert Octets(n)[..0] == [];
    } else {
      OctetsHold(n / 256);
      assert Octets(n)[..|Octets(n)| - 1] == Octets(n / 256);
    }
  }

  lemma {:induction false} OctetsAreShortest(octets: seq<Byte>)
    requires octets != [] && octets[0] != 0
    ensures Octets(BigEndian(octets)) == octets && BigEndian(octets) > 0
  {
    var n := |octets| - 1;
    assert octets == octets[..n] + [octets[n]];
    if n == 0 {
      assert BigEndian(octets[..0]) == 0;
    } else {
      OctetsAreShortest(octets[..n]);
      var high := BigEndian(octets[..n]);
      assert (high * 256 + octets[n]) / 256 == high && (high * 256 + octets[n]) % 256 == octets[n];
    }
  }

  lemma {:induction false} OctetsFit(n: nat, k: nat)
    requires k >= 1
    ensures n < Power256(k) <==> |Octets(n)| <= k
  {
    PowerPositive(k - 1);
    if n >= 256 {
      if k > 1 { OctetsFit(n / 256, k - 1); }
      assert n / 256 < Power256(k - 1) <==> n < 256 * Power256(k - 1);
    }
  }

  lemma {:induction false} PowerPositive(k: nat)
    ensures Power256(k) >= 1
  {
    if k > 0 { PowerPositive(k - 1); }
  }

  /** The shortest definite form: one octet below 128, a count and that many octets from there on. */
  function EncodeLength(n: nat): seq<Byte>
    requires n < Power256(4)
  {
    OctetsFit(n, 4);
    if n < 128 then [n] else [0x80 + |Octets(n)|] + Octets(n)
  }

  const UTF8_STRING: Byte := 0x0C

  /** Text whose encoding has a length of at most four octets. */
  predicate Encodable(text: seq<Scalar>) {
    |EncodeUtf8(text)| < Power256(4)
  }

  function EncodeDer(text: seq<Scalar>): seq<Byte>
    requires Encodable(text)
  {
    [UTF8_STRING] + EncodeLength(|EncodeUtf8(text)|) + EncodeUtf8(text)
  }

  // ----- the decoder

  /** What follows a shortest-form length that covers exactly the rest. */
  function Content(value: seq<Byte>): Option<seq<Byte>> {
    if |value| < 2 || value[0] != UTF8_STRING then None
    else if value[1] < 0x80 then if 2 + value[1] == |value| then Some(value[2..]) else None
    else
      var k := value[1] - 0x80;
      if k == 0 || k > 4 || |value| < 2 + k || value[2] == 0 then None
      else
        var length := BigEndian(value[2..2 + k]);
        if length < 128 || 2 + k + length != |value| then None else Some(value[2 + k..])
  }

  function Decode(value: seq<Byte>): Option<seq<Scalar>> {
    var bytes := Content(value);
    if bytes.None? || EncodeUtf8(DecodeUtf8(bytes.value)) != bytes.value then None
    else Some(DecodeUtf8(bytes.value))
  }

  lemma EncodedHasContent(length: nat, bytes: seq<Byte>)
    requires |bytes| == length < Power256(4)
    ensures Content([UTF8_STRING] + EncodeLength(length) + bytes) == Some(bytes)
  {
    var octets := Octets(length);
    var value := [UTF8_STRING] + EncodeLength(length) + bytes;
    OctetsFit(length, 4);
    if length < 128 {
      assert value[2..] == bytes;
    } else {
      OctetsHold(length);
      assert value[2..2 + |octets|] == octets;
      assert value[2 + |octets|..] == bytes;
    }
  }

  lemma ContentIsEncoded(value: seq<Byte>)
    requires Content(value).Some?
    ensures
      var bytes := Content(value).value;
      |bytes| < Power256(4) && value == [UTF8_STRING] + EncodeLength(|bytes|) + bytes
  {
    var bytes := Content(value).value;
    if value[1] < 0x80 {
      SmallLengths(value[1]);
      assert value == [UTF8_STRING] + [value[1]] + bytes;
    } else {
      var k := value[1] - 0x80;
      var octets := value[2..2 + k];
      assert octets[0] == value[2];
      OctetsAreShortest(octets);
      OctetsFit(|bytes|, 4);
      assert value == [UTF8_STRING] + ([0x80 + k] + octets) + bytes;
    }
  }

  lemma SmallLengths(n: nat)
    requires n < 128
    ensures n < Power256(4)
  {
    assert Power256(4) == 256 * Power256(3) && Power256(3) == 256 * Power256(2);
    assert Power256(2) == 256 * Power256(1) && Power256(1) == 256 * Power256(0);
  }

  /** Decoding undoes encoding, for every text whose length fits in four octets. */
  lemma EncodedDerIsDecoded(text: seq<Scalar>)
    requires Encodable(text)
    ensures Decode(EncodeDer(text)) == Some(text)
  {
    hide EncodeLength, Content, Power256;
    EncodedIsDecoded(text);
    EncodedHasContent(|EncodeUtf8(text)|, EncodeUtf8(text));
  }

  /**
   * The decoder accepts a byte string exactly when it is the tag, the one shortest definite length, and that many bytes
   * of well-formed UTF-8; encoding what it returns gives the very bytes back.
   */
  lemma DecodedDerIsEncoded(value: seq<Byte>, text: seq<Scalar>)
    ensures Decode(value) == Some(text) <==> Encodable(text) && value == EncodeDer(text)
  {
    hide EncodeLength, Content, Power256, EncodeUtf8, DecodeUtf8;
    if Decode(value) == Some(text) {
      ContentIsEncoded(value);
    }
    if Encodable(text) && value == EncodeDer(text) {
      EncodedDerIsDecoded(text);
    }
  }

  /** Acceptance, without mentioning the text. */
  lemma AcceptsShortestValidOnly(value: seq<Byte>)
    ensures Decode(value).Some?
            <==> exists bytes :: |bytes| < Power256(4) && ValidUtf8(bytes)
                                 && value == [UTF8_STRING] + EncodeLength(|bytes|) + bytes
  {
    hide EncodeLength, Content, Power256, EncodeUtf8, DecodeUtf8, ValidUtf8;
    if Content(value).Some? {
      ContentIsEncoded(value);
      LosslessIsValid(Content(value).value);
    }
    if bytes :| |bytes| < Power256(4) && ValidUtf8(bytes) && value == [UTF8_STRING] + EncodeLength(|bytes|) + bytes {
      EncodedHasContent(|bytes|, bytes);
      LosslessIsValid(bytes);
    }
  }

  /** `decodeDerUtf8String` */
  method DecodeDerUtf8String(value: seq<Byte>) returns (decoded: Option<seq<Scalar>>)
    ensures decoded == Decode(value)
  {
    hide EncodeUtf8, DecodeUtf8;
    if |value| < 2 || value[0] != UTF8_STRING { return None; }
    var offset, length := 2, value[1];
    if value[1] >= 0x80 {
      var lengthBytes := value[1] - 0x80;
      if lengthBytes == 0 || lengthBytes > 4 || |value| < offset + lengthBytes || value[offset] == 0 { return None; }
      var total: nat := 0;
      for index := 0 to lengthBytes
        invariant total == BigEndian(value[2..2 + index])
      {
        assert value[2..2 + index + 1][..index] == value[2..2 + index];
        total := total * 256 + value[offset + index];
      }
      if total < 128 { return None; }
      offset := offset + lengthBytes;
      if offset + total != |value| { return None; }
    } else if offset + length != |value| {
      return None;
    }
    var bytes := value[offset..];
    var text := DecodeUtf8(bytes);
    return if EncodeUtf8(text) == bytes then Some(text) else None;
  }
}
