/** UTF-8 as section 3 of RFC 3629 defines it: every scalar value has one encoding, and the
    strict decoder accepts exactly the encodings. */
module Utf8 {

  type Byte = n: nat | n < 256

  predicate IsScalar(n: nat) {
    n < 0xD800 || 0xE000 <= n < 0x11_0000
  }

  /** A character that has a UTF-8 encoding: surrogates have none. */
  type Scalar = n: nat | IsScalar(n)

  type Text = seq<Scalar>

  /** A continuation byte holds the low six bits. */
  function Tail(n: nat): Byte {
    0x80 + n % 0x40
  }

  function EncodeOne(c: Scalar): (r: seq<Byte>)
    ensures 1 <= |r| <= 4
  {
    var q: nat := c / 0x40;
    if c < 0x80 then [c]
    else if c < 0x800 then [0xC0 + q, Tail(c)]
    else if c < 0x1_0000 then [0xE0 + q / 0x40, Tail(q), Tail(c)]
    else
      assert IsScalar(c);
      var lead: Byte := 0xF0 + q / 0x40 / 0x40;
      [lead, Tail(q / 0x40), Tail(q), Tail(c)]
  }

  function Encode(text: Text): seq<Byte> {
    if text == [] then [] else EncodeOne(text[0]) + Encode(text[1..])
  }

  predicate IsTail(b: Byte) {
    0x80 <= b < 0xC0
  }

  /** Shifts in the six bits of a continuation byte. */
  function Join(high: nat, b: Byte): nat
    requires IsTail(b)
  {
    high * 0x40 + (b - 0x80)
  }

  datatype Decoded = Malformed | Character(scalar: Scalar, length: nat)

  /** The first character of the bytes; overlong forms, surrogates and values beyond the
      last code point are malformed. */
  function DecodeFirst(bytes: seq<Byte>): (r: Decoded)
    ensures r.Character? ==> 1 <= r.length <= |bytes|
  {
    if bytes == [] then Malformed
    else
      var b: nat := bytes[0];
      if b < 0x80 then Character(b, 1)
      else if 0xC2 <= b < 0xE0 && |bytes| >= 2 && IsTail(bytes[1]) then Character(Join(b - 0xC0, bytes[1]), 2)
      else if 0xE0 <= b < 0xF0 && |bytes| >= 3 && IsTail(bytes[1]) && IsTail(bytes[2]) then
        var c := Join(Join(b - 0xE0, bytes[1]), bytes[2]);
        if c >= 0x800 && IsScalar(c) then Character(c, 3) else Malformed
      else if 0xF0 <= b < 0xF5 && |bytes| >= 4 && IsTail(bytes[1]) && IsTail(bytes[2]) && IsTail(bytes[3]) then
        var c := Join(Join(Join(b - 0xF0, bytes[1]), bytes[2]), bytes[3]);
        if c >= 0x1_0000 && IsScalar(c) then Character(c, 4) else Malformed
      else Malformed
  }

  datatype Decoding = Failed | Text(text: Text)

  function Decode(bytes: seq<Byte>): Decoding
    decreases |bytes|
  {
    if bytes == [] then Text([])
    else match DecodeFirst(bytes)
         case Malformed => Failed
         case Character(c, n) =>
           match Decode(bytes[n..])
           case Failed => Failed
           case Text(rest) => Text([c] + rest)
  }

  function Six(b: int): int {
    b - 0x80
  }

  /** The table of section 3 of RFC 3629: which values take how many bytes, what the first byte
      says, that the others hold six bits each, and that the bits make up the value. */
  lemma EncodedBits(c: Scalar)
    ensures var r := EncodeOne(c);
            && (|r| == 1 <==> c <= 0x7F) && (|r| == 2 <==> 0x80 <= c <= 0x7FF) && (|r| == 3 <==> 0x800 <= c <= 0xFFFF)
            && (forall i :: 0 < i < |r| ==> 0x80 <= r[i] < 0xC0)
            && var high: int := r[0];
               match |r|
               case 1 => c == high
               case 2 => 0xC0 <= high < 0xE0 && c == (high - 0xC0) * 0x40 + Six(r[1])
               case 3 => 0xE0 <= high < 0xF0 && c == (high - 0xE0) * 0x1000 + Six(r[1]) * 0x40 + Six(r[2])
               case _ => 0xF0 <= high < 0xF8
                         && c == (high - 0xF0) * 0x4_0000 + Six(r[1]) * 0x1000 + Six(r[2]) * 0x40 + Six(r[3])
  {
    assert IsScalar(c);
    var q: nat := c / 0x40;
    JoinTail(c);
    if c >= 0x800 {
      JoinTail(q);
    }
    if c >= 0x1_0000 {
      JoinTail(q / 0x40);
    }
  }

  // ----- the decoder inverts the encoder, and nothing else

  lemma JoinTail(n: nat)
    ensures IsTail(Tail(n)) && Join(n / 0x40, Tail(n)) == n
  {
  }

  lemma SplitJoin(high: nat, b: Byte)
    requires IsTail(b)
    ensures Join(high, b) / 0x40 == high && Tail(Join(high, b)) == b
  {
  }

  lemma DecodeFirstOfEncoded(c: Scalar, rest: seq<Byte>)
    ensures DecodeFirst(EncodeOne(c) + rest) == Character(c, |EncodeOne(c)|)
  {
    assert IsScalar(c);
    var q: nat, bytes := c / 0x40, EncodeOne(c) + rest;
    assert forall i :: 0 <= i < |EncodeOne(c)| ==> bytes[i] == EncodeOne(c)[i];
    JoinTail(c);
    if c >= 0x800 {
      JoinTail(q);
    }
    if c >= 0x1_0000 {
      JoinTail(q / 0x40);
      assert 0x400 <= q < 0x4400 && 0x10 <= q / 0x40 < 0x110;
    }
  }

  /** A character cut short does not decode. */
  lemma CutShortIsMalformed(c: Scalar, k: nat)
    requires 0 < k < |EncodeOne(c)|
    ensures DecodeFirst(EncodeOne(c)[..k]) == Malformed
  {
  }

  lemma DecodedFirstEncodes(bytes: seq<Byte>)
    requires DecodeFirst(bytes).Character?
    ensures bytes[..DecodeFirst(bytes).length] == EncodeOne(DecodeFirst(bytes).scalar)
  {
    var b, n := bytes[0], DecodeFirst(bytes).length;
    if n == 2 {
      SplitJoin(b - 0xC0, bytes[1]);
    } else if n == 3 {
      SplitJoin(b - 0xE0, bytes[1]);
      SplitJoin(Join(b - 0xE0, bytes[1]), bytes[2]);
    } else if n == 4 {
      SplitJoin(b - 0xF0, bytes[1]);
      SplitJoin(Join(b - 0xF0, bytes[1]), bytes[2]);
      SplitJoin(Join(Join(b - 0xF0, bytes[1]), bytes[2]), bytes[3]);
    }
  }

  lemma {:induction false} DecodeEncode(text: Text)
    ensures Decode(Encode(text)) == Text(text)
    decreases |text|
  {
    if text != [] {
      var first, rest := EncodeOne(text[0]), Encode(text[1..]);
      DecodeFirstOfEncoded(text[0], rest);
      assert (first + rest)[|first|..] == rest;
      DecodeEncode(text[1..]);
      assert text == [text[0]] + text[1..];
    }
  }

  lemma EncodeFirst(c: Scalar, rest: Text)
    ensures Encode([c] + rest) == EncodeOne(c) + Encode(rest)
  {
    assert ([c] + rest)[1..] == rest;
  }

  lemma {:induction false} EncodeDecode(bytes: seq<Byte>)
    requires Decode(bytes).Text?
    ensures Encode(Decode(bytes).text) == bytes
    decreases |bytes|
  {
    if bytes != [] {
      var c, n := DecodeFirst(bytes).scalar, DecodeFirst(bytes).length;
      var rest := Decode(bytes[n..]).text;
      EncodeDecode(bytes[n..]);
      EncodeDecoded(bytes, rest);
    }
  }

  lemma EncodeDecoded(bytes: seq<Byte>, rest: Text)
    requires DecodeFirst(bytes).Character? && Encode(rest) == bytes[DecodeFirst(bytes).length..]
    ensures Encode([DecodeFirst(bytes).scalar] + rest) == bytes
  {
    DecodedFirstEncodes(bytes);
    EncodeFirst(DecodeFirst(bytes).scalar, rest);
    assert bytes == bytes[..DecodeFirst(bytes).length] + bytes[DecodeFirst(bytes).length..];
  }

  // ----- lengths

  function Size(text: Text): nat {
    |Encode(text)|
  }

  lemma {:induction false} EncodeConcat(a: Text, b: Text)
    ensures Encode(a + b) == Encode(a) + Encode(b)
    decreases |a|
  {
    if a == [] {
      assert a + b == b;
    } else {
      EncodeConcat(a[1..], b);
      assert a + b == [a[0]] + (a[1..] + b);
      EncodeFirst(a[0], a[1..] + b);
      Associative(EncodeOne(a[0]), Encode(a[1..]), Encode(b));
    }
  }

  lemma Associative(a: seq<Byte>, b: seq<Byte>, c: seq<Byte>)
    ensures a + (b + c) == (a + b) + c
  {
  }

  lemma SizeConcat(a: Text, b: Text)
    ensures Size(a + b) == Size(a) + Size(b)
  {
    EncodeConcat(a, b);
  }

  lemma SizeOfPrefix(text: Text, i: nat, j: nat)
    requires i <= j <= |text|
    ensures Encode(text[..j]) == Encode(text[..i]) + Encode(text[i..j]) && Size(text[..i]) + (j - i) <= Size(text[..j])
  {
    assert text[..j] == text[..i] + text[i..j];
    EncodeConcat(text[..i], text[i..j]);
    AtLeastOneByteEach(text[i..j]);
  }

  lemma {:induction false} AtLeastOneByteEach(text: Text)
    ensures |text| <= Size(text)
  {
    if text != [] {
      AtLeastOneByteEach(text[1..]);
    }
  }

  // ----- cutting an encoding

  /** Position `k` of the encoding lies between two characters, the first `j` of them before it. */
  ghost predicate Aligned(text: Text, k: nat, j: nat) {
    j <= |text| && Size(text[..j]) == k
  }

  ghost predicate EndsBetween(text: Text, k: nat) {
    exists j: nat :: Aligned(text, k, j)
  }

  /** A prefix of an encoding decodes exactly when it ends between two characters, and then
      to the characters before that point. */
  lemma {:induction false} PrefixDecodesIffAligned(text: Text, k: nat)
    requires k <= Size(text)
    ensures Decode(Encode(text)[..k]).Text? <==> EndsBetween(text, k)
    ensures forall j: nat :: Aligned(text, k, j) ==> Decode(Encode(text)[..k]) == Text(text[..j])
    decreases |text|
  {
    if k == 0 {
      assert Aligned(text, 0, 0);
      forall j: nat | Aligned(text, k, j) ensures text[..j] == [] {
        AtLeastOneByteEach(text[..j]);
      }
    } else if k < |EncodeOne(text[0])| {
      CutInsideFirst(text, k);
    } else {
      PrefixDecodesIffAligned(text[1..], k - |EncodeOne(text[0])|);
      CutAfterFirst(text, k, k - |EncodeOne(text[0])|);
    }
  }

  lemma SizeFromFirst(text: Text, j: nat)
    requires 0 < j <= |text|
    ensures Size(text[..j]) == |EncodeOne(text[0])| + Size(text[1..][..j - 1])
  {
    assert text[..j][1..] == text[1..][..j - 1];
  }

  lemma CutInsideFirst(text: Text, k: nat)
    requires text != [] && 0 < k < |EncodeOne(text[0])|
    ensures Decode(Encode(text)[..k]) == Failed && forall j: nat :: !Aligned(text, k, j)
  {
    assert Encode(text)[..k] == EncodeOne(text[0])[..k];
    CutShortIsMalformed(text[0], k);
    forall j: nat | 0 < j <= |text| ensures !Aligned(text, k, j) {
      SizeFromFirst(text, j);
    }
    assert text[..0] == [];
  }

  lemma AlignedAfterFirst(text: Text, k: nat, m: nat)
    requires text != [] && k == |EncodeOne(text[0])| + m
    ensures forall j: nat :: Aligned(text, k, j) ==> j > 0 && Aligned(text[1..], m, j - 1)
    ensures EndsBetween(text, k) <==> EndsBetween(text[1..], m)
  {
    forall j: nat | Aligned(text, k, j) ensures j > 0 && Aligned(text[1..], m, j - 1) {
      assert text[..0] == [];
      SizeFromFirst(text, j);
    }
    if EndsBetween(text[1..], m) {
      var j: nat :| Aligned(text[1..], m, j);
      SizeFromFirst(text, j + 1);
      assert Aligned(text, k, j + 1);
    }
  }

  lemma CutAfterFirst(text: Text, k: nat, m: nat)
    requires text != [] && k == |EncodeOne(text[0])| + m && k <= Size(text)
    requires Decode(Encode(text[1..])[..m]).Text? <==> EndsBetween(text[1..], m)
    requires forall j: nat :: Aligned(text[1..], m, j) ==> Decode(Encode(text[1..])[..m]) == Text(text[1..][..j])
    ensures Decode(Encode(text)[..k]).Text? <==> EndsBetween(text, k)
    ensures forall j: nat :: Aligned(text, k, j) ==> Decode(Encode(text)[..k]) == Text(text[..j])
  {
    DecodeRest(text, k, Encode(text[1..])[..m]);
    AlignedAfterFirst(text, k, m);
    forall j: nat | Aligned(text, k, j) ensures Decode(Encode(text)[..k]) == Text(text[..j]) {
      assert Aligned(text[1..], m, j - 1);
      assert text[..j] == [text[0]] + text[1..][..j - 1];
    }
  }

  lemma DecodeRest(text: Text, k: nat, rest: seq<Byte>)
    requires text != [] && |EncodeOne(text[0])| <= k <= Size(text)
    requires rest == Encode(text[1..])[..k - |EncodeOne(text[0])|]
    ensures Decode(Encode(text)[..k])
            == match Decode(rest)
               case Failed => Failed
               case Text(more) => Text([text[0]] + more)
  {
    var first := EncodeOne(text[0]);
    assert Encode(text)[..k] == first + rest;
    DecodeFirstOfEncoded(text[0], rest);
    assert (first + rest)[|first|..] == rest;
  }
}
