/** UTF-8 as section 3 of RFC 3629 defines it, with the strict decoder of its section 4 grammar. */
module Utf8 {
  import opened Basics

  predicate IsSurrogate(c: CodePoint) {
    0xD800 <= c <= 0xDFFF
  }

  /** `text.encode("utf-8")` succeeds exactly on texts without surrogates. */
  predicate Encodable(t: Text) {
    forall i :: 0 <= i < |t| ==> !IsSurrogate(t[i])
  }

  function EncodePoint(c: CodePoint): (b: bytes)
    ensures 1 <= |b| <= 4
    ensures c < 0x80 <==> b[0] < 0x80
    ensures c < 0x80 ==> b == [c]
    ensures c >= 0x80 ==> forall i :: 0 <= i < |b| ==> b[i] >= 0x80
  {
    if c < 0x80 then [c]
    else if c < 0x800 then [0xC0 + c / 0x40, 0x80 + c % 0x40]
    else if c < 0x10000 then [0xE0 + c / 0x1000, 0x80 + c / 0x40 % 0x40, 0x80 + c % 0x40]
    else [0xF0 + c / 0x40000, 0x80 + c / 0x1000 % 0x40, 0x80 + c / 0x40 % 0x40, 0x80 + c % 0x40]
  }

  function Encode(t: Text): (b: bytes) {
    if t == [] then [] else EncodePoint(t[0]) + Encode(t[1..])
  }

  predicate IsTail(b: byte) {
    0x80 <= b <= 0xBF
  }

  /** The code point that the tail bytes spell below the bits `lead` of the first byte. */
  function Join2(lead: int, x: int): int {
    lead * 0x40 + (x - 0x80)
  }

  /** The first code point of `b` and the number of bytes it takes; None where the strict decoder fails. */
  function DecodePoint(b: bytes): (r: Option<(CodePoint, nat)>)
    requires b != []
    ensures r.Some? ==> 1 <= r.value.1 <= |b|
  {
    var lead: int := b[0];
    if lead < 0x80 then Some((lead, 1))
    else if 0xC2 <= lead <= 0xDF && |b| >= 2 && IsTail(b[1]) then
      Some((Join2(lead - 0xC0, b[1]), 2))
    else if 0xE0 <= lead <= 0xEF && |b| >= 3 && IsTail(b[1]) && IsTail(b[2])
            && (lead == 0xE0 ==> b[1] >= 0xA0) && (lead == 0xED ==> b[1] <= 0x9F) then
      Some((Join2(Join2(lead - 0xE0, b[1]), b[2]), 3))
    else if 0xF0 <= lead <= 0xF4 && |b| >= 4 && IsTail(b[1]) && IsTail(b[2]) && IsTail(b[3])
            && (lead == 0xF0 ==> b[1] >= 0x90) && (lead == 0xF4 ==> b[1] <= 0x8F) then
      Some((Join2(Join2(Join2(lead - 0xF0, b[1]), b[2]), b[3]), 4))
    else None
  }

  /** `body.decode("utf-8")`; None stands for UnicodeDecodeError. */
  function Decode(b: bytes): (r: Option<Text>)
    decreases |b|
  {
    if b == [] then Some([])
    else match DecodePoint(b)
      case None => None
      case Some((c, n)) =>
        match Decode(b[n..])
        case None => None
        case Some(t) => Some([c] + t)
  }

  lemma {:induction false} Split2(c: int)
    requires c >= 0
    ensures Join2(c / 0x40, 0x80 + c % 0x40) == c
  {
  }

  lemma {:induction false} TwoBytes(c: CodePoint, b: bytes)
    requires 0x80 <= c < 0x800 && EncodePoint(c) <= b
    ensures DecodePoint(b) == Some((c, 2))
  {
    Split2(c);
    assert b[0] == EncodePoint(c)[0] && b[1] == EncodePoint(c)[1];
  }

  lemma {:induction false} ThreeBytes(c: CodePoint, b: bytes)
    requires 0x800 <= c < 0x10000 && !IsSurrogate(c) && EncodePoint(c) <= b
    ensures DecodePoint(b) == Some((c, 3))
  {
    var x, y := 0x80 + c / 0x40 % 0x40, 0x80 + c % 0x40;
    assert b[0] == 0xE0 + c / 0x1000 && b[1] == x && b[2] == y by {
      assert EncodePoint(c) == [0xE0 + c / 0x1000, x, y];
    }
    Split2(c);
    Split2(c / 0x40);
    assert c / 0x40 / 0x40 == c / 0x1000;
    hide Join2, EncodePoint;
  }

  lemma {:induction false} FourBytes(c: CodePoint, b: bytes)
    requires 0x10000 <= c && EncodePoint(c) <= b
    ensures DecodePoint(b) == Some((c, 4))
  {
    var lead, x, y, z := 0xF0 + c / 0x40000, 0x80 + c / 0x1000 % 0x40, 0x80 + c / 0x40 % 0x40, 0x80 + c % 0x40;
    assert b[0] == lead && b[1] == x && b[2] == y && b[3] == z by { assert EncodePoint(c) == [lead, x, y, z]; }
    Split2(c);
    Split2(c / 0x40);
    Split2(c / 0x1000);
    assert c / 0x40 / 0x40 == c / 0x1000 && c / 0x1000 / 0x40 == c / 0x40000;
    hide Join2, EncodePoint;
  }

  /** Decoding any encoded code point, whatever follows it. */
  lemma {:induction false} DecodePointOfEncoded(c: CodePoint, rest: bytes)
    requires !IsSurrogate(c)
    ensures DecodePoint(EncodePoint(c) + rest) == Some((c, |EncodePoint(c)|))
  {
    hide DecodePoint;
    var b := EncodePoint(c) + rest;
    if c < 0x80 { OneByte(c, b); }
    else if c < 0x800 { TwoBytes(c, b); }
    else if c < 0x10000 { ThreeBytes(c, b); }
    else { FourBytes(c, b); }
  }

  lemma {:induction false} OneByte(c: CodePoint, b: bytes)
    requires c < 0x80 && EncodePoint(c) <= b
    ensures DecodePoint(b) == Some((c, 1))
  {
    assert b[0] == EncodePoint(c)[0];
  }

  lemma {:induction false} Join2Parts(lead: int, x: int)
    requires 0 <= lead && 0x80 <= x <= 0xBF
    ensures Join2(lead, x) / 0x40 == lead && Join2(lead, x) % 0x40 == x - 0x80
  {
  }

  lemma {:induction false} FromTwo(b: bytes)
    requires b != [] && DecodePoint(b).Some? && DecodePoint(b).value.1 == 2
    ensures var c := DecodePoint(b).value.0; !IsSurrogate(c) && b[..2] == EncodePoint(c)
  {
    Join2Parts(b[0] as int - 0xC0, b[1]);
    assert EncodePoint(DecodePoint(b).value.0) == [b[0], b[1]];
  }

  lemma {:induction false} FromThree(b: bytes)
    requires b != [] && DecodePoint(b).Some? && DecodePoint(b).value.1 == 3
    ensures var c := DecodePoint(b).value.0; !IsSurrogate(c) && b[..3] == EncodePoint(c)
  {
    var c := DecodePoint(b).value.0;
    var high := Join2(b[0] as int - 0xE0, b[1]);
    Join2Parts(b[0] as int - 0xE0, b[1]);
    Join2Parts(high, b[2]);
    assert c / 0x1000 == c / 0x40 / 0x40;
    assert EncodePoint(c) == [b[0], b[1], b[2]];
  }

  lemma {:induction false} FromFour(b: bytes)
    requires b != [] && DecodePoint(b).Some? && DecodePoint(b).value.1 == 4
    ensures var c := DecodePoint(b).value.0; !IsSurrogate(c) && b[..4] == EncodePoint(c)
  {
    var c := DecodePoint(b).value.0;
    var top := Join2(b[0] as int - 0xF0, b[1]);
    var high := Join2(top, b[2]);
    Join2Parts(b[0] as int - 0xF0, b[1]);
    Join2Parts(top, b[2]);
    Join2Parts(high, b[3]);
    assert c / 0x1000 == c / 0x40 / 0x40 && c / 0x40000 == c / 0x1000 / 0x40;
    assert EncodePoint(c) == [b[0], b[1], b[2], b[3]];
  }

  lemma {:induction false} DecodedPointIsEncoding(b: bytes)
    requires b != [] && DecodePoint(b).Some?
    ensures var (c, n) := DecodePoint(b).value; !IsSurrogate(c) && b[..n] == EncodePoint(c)
  {
    var n := DecodePoint(b).value.1;
    assert 1 <= n <= 4;
    if n == 2 { FromTwo(b); }
    else if n == 3 { FromThree(b); }
    else if n == 4 { FromFour(b); }
  }

  lemma {:induction false} DecodeCons(b: bytes)
    requires b != []
    ensures Decode(b).Some? <==> DecodePoint(b).Some? && Decode(b[DecodePoint(b).value.1..]).Some?
    ensures Decode(b).Some? ==>
              Decode(b).value == [DecodePoint(b).value.0] + Decode(b[DecodePoint(b).value.1..]).value
  {
  }

  /** Decoding undoes encoding. */
  lemma {:induction false} DecodeEncode(t: Text)
    requires Encodable(t)
    ensures Decode(Encode(t)) == Some(t)
  {
    if t != [] {
      hide DecodePoint, EncodePoint, Decode;
      var b := Encode(t);
      DecodePointOfEncoded(t[0], Encode(t[1..]));
      assert b[|EncodePoint(t[0])|..] == Encode(t[1..]);
      DecodeEncode(t[1..]);
      DecodeCons(b);
      assert [t[0]] + t[1..] == t;
    }
  }

  lemma {:induction false} EncodeCons(c: CodePoint, t: Text)
    ensures Encode([c] + t) == EncodePoint(c) + Encode(t)
    ensures !IsSurrogate(c) && Encodable(t) ==> Encodable([c] + t)
  {
    assert ([c] + t)[1..] == t;
  }

  /** The decoder accepts nothing but encodings, so overlong forms and surrogates are refused. */
  lemma {:induction false} EncodeDecode(b: bytes)
    requires Decode(b).Some?
    ensures Encodable(Decode(b).value) && Encode(Decode(b).value) == b
    decreases |b|
  {
    if b != [] {
      DecodeCons(b);
      hide DecodePoint, EncodePoint, Decode, Encode, Encodable, IsSurrogate;
      var (c, n) := DecodePoint(b).value;
      DecodedPointIsEncoding(b);
      EncodeDecode(b[n..]);
      EncodeCons(c, Decode(b[n..]).value);
      assert b == b[..n] + b[n..];
    }
  }

  lemma {:induction false} EncodeNewlineFree(t: Text)
    requires NEWLINE !in t
    ensures NEWLINE !in Encode(t)
  {
    if t != [] {
      EncodeNewlineFree(t[1..]);
    }
  }

  lemma {:induction false} EncodeAsciiLength(t: Text)
    requires forall i :: 0 <= i < |t| ==> t[i] < 0x80
    ensures |Encode(t)| == |t|
  {
    if t != [] {
      EncodeAsciiLength(t[1..]);
    }
  }
}
