/** UTF-16 to UTF-8 in `sdk/core/src/sha256.ts`, and its length in
    `sdk/weapp/src/transport.ts`, against a decoder for section 3 of RFC 3629. */
module Utf8 {
  import opened Prelude

  type Unit = bv16
  type Scalar = bv32
  type Byte = bv8

  predicate High(u: Unit) {
    0xd800 <= u <= 0xdbff
  }

  predicate Low(u: Unit) {
    0xdc00 <= u <= 0xdfff
  }

  predicate IsScalar(cp: Scalar) {
    cp < 0xd800 || 0xe000 <= cp <= 0x10ffff
  }

  // ---------------------------------------------------- the standard's decoder

  predicate Tail(b: Byte) {
    0x80 <= b <= 0xbf
  }

  function Two(b0: Byte, b1: Byte): Scalar {
    ((b0 & 0x1f) as Scalar << 6) | (b1 & 0x3f) as Scalar
  }

  function Three(b0: Byte, b1: Byte, b2: Byte): Scalar {
    ((b0 & 0x0f) as Scalar << 12) | ((b1 & 0x3f) as Scalar << 6) | (b2 & 0x3f) as Scalar
  }

  function Four(b0: Byte, b1: Byte, b2: Byte, b3: Byte): Scalar {
    ((b0 & 0x07) as Scalar << 18) | ((b1 & 0x3f) as Scalar << 12) | ((b2 & 0x3f) as Scalar << 6) | (b3 & 0x3f) as Scalar
  }

  /** The second byte's range depends on the first: no overlong forms, no
      surrogates, nothing past U+10FFFF. */
  predicate SecondOfThree(b0: Byte, b1: Byte) {
    if b0 == 0xe0 then 0xa0 <= b1 <= 0xbf else if b0 == 0xed then 0x80 <= b1 <= 0x9f else Tail(b1)
  }

  predicate SecondOfFour(b0: Byte, b1: Byte) {
    if b0 == 0xf0 then 0x90 <= b1 <= 0xbf else if b0 == 0xf4 then 0x80 <= b1 <= 0x8f else Tail(b1)
  }

  /** The first character and how many bytes it takes; none when they are not UTF-8. */
  function First(bytes: seq<Byte>): Option<(Scalar, nat)> {
    if bytes == [] then None
    else if bytes[0] <= 0x7f then Some((bytes[0] as Scalar, 1))
    else if 0xc2 <= bytes[0] <= 0xdf then
      if |bytes| > 1 && Tail(bytes[1]) then Some((Two(bytes[0], bytes[1]), 2)) else None
    else if 0xe0 <= bytes[0] <= 0xef then
      if |bytes| > 2 && SecondOfThree(bytes[0], bytes[1]) && Tail(bytes[2])
      then Some((Three(bytes[0], bytes[1], bytes[2]), 3)) else None
    else if 0xf0 <= bytes[0] <= 0xf4 then
      if |bytes| > 3 && SecondOfFour(bytes[0], bytes[1]) && Tail(bytes[2]) && Tail(bytes[3])
      then Some((Four(bytes[0], bytes[1], bytes[2], bytes[3]), 4)) else None
    else None
  }

  /** The characters of a byte string, or none when it is not well-formed UTF-8. */
  function Decode(bytes: seq<Byte>): Option<seq<Scalar>>
    decreases |bytes|
  {
    if bytes == [] then Some([])
    else
      match First(bytes)
      case None => None
      case Some((cp, n)) =>
        if n > |bytes| || n == 0 then None
        else
          match Decode(bytes[n..])
          case None => None
          case Some(rest) => Some([cp] + rest)
  }

  // ------------------------------------------------------------------ encoding

  /** A byte of six bits, below a lead byte. */
  function Continuation(x: Scalar): Byte {
    (0x80 | (x & 0x3f)) as Byte
  }

  function Lead4(cp: Scalar): Byte
    requires cp <= 0x10ffff
  {
    (0xf0 | (cp >> 18)) as Byte
  }

  function Encode1(cp: Scalar): seq<Byte>
    requires cp <= 0x10ffff
  {
    if cp < 0x80 then [cp as Byte]
    else if cp < 0x800 then [(0xc0 | (cp >> 6)) as Byte, Continuation(cp)]
    else if cp < 0x10000 then
      [(0xe0 | (cp >> 12)) as Byte, Continuation(cp >> 6), Continuation(cp)]
    else
      [Lead4(cp), Continuation(cp >> 12), Continuation(cp >> 6), Continuation(cp)]
  }

  predicate AllScalars(cps: seq<Scalar>) {
    cps == [] || (IsScalar(cps[0]) && AllScalars(cps[1..]))
  }

  function Encode(cps: seq<Scalar>): seq<Byte>
    requires AllScalars(cps)
  {
    if cps == [] then [] else Encode1(cps[0]) + Encode(cps[1..])
  }

  lemma {:induction false} Bits2(cp: Scalar)
    requires 0x80 <= cp < 0x800
    ensures var b0, b1 := (0xc0 | (cp >> 6)) as Byte, Continuation(cp);
      0xc2 <= b0 <= 0xdf && Tail(b1) && Two(b0, b1) == cp
  {
  }

  lemma {:induction false} Bits3(cp: Scalar)
    requires 0x800 <= cp < 0x10000 && IsScalar(cp)
    ensures var b0, b1, b2 := (0xe0 | (cp >> 12)) as Byte, Continuation(cp >> 6), Continuation(cp);
      0xe0 <= b0 <= 0xef && SecondOfThree(b0, b1) && Tail(b2) && Three(b0, b1, b2) == cp
  {
  }

  lemma {:induction false} Bits4Range(cp: Scalar)
    requires 0x10000 <= cp <= 0x10ffff
    ensures var b0, b1 := Lead4(cp), Continuation(cp >> 12);
      0xf0 <= b0 <= 0xf4 && SecondOfFour(b0, b1)
  {
  }

  lemma {:induction false} Bits4Tail(x: Scalar)
    ensures Tail(Continuation(x)) && (Continuation(x) & 0x3f) as Scalar == x & 0x3f
  {
  }

  lemma {:induction false} Bits4Head(cp: Scalar)
    requires 0x10000 <= cp <= 0x10ffff
    ensures (Lead4(cp) & 0x07) as Scalar == cp >> 18
  {
  }

  lemma {:induction false} FourPieces(b0: Byte, b1: Byte, b2: Byte, b3: Byte, p: Scalar, q: Scalar, r: Scalar,
                                      t: Scalar)
    requires (b0 & 0x07) as Scalar == p && (b1 & 0x3f) as Scalar == q && (b2 & 0x3f) as Scalar == r
        && (b3 & 0x3f) as Scalar == t
    ensures Four(b0, b1, b2, b3) == (p << 18) | (q << 12) | (r << 6) | t
  {
  }

  lemma {:induction false} Bits4Back(cp: Scalar, p: Scalar, q: Scalar, r: Scalar, t: Scalar)
    requires 0x10000 <= cp <= 0x10ffff
    requires p == cp >> 18 && q == (cp >> 12) & 0x3f && r == (cp >> 6) & 0x3f && t == cp & 0x3f
    ensures (p << 18) | (q << 12) | (r << 6) | t == cp
  {
  }

  lemma {:induction false} Bits4(cp: Scalar, b0: Byte, b1: Byte, b2: Byte, b3: Byte)
    requires 0x10000 <= cp <= 0x10ffff
    requires b0 == Lead4(cp) && b1 == Continuation(cp >> 12) && b2 == Continuation(cp >> 6) && b3 == Continuation(cp)
    ensures 0xf0 <= b0 <= 0xf4 && SecondOfFour(b0, b1) && Tail(b2) && Tail(b3) && Four(b0, b1, b2, b3) == cp
  {
    hide *;
    Bits4Range(cp);
    Bits4Head(cp);
    Bits4Tail(cp >> 12);
    Bits4Tail(cp >> 6);
    Bits4Tail(cp);
    var p, q, r, t := (b0 & 0x07) as Scalar, (b1 & 0x3f) as Scalar, (b2 & 0x3f) as Scalar, (b3 & 0x3f) as Scalar;
    Bits4Back(cp, p, q, r, t);
    FourPieces(b0, b1, b2, b3, p, q, r, t);
  }

  lemma {:induction false} FirstEncoded(cp: Scalar, rest: seq<Byte>)
    requires IsScalar(cp)
    ensures First(Encode1(cp) + rest) == Some((cp, |Encode1(cp)|))
  {
    if 0x80 <= cp < 0x800 { Bits2(cp); }
    else if 0x800 <= cp < 0x10000 { Bits3(cp); }
    else if 0x10000 <= cp { Bits4(cp, Lead4(cp), Continuation(cp >> 12), Continuation(cp >> 6), Continuation(cp)); }
  }

  /** Decoding inverts encoding, so everything encoded is well-formed. */
  lemma {:induction false} DecodeEncode(cps: seq<Scalar>)
    requires AllScalars(cps)
    ensures Decode(Encode(cps)) == Some(cps)
  {
    if cps != [] {
      FirstEncoded(cps[0], Encode(cps[1..]));
      DecodeEncode(cps[1..]);
      assert Encode(cps)[|Encode1(cps[0])|..] == Encode(cps[1..]);
      assert [cps[0]] + cps[1..] == cps;
    }
  }

  lemma {:induction false} Back2(b0: Byte, b1: Byte)
    requires 0xc2 <= b0 <= 0xdf && Tail(b1)
    ensures var cp := Two(b0, b1);
      0x80 <= cp < 0x800 && (0xc0 | (cp >> 6)) as Byte == b0 && Continuation(cp) == b1
  {
  }

  lemma {:induction false} Back3(b0: Byte, b1: Byte, b2: Byte)
    requires 0xe0 <= b0 <= 0xef && SecondOfThree(b0, b1) && Tail(b2)
    ensures var cp := Three(b0, b1, b2);
      && 0x800 <= cp < 0x10000 && IsScalar(cp)
      && (0xe0 | (cp >> 12)) as Byte == b0 && Continuation(cp >> 6) == b1 && Continuation(cp) == b2
  {
  }

  lemma {:induction false} Back4(b0: Byte, b1: Byte, b2: Byte, b3: Byte)
    requires 0xf0 <= b0 <= 0xf4 && SecondOfFour(b0, b1) && Tail(b2) && Tail(b3)
    ensures var cp := Four(b0, b1, b2, b3);
      && 0x10000 <= cp <= 0x10ffff
      && Lead4(cp) == b0 && Continuation(cp >> 12) == b1 && Continuation(cp >> 6) == b2 && Continuation(cp) == b3
  {
  }

  lemma {:induction false} Encodes3(cp: Scalar, b0: Byte, b1: Byte, b2: Byte)
    requires 0x800 <= cp < 0x10000
    requires (0xe0 | (cp >> 12)) as Byte == b0 && Continuation(cp >> 6) == b1 && Continuation(cp) == b2
    ensures Encode1(cp) == [b0, b1, b2]
  {
  }

  lemma {:induction false} Encodes4(cp: Scalar, b0: Byte, b1: Byte, b2: Byte, b3: Byte)
    requires 0x10000 <= cp <= 0x10ffff
    requires Lead4(cp) == b0 && Continuation(cp >> 12) == b1 && Continuation(cp >> 6) == b2 && Continuation(cp) == b3
    ensures Encode1(cp) == [b0, b1, b2, b3]
  {
  }

  lemma {:induction false} First1(bytes: seq<Byte>, cp: Scalar)
    requires First(bytes) == Some((cp, 1))
    ensures IsScalar(cp) && Encode1(cp) == bytes[..1]
  {
  }

  lemma {:induction false} First2(bytes: seq<Byte>, cp: Scalar)
    requires First(bytes) == Some((cp, 2))
    ensures IsScalar(cp) && Encode1(cp) == bytes[..2]
  {
    Back2(bytes[0], bytes[1]);
    assert bytes[..2] == [bytes[0], bytes[1]];
  }

  lemma {:induction false} First3(bytes: seq<Byte>, cp: Scalar)
    requires First(bytes) == Some((cp, 3))
    ensures IsScalar(cp) && Encode1(cp) == bytes[..3]
  {
    Back3(bytes[0], bytes[1], bytes[2]);
    Encodes3(cp, bytes[0], bytes[1], bytes[2]);
    assert bytes[..3] == [bytes[0], bytes[1], bytes[2]];
  }

  lemma {:induction false} Again4(b0: Byte, b1: Byte, b2: Byte, b3: Byte, cp: Scalar)
    requires 0xf0 <= b0 <= 0xf4 && SecondOfFour(b0, b1) && Tail(b2) && Tail(b3) && cp == Four(b0, b1, b2, b3)
    ensures IsScalar(cp) && Encode1(cp) == [b0, b1, b2, b3]
  {
    Back4(b0, b1, b2, b3);
    Encodes4(cp, b0, b1, b2, b3);
  }

  lemma {:induction false} First4(bytes: seq<Byte>, cp: Scalar)
    requires First(bytes) == Some((cp, 4))
    ensures IsScalar(cp) && Encode1(cp) == bytes[..4]
  {
    Again4(bytes[0], bytes[1], bytes[2], bytes[3], cp);
    assert bytes[..4] == [bytes[0], bytes[1], bytes[2], bytes[3]];
  }

  lemma {:induction false} FirstIsEncoded(bytes: seq<Byte>)
    requires First(bytes).Some?
    ensures var (cp, n) := First(bytes).value; IsScalar(cp) && 0 < n <= |bytes| && bytes[..n] == Encode1(cp)
  {
    var (cp, n) := First(bytes).value;
    if n == 1 { First1(bytes, cp); }
    else if n == 2 { First2(bytes, cp); }
    else if n == 3 { First3(bytes, cp); }
    else { First4(bytes, cp); }
  }

  /** And encoding inverts decoding: a well-formed byte string is the only one for
      its characters. */
  lemma {:induction false} EncodeDecode(bytes: seq<Byte>)
    requires Decode(bytes).Some?
    ensures AllScalars(Decode(bytes).value) && Encode(Decode(bytes).value) == bytes
    decreases |bytes|
  {
    hide First, Encode1, IsScalar;
    if bytes != [] {
      FirstIsEncoded(bytes);
      var (cp, n) := First(bytes).value;
      EncodeDecode(bytes[n..]);
      assert bytes == bytes[..n] + bytes[n..];
      assert ([cp] + Decode(bytes[n..]).value)[1..] == Decode(bytes[n..]).value;
    }
  }
}
