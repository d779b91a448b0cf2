/** `sha256Hex` in `sdk/core/src/sha256.ts`: JavaScript numbers, typed arrays and
    shifts, proved to compute FIPS 180-4. */
module Sha256Js {
  import opened Prelude
  import opened Words
  import opened Sha256
  import Utf8
  import Utf16

  // ------------------------------------------------------ numbers for words

  function JsRotr(x: int, n: nat): int
    requires n <= 32
  {
    JsOr(JsUshr(x, n), JsShl(x, 32 - n))
  }

  function JsXor3(x: int, y: int, z: int): int {
    JsXor(JsXor(x, y), z)
  }

  lemma {:induction false} RotrOf(x: Word, n: nat)
    requires n <= 32
    ensures ToUint32(JsRotr(x, n)) == Rotr(x, n)
  {
    hide And, Or, Xor, Not, Shl, Shr;
    SignDrops(Shl(x, 32 - n));
    BitsOf(JsUshr(x, n), JsShl(x, 32 - n));
  }

  lemma {:induction false} Xor3Of(x: int, y: int, z: int)
    ensures ToUint32(JsXor3(x, y, z)) == Xor(Xor(ToUint32(x), ToUint32(y)), ToUint32(z))
  {
    hide And, Or, Xor, Not, Shl, Shr;
    BitsOf(x, y);
    BitsOf(JsXor(x, y), z);
  }

  function JsSigma0(a: Word): int { JsXor3(JsRotr(a, 7), JsRotr(a, 18), JsUshr(a, 3)) }
  function JsSigma1(b: Word): int { JsXor3(JsRotr(b, 17), JsRotr(b, 19), JsUshr(b, 10)) }
  function JsSum0(a: Word): int { JsXor3(JsRotr(a, 2), JsRotr(a, 13), JsRotr(a, 22)) }
  function JsSum1(e: Word): int { JsXor3(JsRotr(e, 6), JsRotr(e, 11), JsRotr(e, 25)) }
  function JsCh(e: Word, f: Word, g: Word): int { JsXor(JsAnd(e, f), JsAnd(JsNot(e), g)) }
  function JsMaj(a: Word, b: Word, c: Word): int { JsXor3(JsAnd(a, b), JsAnd(a, c), JsAnd(b, c)) }

  /** The signed results of the source's expressions are the standard's words. */
  lemma {:induction false} SigmasOf(x: Word)
    ensures ToUint32(JsSigma0(x)) == Sigma0(x)
    ensures ToUint32(JsSigma1(x)) == Sigma1(x)
  {
    hide JsXor3, JsRotr, Rotr, Xor, Shr;
    RotrOf(x, 7); RotrOf(x, 18); RotrOf(x, 17); RotrOf(x, 19);
    Xor3Of(JsRotr(x, 7), JsRotr(x, 18), JsUshr(x, 3));
    Xor3Of(JsRotr(x, 17), JsRotr(x, 19), JsUshr(x, 10));
  }

  lemma {:induction false} SumsOf(x: Word)
    ensures ToUint32(JsSum0(x)) == Sum0(x)
    ensures ToUint32(JsSum1(x)) == Sum1(x)
  {
    hide JsXor3, JsRotr, Rotr, Xor, Shr;
    RotrOf(x, 2); RotrOf(x, 13); RotrOf(x, 22);
    RotrOf(x, 6); RotrOf(x, 11); RotrOf(x, 25);
    Xor3Of(JsRotr(x, 2), JsRotr(x, 13), JsRotr(x, 22));
    Xor3Of(JsRotr(x, 6), JsRotr(x, 11), JsRotr(x, 25));
  }

  lemma {:induction false} ChoicesOf(x: Word, y: Word, z: Word)
    ensures ToUint32(JsCh(x, y, z)) == Ch(x, y, z)
    ensures ToUint32(JsMaj(x, y, z)) == Maj(x, y, z)
  {
    hide And, Or, Xor, Not, Shl, Shr;
    BitsOf(x, y); BitsOf(x, z); BitsOf(y, z);
    BitsOf(JsNot(x), z);
    BitsOf(JsAnd(x, y), JsAnd(JsNot(x), z));
    Xor3Of(JsAnd(x, y), JsAnd(x, z), JsAnd(y, z));
  }

  // ------------------------------------------------------------------ padding

  function FromBigEndian(bytes: seq<Octet>): nat {
    if bytes == [] then 0 else FromBigEndian(bytes[..|bytes| - 1]) * 256 + bytes[|bytes| - 1]
  }

  lemma {:induction false} BigEndianStep(v: nat, n: nat)
    ensures BigEndian(v, n + 1) == BigEndian(v / 256, n) + [v % 256]
  {
    var whole, parts := BigEndian(v, n + 1), BigEndian(v / 256, n) + [v % 256];
    forall i | 0 <= i < n + 1 ensures whole[i] == parts[i] {
      if i < n { assert whole[i] == Byte(v, n - i) == Byte(v / 256, n - i - 1); }
    }
  }

  /** The bytes of a number read back as the number, as long as they can hold it. */
  lemma {:induction false} BigEndianValue(v: nat, n: nat)
    requires v < Pow2(8 * n)
    ensures FromBigEndian(BigEndian(v, n)) == v
  {
    if n > 0 {
      BigEndianStep(v, n - 1);
      assert Pow2(8 * n) == 256 * Pow2(8 * (n - 1)) by { Pow2Adds(8, 8 * (n - 1)); }
      BigEndianValue(v / 256, n - 1);
      assert BigEndian(v, n)[..n - 1] == BigEndian(v / 256, n - 1);
    }
  }

  lemma {:induction false} PaddedEnds(msg: seq<Octet>)
    ensures var p := Padded(msg); |p| >= 8 && p[|p| - 8..] == BigEndian(8 * |msg|, 8)
  {
  }

  lemma {:induction false} PaddedStarts(msg: seq<Octet>)
    ensures var p := Padded(msg);
      && |p| == |msg| + 1 + Zeros(|msg|) + 8
      && p[..|msg|] == msg && p[|msg|] == 0x80 && (forall i | |msg| < i < |p| - 8 :: p[i] == 0)
  {
  }

  /** The padding of section 5.1.1, read as its author wrote it: the message, one bit,
      zeros, and the bit length in the last eight bytes, in the fewest whole blocks
      that hold them. */
  lemma {:induction false} PaddedFits(msg: seq<Octet>)
    requires 8 * |msg| < Pow2(64)
    ensures var p := Padded(msg);
      && |p| % 64 == 0 && |msg| + 9 <= |p| < |msg| + 9 + 64
      && p[..|msg|] == msg && p[|msg|] == 0x80
      && (forall i | |msg| < i < |p| - 8 :: p[i] == 0)
      && FromBigEndian(p[|p| - 8..]) == 8 * |msg|
  {
    hide Padded, FromBigEndian, BigEndian, Pow2;
    BigEndianValue(8 * |msg|, 8);
    PaddedEnds(msg);
    PaddedStarts(msg);
  }

  // -------------------------------------------------- typed arrays and the digest

  /** `DataView.setUint32`: big-endian, modulo 2^32. */
  method SetUint32(view: array<Octet>, offset: nat, value: int)
    requires offset + 4 <= view.Length
    modifies view
    ensures view[..] == old(view[..offset]) + BigEndian(ToUint32(value), 4) + old(view[offset + 4..])
  {
    var v := ToUint32(value);
    forall k | 0 <= k < 4 { view[offset + k] := Byte(v, 3 - k); }
  }

  /** `DataView.getUint32`. */
  method GetUint32(view: array<Octet>, offset: nat) returns (v: Word)
    requires offset + 4 <= view.Length
    ensures v == Word32(view[offset], view[offset + 1], view[offset + 2], view[offset + 3])
  {
    v := Word32(view[offset], view[offset + 1], view[offset + 2], view[offset + 3]);
  }

  /** The size the source computes with 32-bit shifts. */
  function JsSar(x: int, n: nat): int {
    if n == 0 then ToInt32(x) else JsSar(x, n - 1) / 2
  }

  function Size(len: nat): int {
    JsShl(JsSar(len + 9 + 63, 6), 6)
  }

  lemma {:induction false} ShiftedBack(len: nat)
    ensures JsSar(len, 6) == ToInt32(len) / 64
  {
    var x := ToInt32(len);
    assert JsSar(len, 1) == x / 2 && JsSar(len, 2) == x / 4 && JsSar(len, 3) == x / 8;
    assert JsSar(len, 4) == x / 16 && JsSar(len, 5) == x / 32;
  }

  lemma {:induction false} Times(x: int, k: nat)
    ensures x % TWO32 * k % TWO32 == x * k % TWO32
  {
    var q, r := x / TWO32, x % TWO32;
    assert x * k == r * k + (q * k) * TWO32;
    assert (r * k + (q * k) * TWO32) % TWO32 == r * k % TWO32 by { Folded(r * k, q * k); }
  }

  lemma {:induction false} Folded(a: int, q: int)
    ensures (a + q * TWO32) % TWO32 == a % TWO32
  {
    assert a + q * TWO32 == (a / TWO32 + q) * TWO32 + a % TWO32;
  }

  lemma {:induction false} ShiftedUp(x: Word)
    ensures Shl(x, 6) == x * 64 % TWO32
  {
    Times(x * 2, 2); Times(x * 4, 2); Times(x * 8, 2); Times(x * 16, 2); Times(x * 32, 2);
    assert Shl(x, 1) == x * 2 % TWO32;
    assert Shl(x, 2) == x * 4 % TWO32;
    assert Shl(x, 3) == x * 8 % TWO32;
    assert Shl(x, 4) == x * 16 % TWO32;
    assert Shl(x, 5) == x * 32 % TWO32;
  }

  lemma {:induction false} SizeOf(len: nat)
    ensures Size(len) == ToInt32(ToUint32(ToInt32(len + 72) / 64) * 64)
  {
    ShiftedBack(len + 72);
    ShiftedUp(ToUint32(JsSar(len + 72, 6)));
    SignedOf(ToUint32(JsSar(len + 72, 6)) * 64);
  }

  lemma {:induction false} SignedOf(x: int)
    ensures ToInt32(x % TWO32) == ToInt32(x)
  {
  }

  lemma {:induction false} Aligned(n: int)
    requires 0 - TWO31 <= n < TWO31
    ensures ToInt32(n / 64 * 64) == n / 64 * 64
  {
  }

  lemma {:induction false} SizeIsAligned(len: nat)
    ensures Size(len) == ToInt32(len + 72) / 64 * 64
  {
    SizeOf(len);
    var m := ToInt32(len + 72) / 64;
    Times(m, 64);
    SignedOf(ToUint32(m) * 64);
    SignedOf(m * 64);
    Aligned(ToInt32(len + 72));
  }

  lemma {:induction false} WholeBlocks(len: nat)
    ensures (len + 72) / 64 * 64 == len + 1 + Zeros(len) + 8
  {
    var q, r := (55 - len) / 64, (55 - len) % 64;
    assert len + 72 == 64 * (1 - q) + (63 - r);
  }

  lemma {:induction false} Wraps(x: nat)
    requires x >= TWO31
    ensures ToInt32(x) / 64 * 64 < x - 72
  {
    assert ToInt32(x) < 0 || x >= TWO32;
  }

  /** Up to 2^31 - 73 bytes it is the size of the padded message; past that it is
      negative, or shorter than the message, and the source throws. */
  lemma {:induction false} SizeIs(len: nat)
    ensures len + 72 < TWO31 ==> Size(len) == len + 1 + Zeros(len) + 8
    ensures len + 72 >= TWO31 ==> Size(len) < len
  {
    hide Size, Zeros;
    SizeIsAligned(len);
    if len + 72 < TWO31 { WholeBlocks(len); } else { Wraps(len + 72); }
  }

  lemma {:induction false} HighBytes(v: nat, k: nat)
    ensures Byte(v, k + 4) == Byte(v / TWO32, k)
  {
    assert Byte(v, k + 4) == Byte(v / 256, k + 3) == Byte(v / 256 / 256, k + 2) == Byte(v / 256 / 256 / 256, k + 1);
  }

  lemma {:induction false} FirstBytes(v: nat)
    ensures Byte(v, 1) == v / 256 % 256 && Byte(v, 2) == v / 256 / 256 % 256 && Byte(v, 3) == v / 256 / 256 / 256 % 256
  {
    assert Byte(v, 1) == Byte(v / 256, 0);
    assert Byte(v, 2) == Byte(v / 256, 1) == Byte(v / 256 / 256, 0);
    assert Byte(v, 3) == Byte(v / 256, 2) == Byte(v / 256 / 256, 1) == Byte(v / 256 / 256 / 256, 0);
  }

  lemma {:induction false} LowBytes(v: nat)
    ensures Byte(v % TWO32, 0) == Byte(v, 0) && Byte(v % TWO32, 1) == Byte(v, 1)
    ensures Byte(v % TWO32, 2) == Byte(v, 2) && Byte(v % TWO32, 3) == Byte(v, 3)
  {
    var u, q := v % TWO32, v / TWO32;
    assert v == u + TWO32 * q;
    assert v / 256 == u / 256 + 0x100_0000 * q;
    assert v / 256 / 256 == u / 256 / 256 + 0x1_0000 * q;
    assert v / 256 / 256 / 256 == u / 256 / 256 / 256 + 0x100 * q;
    FirstBytes(v);
    FirstBytes(u);
  }

  /** Two 32-bit writes make one 64-bit number. */
  lemma {:induction false} Halves(v: nat)
    requires v / TWO32 < TWO32
    ensures BigEndian(ToUint32(v / TWO32), 4) + BigEndian(ToUint32(v), 4) == BigEndian(v, 8)
  {
    var halves, whole := BigEndian(ToUint32(v / TWO32), 4) + BigEndian(ToUint32(v), 4), BigEndian(v, 8);
    LowBytes(v);
    forall i | 0 <= i < 8 ensures halves[i] == whole[i] {
      if i < 4 { HighBytes(v, 3 - i); }
    }
  }

  /** The padded copy, or nothing where `new Uint8Array` or `set` throws. */
  method Pad(msg: seq<Octet>) returns (r: Option<array<Octet>>)
    ensures r.Some? <==> |msg| + 72 < TWO31
    ensures r.Some? ==> fresh(r.value) && r.value[..] == Padded(msg)
  {
    var bitLen := |msg| * 8;
    var size := Size(|msg|);
    SizeIs(|msg|);
    if size < |msg| { return None; }
    var view := new Octet[size](_ => 0);
    forall i | 0 <= i < |msg| { view[i] := msg[i]; }
    view[|msg|] := 0x80;
    assert view[..] == msg + [0x80] + seq(Zeros(|msg|) + 8, _ => 0);
    SetUint32(view, size - 8, bitLen / TWO32);
    SetUint32(view, size - 4, bitLen);
    Halves(bitLen);
    assert view[..] == Padded(msg);
    return Some(view);
  }

  // ----------------------------------------------------------------- one block

  lemma {:induction false} Unsigned(x: Word)
    ensures ToUint32(x) == x
  {
  }

  lemma {:induction false} FourOf(x: int, y: int, z: int, u: int)
    ensures ToUint32(x + y + z + u) == Plus(Plus(Plus(ToUint32(x), ToUint32(y)), ToUint32(z)), ToUint32(u))
  {
    SumOf(x, y);
    SumOf(x + y, z);
    SumOf(x + y + z, u);
  }

  /** The source adds the four terms of the schedule in another order. */
  lemma {:induction false} ScheduleOf(w16: Word, s0: int, w7: Word, s1: int)
    ensures ToUint32(w16 + s0 + w7 + s1) == Plus(Plus(Plus(ToUint32(s1), w7), ToUint32(s0)), w16)
  {
    assert w16 + s0 + w7 + s1 == s1 + w7 + s0 + w16;
    FourOf(s1, w7, s0, w16);
    Unsigned(w7);
    Unsigned(w16);
    hide ToUint32, Plus;
  }

  method Schedule(view: array<Octet>, offset: nat, w: array<Word>)
    requires offset + 64 <= view.Length && w.Length == 64
    modifies w
    ensures forall t | 0 <= t < 64 :: w[t] == W(view[offset..offset + 64], t)
  {
    hide Sigma0, Sigma1, Plus, ToUint32, Word32, JsSigma0, JsSigma1;
    ghost var block := view[offset..offset + 64];
    for i := 0 to 16
      invariant forall t | 0 <= t < i :: w[t] == W(block, t)
    {
      w[i] := GetUint32(view, offset + i * 4);
    }
    for i := 16 to 64
      invariant forall t | 0 <= t < i :: w[t] == W(block, t)
    {
      var a := w[i - 15];
      var b := w[i - 2];
      var s0 := JsSigma0(a);
      var s1 := JsSigma1(b);
      SigmasOf(a);
      SigmasOf(b);
      ScheduleOf(w[i - 16], s0, w[i - 7], s1);
      w[i] := ToUint32(w[i - 16] + s0 + w[i - 7] + s1);
    }
  }

  lemma {:induction false} FiveOf(x: int, y: int, z: int, u: int, v: int)
    ensures ToUint32(x + y + z + u + v) ==
        Plus(Plus(Plus(Plus(ToUint32(x), ToUint32(y)), ToUint32(z)), ToUint32(u)), ToUint32(v))
  {
    FourOf(x, y, z, u);
    SumOf(x + y + z + u, v);
  }

  method RunRounds(start: Hash, w: array<Word>, ghost block: seq<Octet>) returns (v: Hash)
    requires w.Length == 64 && |block| == 64
    requires forall t | 0 <= t < 64 :: w[t] == W(block, t)
    ensures v == Rounds(start, block, 64)
  {
    hide K, Sum0, Sum1, Ch, Maj, Plus, ToUint32, JsSum0, JsSum1, JsCh, JsMaj, W;
    var a: Word, b: Word, c: Word, d: Word, e: Word, f: Word, g: Word, hh: Word := start.a, start.b, start.c, start.d,
        start.e, start.f, start.g, start.h;
    for i := 0 to 64
      invariant Hash(a, b, c, d, e, f, g, hh) == Rounds(start, block, i)
    {
      var S1 := JsSum1(e);
      var ch := JsCh(e, f, g);
      var temp1 := ToUint32(hh as int + S1 + ch + K(i) + w[i]);
      var S0 := JsSum0(a);
      var maj := JsMaj(a, b, c);
      var temp2 := ToUint32(S0 + maj);
      SumsOf(e);
      SumsOf(a);
      ChoicesOf(e, f, g);
      ChoicesOf(a, b, c);
      FiveOf(hh, S1, ch, K(i), w[i]);
      SumOf(S0, maj);
      SumOf(d, temp1);
      SumOf(temp1, temp2);
      Unsigned(hh); Unsigned(K(i)); Unsigned(w[i]); Unsigned(d); Unsigned(temp1); Unsigned(temp2);
      hh := g;
      g := f;
      f := e;
      e := ToUint32(d as int + temp1);
      d := c;
      c := b;
      b := a;
      a := ToUint32(temp1 as int + temp2);
    }
    return Hash(a, b, c, d, e, f, g, hh);
  }

  // ---------------------------------------------------------------- hexadecimal

  const DIGITS := "0123456789abcdef"

  /** `Number.prototype.toString(16)`. */
  function ToString16(x: nat): (s: string)
    ensures |s| > 0
  {
    if x < 16 then [DIGITS[x]] else ToString16(x / 16) + [DIGITS[x % 16]]
  }

  function PadStart(s: string, n: nat, c: char): string {
    if |s| >= n then s else seq(n - |s|, _ => c) + s
  }

  function HexWord(x: Word): string {
    PadStart(ToString16(x), 8, '0')
  }

  function Digit(c: char): nat {
    if '0' <= c <= '9' then c as nat - '0' as nat
    else if 'a' <= c <= 'f' then c as nat - 'a' as nat + 10
    else 16
  }

  function ReadHex(s: string): nat {
    if s == "" then 0 else ReadHex(s[..|s| - 1]) * 16 + Digit(s[|s| - 1])
  }

  predicate Lowercase(s: string) {
    forall c | c in s :: Digit(c) < 16
  }

  lemma {:induction false} DigitOf(d: nat)
    requires d < 16
    ensures Digit(DIGITS[d]) == d
  {
  }

  lemma {:induction false} DigitLess(x: nat, n: nat)
    requires 16 <= x < Pow2(4 * n) && n > 0
    ensures n > 1 && x / 16 < Pow2(4 * (n - 1))
  {
    assert Pow2(4) == 16;
    assert Pow2(4 * n) == 16 * Pow2(4 * (n - 1)) by { Pow2Adds(4, 4 * (n - 1)); }
  }

  lemma {:induction false} HexReads(x: nat, n: nat)
    requires x < Pow2(4 * n) && n > 0
    ensures |ToString16(x)| <= n && Lowercase(ToString16(x)) && ReadHex(ToString16(x)) == x
    decreases n
  {
    DigitOf(x % 16);
    if x >= 16 {
      DigitLess(x, n);
      hide Pow2;
      HexReads(x / 16, n - 1);
      assert ToString16(x)[..|ToString16(x)| - 1] == ToString16(x / 16);
    }
  }

  lemma {:induction false} ZerosRead(k: nat, s: string)
    ensures ReadHex(seq(k, _ => '0') + s) == ReadHex(s)
  {
    var zeros := seq(k, _ => '0');
    if s != "" {
      ZerosRead(k, s[..|s| - 1]);
      assert (zeros + s)[..k + |s| - 1] == zeros + s[..|s| - 1];
    } else {
      assert zeros + s == zeros;
      if k > 0 {
        ZerosRead(k - 1, "");
        assert zeros[..k - 1] == seq(k - 1, _ => '0') + "";
      }
    }
  }

  /** Eight lowercase digits that read as the word. */
  lemma {:induction false} HexWordReads(x: Word)
    ensures |HexWord(x)| == 8 && Lowercase(HexWord(x)) && ReadHex(HexWord(x)) == x
  {
    Pow2Is32();
    HexReads(x, 8);
    hide Pow2, ToString16, ReadHex;
    ZerosRead(8 - |ToString16(x)|, ToString16(x));
  }

  function WordAt(v: Hash, i: nat): Word
    requires i < 8
  {
    [v.a, v.b, v.c, v.d, v.e, v.f, v.g, v.h][i]
  }

  function HexOf(v: Hash, n: nat): string
    requires n <= 8
  {
    if n == 0 then "" else HexOf(v, n - 1) + HexWord(WordAt(v, n - 1))
  }

  lemma {:induction false} HexOfReads(v: Hash, n: nat)
    requires n <= 8
    ensures |HexOf(v, n)| == 8 * n && Lowercase(HexOf(v, n))
    ensures forall i | 0 <= i < n :: ReadHex(HexOf(v, n)[8 * i..8 * i + 8]) == WordAt(v, i)
  {
    hide HexWord, ReadHex, WordAt, Digit;
    if n > 0 {
      HexOfReads(v, n - 1);
      HexWordReads(WordAt(v, n - 1));
      var front, last := HexOf(v, n - 1), HexWord(WordAt(v, n - 1));
      BothLowercase(front, last);
      forall i | 0 <= i < n ensures ReadHex((front + last)[8 * i..8 * i + 8]) == WordAt(v, i) {
        Eighth(front, last, i);
      }
    }
  }

  lemma {:induction false} BothLowercase(a: string, b: string)
    requires Lowercase(a) && Lowercase(b)
    ensures Lowercase(a + b)
  {
    hide Digit;
  }

  lemma {:induction false} Eighth(front: string, last: string, i: nat)
    requires |last| == 8 && 8 * i <= |front| && |front| % 8 == 0
    ensures 8 * i + 8 <= |front + last|
    ensures (front + last)[8 * i..8 * i + 8] == if 8 * i == |front| then last else front[8 * i..8 * i + 8]
  {
  }

  // ----------------------------------------------------------------- sha256Hex

  function Octets(bytes: seq<Utf8.Byte>): seq<Octet> {
    seq(|bytes|, i requires 0 <= i < |bytes| => bytes[i] as nat)
  }

  ghost function HashIn(h: array<Word>): Hash
    requires h.Length == 8
    reads h
  {
    Hash(h[0], h[1], h[2], h[3], h[4], h[5], h[6], h[7])
  }

  method AddBlock(view: array<Octet>, offset: nat, w: array<Word>, h: array<Word>)
    requires offset + 64 <= view.Length && w.Length == 64 && h.Length == 8 && w != h
    modifies w, h
    ensures HashIn(h) == Compress(old(HashIn(h)), old(view[offset..offset + 64]))
  {
    hide Rounds, W;
    Schedule(view, offset, w);
    var v := RunRounds(Hash(h[0], h[1], h[2], h[3], h[4], h[5], h[6], h[7]), w, view[offset..offset + 64]);
    h[0] := ToUint32(h[0] as int + v.a);
    h[1] := ToUint32(h[1] as int + v.b);
    h[2] := ToUint32(h[2] as int + v.c);
    h[3] := ToUint32(h[3] as int + v.d);
    h[4] := ToUint32(h[4] as int + v.e);
    h[5] := ToUint32(h[5] as int + v.f);
    h[6] := ToUint32(h[6] as int + v.g);
    h[7] := ToUint32(h[7] as int + v.h);
  }

  method HashBlocks(view: array<Octet>) returns (h: array<Word>)
    requires view.Length % 64 == 0
    ensures fresh(h) && h.Length == 8 && HashIn(h) == After(view[..], view.Length / 64)
  {
    hide Compress, After;
    h := new Word[8];
    h[0], h[1], h[2], h[3] := H0.a, H0.b, H0.c, H0.d;
    h[4], h[5], h[6], h[7] := H0.e, H0.f, H0.g, H0.h;
    var w := new Word[64];
    var offset := 0;
    ghost var k := 0;
    AfterBlocks(view[..], k);
    while offset < view.Length
      invariant offset == 64 * k <= view.Length && HashIn(h) == After(view[..], k)
    {
      AddBlock(view, offset, w, h);
      assert view[..][offset..offset + 64] == view[offset..offset + 64];
      AfterBlocks(view[..], k);
      offset, k := offset + 64, k + 1;
    }
  }

  lemma {:induction false} AfterBlocks(bytes: seq<Octet>, k: nat)
    requires 64 * k <= |bytes|
    ensures After(bytes, 0) == H0
    ensures 64 * (k + 1) <= |bytes| ==> After(bytes, k + 1) == Compress(After(bytes, k), bytes[64 * k..64 * k + 64])
  {
    hide Compress, H0;
  }

  /** The digest of the string's UTF-8 bytes as 64 lowercase digits, for everything
      short of 2^31 - 72 bytes; past that it throws. */
  method Sha256Hex(input: seq<Utf8.Unit>) returns (r: Option<string>)
    ensures var bytes := Utf8.Encode(Utf16.Scalars(input));
      && (r.Some? <==> |bytes| + 72 < TWO31)
      && (r.Some? ==>
            && |r.value| == 64 && Lowercase(r.value)
            && forall i | 0 <= i < 8 :: ReadHex(r.value[8 * i..8 * i + 8]) == WordAt(Digest(Octets(bytes)), i))
  {
    hide After, HexWord, ReadHex;
    var bytes := Utf16.Utf8Bytes(input);
    var view := Pad(Octets(bytes));
    if view.None? { return None; }
    var h := HashBlocks(view.value);
    ghost var digest := Digest(Octets(bytes));
    assert HashIn(h) == digest;
    var out := "";
    for i := 0 to 8
      invariant HashIn(h) == digest && out == HexOf(digest, i)
    {
      out := out + HexWord(h[i]);
    }
    HexOfReads(digest, 8);
    return Some(out);
  }
}
