/** `utf8Bytes` (`sdk/core/src/sha256.ts`) and `byteLength`
    (`sdk/weapp/src/transport.ts`) on JavaScript strings. */
module Utf16 {
  import opened Prelude
  import opened Utf8

  // -------------------------------------------------------------- what they mean

  /** A surrogate without its other half. */
  predicate Lone(s: seq<Unit>, k: nat)
    requires k < |s|
  {
    || (High(s[k]) && !(k + 1 < |s| && Low(s[k + 1])))
    || (Low(s[k]) && !(k > 0 && High(s[k - 1])))
  }

  function Mended(s: seq<Unit>): seq<Unit> {
    seq(|s|, k requires 0 <= k < |s| => if Lone(s, k) then 0xfffd else s[k])
  }

  predicate WellFormed(s: seq<Unit>) {
    forall k | 0 <= k < |s| :: !Lone(s, k)
  }

  function Units(cp: Scalar): seq<Unit>
    requires IsScalar(cp)
  {
    if cp < 0x10000 then [cp as Unit]
    else [(0xd800 + ((cp - 0x10000) >> 10)) as Unit, (0xdc00 + ((cp - 0x10000) & 0x3ff)) as Unit]
  }

  /** UTF-16, section 2.5 of the Unicode standard. */
  function EncodeUtf16(cps: seq<Scalar>): seq<Unit>
    requires AllScalars(cps)
  {
    if cps == [] then [] else Units(cps[0]) + EncodeUtf16(cps[1..])
  }

  predicate Pair(s: seq<Unit>) {
    |s| > 1 && High(s[0]) && Low(s[1])
  }

  function Combined(high: Unit, low: Unit): (cp: Scalar)
    requires High(high) && Low(low)
    ensures 0x10000 <= cp <= 0x10ffff
  {
    (high as Scalar - 0xd800) * 0x400 + (low as Scalar - 0xdc00) + 0x10000
  }

  function Single(u: Unit): (cp: Scalar)
    ensures IsScalar(cp) && cp < 0x10000
  {
    if High(u) || Low(u) then 0xfffd else u as Scalar
  }

  /** The characters of a JavaScript string, left to right. */
  function Scalars(s: seq<Unit>): (cps: seq<Scalar>)
    ensures AllScalars(cps)
  {
    if s == [] then []
    else if Pair(s) then [Combined(s[0], s[1])] + Scalars(s[2..])
    else [Single(s[0])] + Scalars(s[1..])
  }

  lemma {:induction false} UnitsOfPair(high: Unit, low: Unit)
    requires High(high) && Low(low)
    ensures Units(Combined(high, low)) == [high, low]
  {
  }

  lemma {:induction false} MendedPair(s: seq<Unit>)
    requires Pair(s)
    ensures Mended(s) == [s[0], s[1]] + Mended(s[2..])
  {
  }

  lemma {:induction false} MendedSingle(s: seq<Unit>)
    requires s != [] && !Pair(s)
    ensures Mended(s) == Units(Single(s[0])) + Mended(s[1..])
  {
  }

  /** The characters are those of the string with each lone surrogate replaced. */
  lemma {:induction false} ScalarsMend(s: seq<Unit>)
    ensures EncodeUtf16(Scalars(s)) == Mended(s)
  {
    if s == [] {
    } else if Pair(s) {
      UnitsOfPair(s[0], s[1]);
      MendedPair(s);
      ScalarsMend(s[2..]);
      assert Scalars(s)[1..] == Scalars(s[2..]);
    } else {
      MendedSingle(s);
      ScalarsMend(s[1..]);
      assert Scalars(s)[1..] == Scalars(s[1..]);
    }
  }

  // ------------------------------------------------------------------ utf8Bytes

  lemma {:induction false} EncodePlus(cp: Scalar, cps: seq<Scalar>)
    requires IsScalar(cp) && AllScalars(cps)
    ensures AllScalars([cp] + cps) && Encode([cp] + cps) == Encode1(cp) + Encode(cps)
  {
    assert ([cp] + cps)[1..] == cps;
  }

  /** What is left to encode after one turn of the loop. */
  lemma {:induction false} OneTurn(s: seq<Unit>)
    requires s != []
    ensures var n := if Pair(s) then 2 else 1; var cp := if Pair(s) then Combined(s[0], s[1]) else Single(s[0]);
      Encode(Scalars(s)) == Encode1(cp) + Encode(Scalars(s[n..]))
  {
    if Pair(s) {
      EncodePlus(Combined(s[0], s[1]), Scalars(s[2..]));
    } else {
      EncodePlus(Single(s[0]), Scalars(s[1..]));
    }
  }

  lemma {:induction false} Onward(s: seq<Unit>, i: nat, n: nat, before: seq<Byte>, pushed: seq<Byte>)
    requires i + n <= |s|
    requires before + Encode(Scalars(s[i..])) == Encode(Scalars(s))
    requires Encode(Scalars(s[i..])) == pushed + Encode(Scalars(s[i..][n..]))
    ensures before + pushed + Encode(Scalars(s[i + n..])) == Encode(Scalars(s))
  {
    assert s[i..][n..] == s[i + n..];
    assert before + (pushed + Encode(Scalars(s[i + n..]))) == before + pushed + Encode(Scalars(s[i + n..]));
  }

  /** The head of the loop: the character at `i`, and the last unit it takes. */
  method CodePointAt(str: seq<Unit>, i: nat) returns (cp: Scalar, last: nat)
    requires i < |str|
    ensures cp == if Pair(str[i..]) then Combined(str[i], str[i + 1]) else Single(str[i])
    ensures last == if Pair(str[i..]) then i + 1 else i
  {
    last := i;
    cp := str[i] as Scalar;
    if 0xd800 <= cp <= 0xdbff {
      if i + 1 < |str| && 0xdc00 <= str[i + 1] <= 0xdfff {
        var next := str[i + 1] as Scalar;
        cp := (cp - 0xd800) * 0x400 + (next - 0xdc00) + 0x10000;
        last := last + 1;
      } else {
        cp := 0xfffd;
      }
    } else if 0xdc00 <= cp <= 0xdfff {
      cp := 0xfffd;
    }
  }

  /** The result is well-formed UTF-8, and decodes to the string's characters. */
  method Utf8Bytes(str: seq<Unit>) returns (out: seq<Byte>)
    ensures out == Encode(Scalars(str))
    ensures Decode(out) == Some(Scalars(str)) && EncodeUtf16(Scalars(str)) == Mended(str)
  {
    out := [];
    var i := 0;
    assert str[0..] == str;
    while i < |str|
      invariant i <= |str|
      invariant out + Encode(Scalars(str[i..])) == Encode(Scalars(str))
    {
      ghost var start := i;
      var cp;
      cp, i := CodePointAt(str, i);
      var bytes := Encode1(cp);
      i := i + 1;
      OneTurn(str[start..]);
      Onward(str, start, i - start, out, bytes);
      out := out + bytes;
    }
    assert str[i..] == [];
    DecodeEncode(Scalars(str));
    ScalarsMend(str);
  }

  // ----------------------------------------------------------------- byteLength

  /** What `byteLength` adds up: it takes the unit after a high surrogate for the
      other half without looking. */
  function Sum(s: seq<Unit>): nat
    decreases |s|
  {
    if s == [] then 0
    else if s[0] < 0x80 then 1 + Sum(s[1..])
    else if s[0] < 0x800 then 2 + Sum(s[1..])
    else if High(s[0]) then 4 + Sum(if |s| > 1 then s[2..] else [])
    else 3 + Sum(s[1..])
  }

  predicate EndsHigh(s: seq<Unit>) {
    s != [] && High(s[|s| - 1])
  }

  lemma {:induction false} EncodedLength(s: seq<Unit>)
    requires s != []
    ensures |Encode(Scalars(s))| ==
            if Pair(s) then 4 + |Encode(Scalars(s[2..]))|
            else (if s[0] < 0x80 then 1 else if s[0] < 0x800 then 2 else 3) + |Encode(Scalars(s[1..]))|
  {
    OneTurn(s);
  }

  /** What the halves without a partner add or take away: one too many at the very
      end, and too few for a unit that is swallowed as the other half. */
  function Drift(s: seq<Unit>): int
    decreases |s|
  {
    if s == [] then 0
    else if !High(s[0]) then Drift(s[1..])
    else if Pair(s) then Drift(s[2..])
    else if |s| == 1 then 1
    else if Pair(s[1..]) then Drift(s[3..])
    else Drift(s[2..]) - (if s[1] < 0x80 then 0 else if s[1] < 0x800 then 1 else 2)
  }

  /** On any string the sum is the length of the encoding, off by the drift. */
  lemma {:induction false} SumDrifts(s: seq<Unit>)
    ensures Sum(s) == |Encode(Scalars(s))| + Drift(s)
    ensures Drift(s) <= if EndsHigh(s) then 1 else 0
    decreases |s|
  {
    if s != [] {
      EncodedLength(s);
      if High(s[0]) && !Pair(s) && |s| > 1 {
        EncodedLength(s[1..]);
        if Pair(s[1..]) {
          SumDrifts(s[3..]);
          assert s[2..][1..] == s[3..] && s[1..][2..] == s[3..];
        } else {
          SumDrifts(s[2..]);
          assert s[1..][1..] == s[2..];
        }
      } else if Pair(s) {
        SumDrifts(s[2..]);
      } else {
        SumDrifts(s[1..]);
      }
    }
  }

  /** Well-formed strings do not drift. */
  lemma {:induction false} WellFormedHolds(s: seq<Unit>)
    requires WellFormed(s)
    ensures Drift(s) == 0
  {
    if s != [] {
      assert !Lone(s, 0);
      var n := if Pair(s) then 2 else 1;
      assert forall k | 0 <= k < |s| - n :: Lone(s[n..], k) == Lone(s, k + n);
      WellFormedHolds(s[n..]);
    }
  }

  /** Half a pair makes it one too large, two halves in a row two too small, and a
      string may do both and come out right. */
  lemma {:induction false} HalvesDrift()
    ensures Drift([0xd800]) == 1 && Drift([0xd800, 0xd800]) == -2 && Drift([0xd800, 0xe9, 0xd800]) == 0
  {
    assert [0xd800, 0xe9, 0xd800][2..] == [0xd800 as Unit];
  }

  method ByteLength(s: seq<Unit>) returns (n: nat)
    ensures n == |Encode(Scalars(s))| <==> Drift(s) == 0
    ensures WellFormed(s) ==> n == |Encode(Scalars(s))|
    ensures n <= |Encode(Scalars(s))| + if EndsHigh(s) then 1 else 0
  {
    n := 0;
    var i := 0;
    assert s[0..] == s;
    while i < |s|
      invariant i <= |s| + 1
      invariant n + Sum(if i <= |s| then s[i..] else []) == Sum(s)
    {
      var c := s[i];
      ghost var rest := s[i..];
      if c < 0x80 {
        n := n + 1;
      } else if c < 0x800 {
        n := n + 2;
      } else if 0xd800 <= c <= 0xdbff {
        n := n + 4;
        i := i + 1;
      } else {
        n := n + 3;
      }
      i := i + 1;
      assert i <= |s| ==> s[i..] == if High(c) then rest[2..] else rest[1..];
    }
    if WellFormed(s) { WellFormedHolds(s); }
    SumDrifts(s);
  }
}
