/** 32-bit words as FIPS 180-4 has them, and JavaScript's operators on numbers
    (ECMA-262, sections 7.1.6, 7.1.7 and 13.9 to 13.12). */
module Words {
  import opened Prelude

  const TWO31: nat := 0x8000_0000
  const TWO32: nat := 0x1_0000_0000

  type Word = x: nat | x < TWO32

  lemma {:induction false} Pow2Is32()
    ensures Pow2(32) == TWO32
  {
    assert Pow2(4) == 16;
    Pow2Adds(4, 4);
    Pow2Adds(8, 8);
    Pow2Adds(16, 16);
  }

  lemma {:induction false} Pow2Adds(m: nat, n: nat)
    ensures Pow2(m + n) == Pow2(m) * Pow2(n)
  {
    if n > 0 { Pow2Adds(m, n - 1); }
  }

  // ---------------------------------------------------------- bit by bit

  function Bitwise(x: nat, y: nat, gate: (bool, bool) -> bool): nat
    decreases x + y
  {
    if x == 0 && y == 0 then 0
    else (if gate(x % 2 == 1, y % 2 == 1) then 1 else 0) + 2 * Bitwise(x / 2, y / 2, gate)
  }

  lemma {:induction false} BitwiseBound(x: nat, y: nat, gate: (bool, bool) -> bool, n: nat)
    requires x < Pow2(n) && y < Pow2(n)
    ensures Bitwise(x, y, gate) < Pow2(n)
    decreases n
  {
    if n > 0 && (x > 0 || y > 0) { BitwiseBound(x / 2, y / 2, gate, n - 1); }
  }

  function Gated(x: Word, y: Word, gate: (bool, bool) -> bool): Word {
    Pow2Is32();
    BitwiseBound(x, y, gate, 32);
    Bitwise(x, y, gate)
  }

  // ------------------------------------------------- section 3.2 of FIPS 180-4

  function And(x: Word, y: Word): Word { Gated(x, y, (a, b) => a && b) }
  function Or(x: Word, y: Word): Word { Gated(x, y, (a, b) => a || b) }
  function Xor(x: Word, y: Word): Word { Gated(x, y, (a, b) => a != b) }
  function Not(x: Word): Word { TWO32 - 1 - x }
  function Shl(x: Word, n: nat): Word { if n == 0 then x else Shl(x, n - 1) * 2 % TWO32 }
  function Shr(x: Word, n: nat): Word { if n == 0 then x else Shr(x, n - 1) / 2 }
  function Plus(x: Word, y: Word): Word { (x + y) % TWO32 }

  // ------------------------------------------------- JavaScript's operators

  function ToUint32(x: int): Word { x % TWO32 }

  function ToInt32(x: int): int {
    if x % TWO32 >= TWO31 then x % TWO32 - TWO32 else x % TWO32
  }

  function JsAnd(x: int, y: int): int { ToInt32(And(ToUint32(x), ToUint32(y))) }
  function JsOr(x: int, y: int): int { ToInt32(Or(ToUint32(x), ToUint32(y))) }
  function JsXor(x: int, y: int): int { ToInt32(Xor(ToUint32(x), ToUint32(y))) }
  function JsNot(x: int): int { ToInt32(Not(ToUint32(x))) }
  function JsShl(x: int, n: nat): int { ToInt32(Shl(ToUint32(x), n)) }
  function JsUshr(x: int, n: nat): int { Shr(ToUint32(x), n) }

  lemma {:induction false} SignDrops(x: int)
    ensures ToUint32(ToInt32(x)) == ToUint32(x)
  {
  }

  lemma {:induction false} BitsOf(x: int, y: int)
    ensures ToUint32(JsAnd(x, y)) == And(ToUint32(x), ToUint32(y))
    ensures ToUint32(JsOr(x, y)) == Or(ToUint32(x), ToUint32(y))
    ensures ToUint32(JsXor(x, y)) == Xor(ToUint32(x), ToUint32(y))
    ensures ToUint32(JsNot(x)) == Not(ToUint32(x))
  {
  }

  /** Sums taken modulo 2^32 at the end are sums modulo 2^32 all along. */
  lemma {:induction false} SumOf(x: int, y: int)
    ensures ToUint32(x + y) == Plus(ToUint32(x), ToUint32(y))
  {
  }
}
