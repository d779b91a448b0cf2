/** The constants of SHA-256, checked against what section 4.2.2 and section 5.3.3 of
    FIPS 180-4 say they are. */
module Sha256Constants {
  import opened Words
  import opened Sha256

  function PrimeRow(r: nat): seq<nat> {
    if r == 0 then [2, 3, 5, 7, 11, 13, 17, 19]
    else if r == 1 then [23, 29, 31, 37, 41, 43, 47, 53]
    else if r == 2 then [59, 61, 67, 71, 73, 79, 83, 89]
    else if r == 3 then [97, 101, 103, 107, 109, 113, 127, 131]
    else if r == 4 then [137, 139, 149, 151, 157, 163, 167, 173]
    else if r == 5 then [179, 181, 191, 193, 197, 199, 211, 223]
    else if r == 6 then [227, 229, 233, 239, 241, 251, 257, 263]
    else [269, 271, 277, 281, 283, 293, 307, 311]
  }

  /** The first 64 primes. */
  function Prime(t: nat): nat
    requires t < 64
  {
    PrimeRow(t / 8)[t % 8]
  }

  function Cube(x: nat): nat { x * x * x }

  function CubeRoot(p: nat): nat
    requires p < 343
  {
    if p < 1 then 0 else if p < 8 then 1 else if p < 27 then 2 else if p < 64 then 3
    else if p < 125 then 4 else if p < 216 then 5 else 6
  }

  /** `k` is the first 32 bits of the fractional part of the cube root of `p`. */
  predicate CubeFraction(p: nat, k: Word)
    requires p < 343
  {
    var x := CubeRoot(p) * TWO32 + k;
    Cube(x) <= p * Cube(TWO32) < Cube(x + 1)
  }

  predicate CubeAt(r: nat, j: nat)
    requires r < 8 && j < 8
  {
    PrimeRow(r)[j] < 343 && CubeFraction(PrimeRow(r)[j], KRow(r)[j])
  }

  predicate CubesOf(r: nat)
    requires r < 8
  {
    CubeAt(r, 0) && CubeAt(r, 1) && CubeAt(r, 2) && CubeAt(r, 3) && CubeAt(r, 4) && CubeAt(r, 5) && CubeAt(r, 6)
        && CubeAt(r, 7)
  }

  lemma {:induction false} Cubes0()
    ensures CubesOf(0)
  {
  }

  lemma {:induction false} Cubes1()
    ensures CubesOf(1)
  {
  }

  lemma {:induction false} Cubes2()
    ensures CubesOf(2)
  {
  }

  lemma {:induction false} Cubes3()
    ensures CubesOf(3)
  {
  }

  lemma {:induction false} Cubes4()
    ensures CubesOf(4)
  {
  }

  lemma {:induction false} Cubes5()
    ensures CubesOf(5)
  {
  }

  lemma {:induction false} Cubes6()
    ensures CubesOf(6)
  {
  }

  lemma {:induction false} Cubes7()
    ensures CubesOf(7)
  {
  }

  /** Section 4.2.2: each constant of the rounds is the first 32 bits of the fraction
      of the cube root of its prime. */
  lemma {:induction false} ConstantsAreCubeRoots(t: nat)
    requires t < 64
    ensures Prime(t) < 343 && CubeFraction(Prime(t), K(t))
  {
    hide CubeFraction;
    Cubes0(); Cubes1(); Cubes2(); Cubes3();
    Cubes4(); Cubes5(); Cubes6(); Cubes7();
    var r, j := t / 8, t % 8;
    assert CubesOf(r);
  }

  function Square(x: nat): nat { x * x }

  predicate SquareFraction(p: nat, k: Word) {
    var x := (if p < 4 then 1 else if p < 9 then 2 else if p < 16 then 3 else 4) * TWO32 + k;
    Square(x) <= p * Square(TWO32) < Square(x + 1)
  }

  /** Section 5.3.3: the initial hash value, from the square roots of the first eight. */
  lemma {:induction false} InitialIsSquareRoots()
    ensures SquareFraction(2, H0.a) && SquareFraction(3, H0.b) && SquareFraction(5, H0.c) && SquareFraction(7, H0.d)
    ensures SquareFraction(11, H0.e) && SquareFraction(13, H0.f) && SquareFraction(17, H0.g) && SquareFraction(19, H0.h)
  {
  }
}
