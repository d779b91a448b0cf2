/** Runs of a deterministic machine, and the two inductions every component needs. */
module Runs {
  /** The state before the `k`-th input. */
  ghost function At<S, I>(start: S, run: seq<I>, k: nat, step: (S, I) -> S): S
    requires k <= |run|
  {
    if k == 0 then start else step(At(start, run, k - 1, step), run[k - 1])
  }

  /** Every input of the run is allowed where it happens. */
  ghost predicate Allowed<S, I>(start: S, run: seq<I>, step: (S, I) -> S, ok: (S, I) -> bool) {
    forall k {:trigger ok(At(start, run, k, step), run[k])} | 0 <= k < |run| :: ok(At(start, run, k, step), run[k])
  }

  /** The same of a stretch of the run. */
  ghost predicate Within<S, I>(start: S, run: seq<I>, j: nat, k: nat, step: (S, I) -> S, ok: (S, I) -> bool)
    requires j <= k <= |run|
  {
    forall i {:trigger ok(At(start, run, i, step), run[i])} | j <= i < k :: ok(At(start, run, i, step), run[i])
  }

  /** A run in three stretches. */
  lemma {:induction false} Joined<S, I>(start: S, run: seq<I>, j: nat, k: nat, step: (S, I) -> S, ok: (S, I) -> bool)
    requires j <= k <= |run| && Within(start, run, 0, j, step, ok)
    requires Within(start, run, j, k, step, ok) && Within(start, run, k, |run|, step, ok)
    ensures Allowed(start, run, step, ok)
  {
  }

  /** A stretch from the start, one input longer. */
  lemma {:induction false} Longer<S, I>(start: S, run: seq<I>, k: nat, step: (S, I) -> S, ok: (S, I) -> bool)
    requires k < |run| && Within(start, run, 0, k, step, ok) && ok(At(start, run, k, step), run[k])
    ensures Within(start, run, 0, k + 1, step, ok)
    ensures At(start, run, k + 1, step) == step(At(start, run, k, step), run[k])
  {
  }

  /** What a stricter rule allows, a laxer one does. */
  lemma {:induction false} Laxer<S(!new), I(!new)>(
    start: S, run: seq<I>, j: nat, k: nat, step: (S, I) -> S, strict: (S, I) -> bool, lax: (S, I) -> bool)
    requires j <= k <= |run| && Within(start, run, j, k, step, strict)
    requires forall s, i :: strict(s, i) ==> lax(s, i)
    ensures Within(start, run, j, k, step, lax)
  {
    forall i | j <= i < k ensures lax(At(start, run, i, step), run[i]) {
      assert strict(At(start, run, i, step), run[i]);
    }
  }

  /** A stretch of two. */
  lemma {:induction false} Two<S, I>(start: S, run: seq<I>, k: nat, step: (S, I) -> S, ok: (S, I) -> bool, s1: S, s2: S)
    requires k + 2 <= |run|
    requires s1 == step(At(start, run, k, step), run[k]) && s2 == step(s1, run[k + 1])
    requires ok(At(start, run, k, step), run[k]) && ok(s1, run[k + 1])
    ensures At(start, run, k + 2, step) == s2 && Within(start, run, k, k + 2, step, ok)
  {
    assert At(start, run, k + 1, step) == s1;
  }

  /** A stretch of four. */
  lemma {:induction false} Four<S, I>(start: S, run: seq<I>, k: nat, step: (S, I) -> S, ok: (S, I) -> bool,
                                      s1: S, s2: S, s3: S, s4: S)
    requires k + 4 <= |run|
    requires s1 == step(At(start, run, k, step), run[k]) && s2 == step(s1, run[k + 1])
    requires s3 == step(s2, run[k + 2]) && s4 == step(s3, run[k + 3])
    requires ok(At(start, run, k, step), run[k])
    requires ok(s1, run[k + 1]) && ok(s2, run[k + 2]) && ok(s3, run[k + 3])
    ensures At(start, run, k + 4, step) == s4 && Within(start, run, k, k + 4, step, ok)
  {
    assert At(start, run, k + 1, step) == s1 && At(start, run, k + 2, step) == s2 && At(start, run, k + 3, step) == s3;
  }

  ghost predicate Keeps<S(!new), I(!new)>(step: (S, I) -> S, ok: (S, I) -> bool, inv: S -> bool) {
    forall s, i :: inv(s) && ok(s, i) ==> inv(step(s, i))
  }

  /** An invariant of the steps is an invariant of the run. */
  lemma {:induction false} Invariant<S(!new), I(!new)>(
    start: S, run: seq<I>, k: nat, step: (S, I) -> S, ok: (S, I) -> bool, inv: S -> bool)
    requires k <= |run| && Allowed(start, run, step, ok) && Keeps(step, ok, inv) && inv(start)
    ensures inv(At(start, run, k, step))
  {
    if k > 0 {
      Invariant(start, run, k - 1, step, ok, inv);
      assert ok(At(start, run, k - 1, step), run[k - 1]);
    }
  }

  ghost predicate Preorder<S(!new)>(rel: (S, S) -> bool) {
    && (forall s :: rel(s, s))
    && forall a, b, c :: rel(a, b) && rel(b, c) ==> rel(a, c)
  }

  ghost predicate Moves<S(!new), I(!new)>(step: (S, I) -> S, ok: (S, I) -> bool, inv: S -> bool, rel: (S, S) -> bool) {
    forall s, i :: inv(s) && ok(s, i) ==> rel(s, step(s, i))
  }

  /** A preorder every step respects relates any two states of the run. */
  lemma {:induction false} Progress<S(!new), I(!new)>(
    start: S, run: seq<I>, j: nat, k: nat, step: (S, I) -> S, ok: (S, I) -> bool, inv: S -> bool, rel: (S, S) -> bool)
    requires j <= k <= |run| && Allowed(start, run, step, ok) && Keeps(step, ok, inv) && inv(start)
    requires Preorder(rel) && Moves(step, ok, inv, rel)
    ensures rel(At(start, run, j, step), At(start, run, k, step))
  {
    if j < k {
      Progress(start, run, j, k - 1, step, ok, inv, rel);
      Invariant(start, run, k - 1, step, ok, inv);
      var s := At(start, run, k - 1, step);
      assert ok(s, run[k - 1]);
      assert rel(s, step(s, run[k - 1]));
    }
  }

  /** From a good state with the invariant, a step leads to a good state exactly when it
      is fine. */
  ghost predicate Decides<S(!new), I(!new)>(
    step: (S, I) -> S, ok: (S, I) -> bool, inv: S -> bool, good: S -> bool, fine: (S, I) -> bool)
  {
    forall s, i :: inv(s) && ok(s, i) && good(s) ==> (good(step(s, i)) <==> fine(s, i))
  }

  ghost predicate GoodUntil<S, I>(start: S, run: seq<I>, n: nat, step: (S, I) -> S, good: S -> bool)
    requires n <= |run|
  {
    forall k | 0 <= k <= n :: good(At(start, run, k, step))
  }

  ghost predicate FineUntil<S, I>(start: S, run: seq<I>, n: nat, step: (S, I) -> S, fine: (S, I) -> bool)
    requires n <= |run|
  {
    forall k | 0 <= k < n :: fine(At(start, run, k, step), run[k])
  }

  /** Then a run is good throughout exactly when all its steps are fine. */
  lemma {:induction false} GoodIffFine<S(!new), I(!new)>(
    start: S, run: seq<I>, n: nat, step: (S, I) -> S, ok: (S, I) -> bool, inv: S -> bool, good: S -> bool,
    fine: (S, I) -> bool)
    requires n <= |run| && Allowed(start, run, step, ok) && Keeps(step, ok, inv) && inv(start)
    requires good(start) && Decides(step, ok, inv, good, fine)
    ensures GoodUntil(start, run, n, step, good) <==> FineUntil(start, run, n, step, fine)
  {
    if n > 0 {
      GoodIffFine(start, run, n - 1, step, ok, inv, good, fine);
      OneMore(start, run, n, step, ok, inv, good, fine);
    }
  }

  lemma {:induction false} OneMore<S(!new), I(!new)>(
    start: S, run: seq<I>, n: nat, step: (S, I) -> S, ok: (S, I) -> bool, inv: S -> bool, good: S -> bool,
    fine: (S, I) -> bool)
    requires 0 < n <= |run| && Allowed(start, run, step, ok) && Keeps(step, ok, inv) && inv(start)
    requires Decides(step, ok, inv, good, fine)
    ensures GoodUntil(start, run, n, step, good) <==>
            GoodUntil(start, run, n - 1, step, good) && fine(At(start, run, n - 1, step), run[n - 1])
    ensures FineUntil(start, run, n, step, fine) <==>
            FineUntil(start, run, n - 1, step, fine) && fine(At(start, run, n - 1, step), run[n - 1])
  {
    Invariant(start, run, n - 1, step, ok, inv);
    var s, x := At(start, run, n - 1, step), run[n - 1];
    assert ok(s, x) && inv(s) && At(start, run, n, step) == step(s, x);
    assert good(s) ==> (good(step(s, x)) <==> fine(s, x));
    hide At, Allowed, Keeps, Decides;
    GoodSplits(start, run, n, step, good);
    FineSplits(start, run, n, step, fine);
  }

  lemma {:induction false} GoodSplits<S, I>(start: S, run: seq<I>, n: nat, step: (S, I) -> S, good: S -> bool)
    requires 0 < n <= |run|
    ensures GoodUntil(start, run, n, step, good) <==>
            GoodUntil(start, run, n - 1, step, good) && good(At(start, run, n - 1, step))
                && good(At(start, run, n, step))
  {
    hide At;
  }

  lemma {:induction false} FineSplits<S, I>(start: S, run: seq<I>, n: nat, step: (S, I) -> S, fine: (S, I) -> bool)
    requires 0 < n <= |run|
    ensures FineUntil(start, run, n, step, fine) <==>
            FineUntil(start, run, n - 1, step, fine) && fine(At(start, run, n - 1, step), run[n - 1])
  {
    hide At;
  }
}
