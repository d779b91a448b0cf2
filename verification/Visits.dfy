/** The buffer of page visits: `sdk/web/src/performance-model.ts` and its use in
    `sdk/web/src/performance.ts`. */
module Visits {
  import opened Prelude
  import Runs

  const MAX_ROWS: nat := 20
  const MAX_BYTES: nat := 48_000

  /** A visit row; `size` is the length of its JSON text in bytes. */
  datatype Visit = Visit(id: string, revision: int, size: nat)

  /** The JSON text of the rows: brackets, and a comma between two. */
  function Bytes(rows: seq<Visit>): nat {
    if rows == [] then 2 else rows[0].size + 1 + if |rows| == 1 then 1 else Bytes(rows[1..])
  }

  predicate Stale(visits: seq<Visit>, next: Visit) {
    exists v | v in visits :: v.id == next.id && v.revision > next.revision
  }

  function Without(visits: seq<Visit>, id: string): seq<Visit> {
    if visits == [] then []
    else (if visits[0].id != id then [visits[0]] else []) + Without(visits[1..], id)
  }

  /** What the shifts leave: the longest end that fits. */
  function Fitting(rows: seq<Visit>): seq<Visit> {
    if rows != [] && Bytes(rows) > MAX_BYTES then Fitting(rows[1..]) else rows
  }

  /** `slice(-20)`. */
  function Newest(rows: seq<Visit>): seq<Visit> {
    if |rows| > MAX_ROWS then rows[|rows| - MAX_ROWS..] else rows
  }

  function Bounded(visits: seq<Visit>, next: Visit): seq<Visit> {
    if Stale(visits, next) then visits
    else
      Fitting(Newest(Without(visits, next.id) + [next]))
  }

  lemma {:induction false} WithoutJoins(a: seq<Visit>, b: seq<Visit>, id: string)
    ensures Without(a + b, id) == Without(a, id) + Without(b, id)
  {
    hide Without;
    if a == [] {
      assert a + b == b;
      WithoutNone(id);
    } else {
      WithoutHead(a, id);
      WithoutHead(a + b, id);
      WithoutJoins(a[1..], b, id);
      assert (a + b)[1..] == a[1..] + b;
    }
  }

  lemma {:induction false} WithoutNone(id: string)
    ensures Without([], id) == []
  {
  }

  lemma {:induction false} WithoutHead(visits: seq<Visit>, id: string)
    requires visits != []
    ensures Without(visits, id) == (if visits[0].id != id then [visits[0]] else []) + Without(visits[1..], id)
  {
  }

  lemma {:induction false} WithoutOne(visits: seq<Visit>, k: nat, id: string)
    requires k < |visits|
    ensures Without(visits[..k + 1], id) == Without(visits[..k], id) + if visits[k].id != id then [visits[k]] else []
  {
    assert visits[..k + 1] == visits[..k] + [visits[k]];
    WithoutJoins(visits[..k], [visits[k]], id);
  }

  method BoundedVisits(visits: seq<Visit>, next: Visit) returns (rows: seq<Visit>)
    ensures rows == Bounded(visits, next)
  {
    if exists v | v in visits :: v.id == next.id && v.revision > next.revision { return visits; }
    rows := [];
    var k := 0;
    while k < |visits|
      invariant k <= |visits| && rows == Without(visits[..k], next.id)
    {
      WithoutOne(visits, k, next.id);
      if visits[k].id != next.id { rows := rows + [visits[k]]; }
      k := k + 1;
    }
    assert visits[..k] == visits;
    rows := rows + [next];
    rows := Newest(rows);
    ghost var all := rows;
    while |rows| > 0 && Bytes(rows) > MAX_BYTES
      invariant Fitting(rows) == Fitting(all)
    {
      rows := rows[1..];
    }
  }

  // ------------------------------------------------------------------ what it keeps

  predicate Unique(rows: seq<Visit>) {
    forall j, k | 0 <= j < k < |rows| :: rows[j].id != rows[k].id
  }

  /** Distinct ids, at most twenty rows, within the byte cap. */
  predicate Buffer(rows: seq<Visit>) {
    Unique(rows) && |rows| <= MAX_ROWS && (rows == [] || Bytes(rows) <= MAX_BYTES)
  }

  lemma {:induction false} FittingIsEnd(rows: seq<Visit>) returns (k: nat)
    ensures k <= |rows| && Fitting(rows) == rows[k..]
    ensures Fitting(rows) == [] || Bytes(Fitting(rows)) <= MAX_BYTES
    ensures k > 0 ==> Bytes(rows[k - 1..]) > MAX_BYTES
  {
    k := 0;
    if rows != [] && Bytes(rows) > MAX_BYTES {
      var j := FittingIsEnd(rows[1..]);
      k := j + 1;
      assert rows[1..][j..] == rows[k..];
      if j > 0 { assert rows[1..][j - 1..] == rows[k - 1..]; }
    }
  }

  lemma {:induction false} WithoutSays(visits: seq<Visit>, id: string)
    ensures forall v :: v in Without(visits, id) <==> v in visits && v.id != id
    ensures Unique(visits) ==> Unique(Without(visits, id))
  {
    if visits != [] {
      WithoutSays(visits[1..], id);
      assert Unique(visits) ==> Unique(visits[1..]) && forall v | v in visits[1..] :: v.id != visits[0].id;
      var head, rest := if visits[0].id != id then [visits[0]] else [], Without(visits[1..], id);
      assert forall v | v in rest :: v in visits[1..];
      forall j, k | Unique(visits) && 0 <= j < k < |head + rest| ensures (head + rest)[j].id != (head + rest)[k].id {
        if j == 0 && |head| == 1 { assert rest[k - 1] in rest; }
      }
    }
  }

  lemma {:induction false} EndOfUnique(rows: seq<Visit>, k: nat)
    requires Unique(rows) && k <= |rows|
    ensures Unique(rows[k..])
  {
  }

  lemma {:induction false} AppendUnique(rows: seq<Visit>, next: Visit)
    requires Unique(rows) && forall v | v in rows :: v.id != next.id
    ensures Unique(rows + [next])
  {
  }

  /** What a row that is not stale leaves: the end of the other rows and itself, so the
      oldest go first. */
  lemma {:induction false} BoundedIsEnd(visits: seq<Visit>, next: Visit) returns (k: nat)
    requires !Stale(visits, next)
    ensures var all := Without(visits, next.id) + [next];
      && k <= |all| && Bounded(visits, next) == all[k..]
      && |Bounded(visits, next)| <= MAX_ROWS
      && (Bounded(visits, next) == [] || Bytes(Bounded(visits, next)) <= MAX_BYTES)
      && (k > 0 ==> |all| - k == MAX_ROWS || Bytes(all[k - 1..]) > MAX_BYTES)
  {
    hide Stale, Without, Fitting, Bytes;
    var all := Without(visits, next.id) + [next];
    var cut := if |all| > MAX_ROWS then |all| - MAX_ROWS else 0;
    var j := FittingIsEnd(all[cut..]);
    k := cut + j;
    assert all[cut..][j..] == all[k..];
    if j > 0 { assert all[cut..][j - 1..] == all[k - 1..]; }
  }

  /** The buffer stays within its bounds. */
  lemma {:induction false} BoundedKeeps(visits: seq<Visit>, next: Visit)
    requires Buffer(visits)
    ensures Buffer(Bounded(visits, next))
  {
    if !Stale(visits, next) {
      WithoutSays(visits, next.id);
      AppendUnique(Without(visits, next.id), next);
      var k := BoundedIsEnd(visits, next);
      EndOfUnique(Without(visits, next.id) + [next], k);
    }
  }

  predicate Newer(visits: seq<Visit>, next: Visit) {
    forall v | v in visits && v.id == next.id :: v.revision <= next.revision
  }

  /** The new row is there exactly when no later revision is and it fits on its own. */
  lemma {:induction false} NewRowIsKeptIff(visits: seq<Visit>, next: Visit)
    ensures next in Bounded(visits, next) <==>
            if Newer(visits, next) then next.size + 2 <= MAX_BYTES else next in visits
  {
    assert Newer(visits, next) <==> !Stale(visits, next);
    if !Stale(visits, next) {
      var k := BoundedIsEnd(visits, next);
      var all := Without(visits, next.id) + [next];
      WithoutSays(visits, next.id);
      if k < |all| {
        assert all[k..][|all| - 1 - k] == next;
        TailFits(all, k);
      } else {
        assert all[k - 1..] == [next];
      }
    }
  }

  lemma {:induction false} TailFits(rows: seq<Visit>, k: nat)
    requires k < |rows| && Bytes(rows[k..]) <= MAX_BYTES
    ensures rows[|rows| - 1].size + 2 <= MAX_BYTES
    decreases |rows| - k
  {
    if k + 1 < |rows| {
      assert rows[k..][1..] == rows[k + 1..];
      TailFits(rows, k + 1);
    }
  }

  /** Two lists written as one: one bracket pair less, one comma more. */
  lemma {:induction false} BytesJoin(a: seq<Visit>, b: seq<Visit>)
    requires a != [] && b != []
    ensures Bytes(a + b) == Bytes(a) + Bytes(b) - 1
  {
    assert (a + b)[1..] == a[1..] + b;
    if |a| == 1 { assert a[1..] + b == b; } else { BytesJoin(a[1..], b); }
  }

  lemma {:induction false} WithoutIsShorter(visits: seq<Visit>, next: Visit)
    ensures |Without(visits, next.id)| <= |visits|
    ensures Bytes(Without(visits, next.id) + [next]) <= Bytes(visits + [next])
  {
    hide Bytes, Without;
    if visits == [] {
      WithoutNone(next.id);
    } else {
      WithoutHead(visits, next.id);
      WithoutIsShorter(visits[1..], next);
      var rest := Without(visits[1..], next.id) + [next];
      assert visits + [next] == [visits[0]] + (visits[1..] + [next]);
      BytesJoin([visits[0]], visits[1..] + [next]);
      BytesJoin([visits[0]], rest);
      OneRow(visits[0]);
      assert [visits[0]] + Without(visits[1..], next.id) + [next] == [visits[0]] + rest;
      if visits[0].id == next.id { assert Without(visits, next.id) == Without(visits[1..], next.id); }
    }
  }

  lemma {:induction false} OneRow(v: Visit)
    ensures Bytes([v]) == v.size + 2
  {
  }

  /** The rows and one more are within both caps. */
  predicate Room(visits: seq<Visit>) {
    |visits| <= MAX_ROWS && Bytes(visits) <= MAX_BYTES
  }

  /** Where there is room nothing but an older revision of the same id goes. */
  lemma {:induction false} WithRoom(visits: seq<Visit>, next: Visit)
    requires Unique(visits) && Room(visits + [next])
    ensures forall v :: v in Bounded(visits, next) <==>
      if v.id == next.id then (if Newer(visits, next) then v == next else v in visits) else v in visits
    ensures |Bounded(visits, next)| <= |visits| + 1
  {
    assert Newer(visits, next) <==> !Stale(visits, next);
    WithoutIsShorter(visits, next);
    WithoutSays(visits, next.id);
    hide Without, Bytes, Stale;
    if !Stale(visits, next) {
      var all := Without(visits, next.id) + [next];
      assert Bounded(visits, next) == all;
    }
  }

  lemma {:induction false} BoundedBytes(visits: seq<Visit>, next: Visit)
    requires Room(visits + [next])
    ensures Bytes(Bounded(visits, next)) <= Bytes(visits + [next])
  {
    WithoutIsShorter(visits, next);
    hide Without, Stale;
    if Stale(visits, next) && visits != [] { BytesJoin(visits, [next]); }
  }

  /** No revision goes back. */
  lemma {:induction false} RevisionsAdvance(visits: seq<Visit>, next: Visit, before: Visit, after: Visit)
    requires Unique(visits) && before in visits && after in Bounded(visits, next) && before.id == after.id
    ensures after.revision >= before.revision
  {
    if Stale(visits, next) {
      Same(visits, before, after);
    } else {
      var k := BoundedIsEnd(visits, next);
      WithoutSays(visits, next.id);
      assert after in Without(visits, next.id) + [next];
      if after != next { Same(visits, before, after); }
    }
  }

  lemma {:induction false} Same(rows: seq<Visit>, a: Visit, b: Visit)
    requires Unique(rows) && a in rows && b in rows && a.id == b.id
    ensures a == b
  {
  }

  // ------------------------------------------------------------------- acknowledged

  predicate Sent(batch: seq<Visit>, v: Visit) {
    exists sent | sent in batch :: sent.id == v.id && sent.revision == v.revision
  }

  function Unsent(pending: seq<Visit>, batch: seq<Visit>): seq<Visit> {
    if pending == [] then []
    else (if Sent(batch, pending[0]) then [] else [pending[0]]) + Unsent(pending[1..], batch)
  }

  /** An acknowledgement takes away exactly the pairs that were sent. */
  lemma {:induction false} AcknowledgedExactly(pending: seq<Visit>, batch: seq<Visit>)
    ensures forall v :: v in Unsent(pending, batch) <==>
                        v in pending && forall sent | sent in batch :: sent.id != v.id || sent.revision != v.revision
  {
    if pending != [] { AcknowledgedExactly(pending[1..], batch); }
  }

  lemma {:induction false} AcknowledgedIsSmaller(pending: seq<Visit>, batch: seq<Visit>)
    ensures Bytes(Unsent(pending, batch)) <= Bytes(pending) && |Unsent(pending, batch)| <= |pending|
  {
    if pending != [] {
      AcknowledgedIsSmaller(pending[1..], batch);
      var rest := Unsent(pending[1..], batch);
      if !Sent(batch, pending[0]) {
        assert Unsent(pending, batch) == [pending[0]] + rest;
        assert ([pending[0]] + rest)[1..] == rest;
      } else {
        assert Unsent(pending, batch) == rest;
      }
    }
  }

  /** And leaves the buffer within its bounds. */
  lemma {:induction false} AcknowledgedKeeps(pending: seq<Visit>, batch: seq<Visit>)
    requires Unique(pending)
    ensures Unique(Unsent(pending, batch))
    ensures Buffer(pending) ==> Buffer(Unsent(pending, batch))
  {
    if pending != [] {
      EndOfUnique(pending, 1);
      AcknowledgedKeeps(pending[1..], batch);
      AcknowledgedExactly(pending[1..], batch);
      var head: seq<Visit> := if Sent(batch, pending[0]) then [] else [pending[0]];
      var rest := Unsent(pending[1..], batch);
      forall j, k | 0 <= j < k < |head + rest| ensures (head + rest)[j].id != (head + rest)[k].id {
        if j == 0 && |head| == 1 { assert rest[k - 1] in rest && rest[k - 1] in pending[1..]; }
      }
      assert Unsent(pending, batch) == head + rest;
    }
    AcknowledgedIsSmaller(pending, batch);
  }

  /** A revision captured while the request was in flight survives it. */
  lemma {:induction false} NewerRevisionSurvives(pending: seq<Visit>, batch: seq<Visit>, v: Visit, sent: Visit)
    requires Unique(batch) && sent in batch && v in pending && v.id == sent.id && v.revision > sent.revision
    ensures v in Unsent(pending, batch)
  {
    AcknowledgedExactly(pending, batch);
  }

  // ------------------------------------------------------------------------- runs

  /** What changes the buffer: a snapshot or a restored row, an acknowledgement, a stop. */
  datatype Input = Row(next: Visit) | Acknowledged(batch: seq<Visit>) | Stopped

  function Step(pending: seq<Visit>, x: Input): seq<Visit> {
    match x
    case Row(next) => Bounded(pending, next)
    case Acknowledged(batch) => Unsent(pending, batch)
    case Stopped => []
  }

  predicate Holds(rows: seq<Visit>, id: string) {
    exists v | v in rows :: v.id == id
  }

  lemma {:induction false} StepKeeps(pending: seq<Visit>, x: Input)
    requires Buffer(pending)
    ensures Buffer(Step(pending, x))
  {
    match x
    case Row(next) => BoundedKeeps(pending, next);
    case Acknowledged(batch) => AcknowledgedKeeps(pending, batch);
    case Stopped =>
  }

  ghost function After(run: seq<Input>, k: nat): seq<Visit>
    requires k <= |run|
  {
    Runs.At([], run, k, Step)
  }

  /** Every run stays within the bounds. */
  lemma {:induction false} BufferAlways(run: seq<Input>, k: nat)
    requires k <= |run|
    ensures Buffer(After(run, k))
  {
    if k > 0 {
      BufferAlways(run, k - 1);
      StepKeeps(After(run, k - 1), run[k - 1]);
    }
  }

  lemma {:induction false} BufferIsUnique(rows: seq<Visit>)
    requires Buffer(rows)
    ensures Unique(rows)
  {
  }

  /** While an id stays buffered its revision never goes back. */
  lemma {:induction false} RevisionNeverGoesBack(run: seq<Input>, j: nat, k: nat, before: Visit, after: Visit)
    requires j <= k <= |run| && before in After(run, j) && after in After(run, k) && before.id == after.id
    requires forall i | j <= i <= k :: Holds(After(run, i), before.id)
    ensures after.revision >= before.revision
  {
    BufferAlways(run, k);
    BufferIsUnique(After(run, k));
    if j == k {
      Same(After(run, k), before, after);
    } else {
      BufferAlways(run, k - 1);
      BufferIsUnique(After(run, k - 1));
      assert Holds(After(run, k - 1), before.id);
      var v :| v in After(run, k - 1) && v.id == before.id;
      RevisionNeverGoesBack(run, j, k - 1, before, v);
      assert After(run, k) == Step(After(run, k - 1), run[k - 1]);
      hide After, Buffer, Bounded, Unsent, Bytes, Holds;
      match run[k - 1]
      case Row(next) => RevisionsAdvance(After(run, k - 1), next, v, after);
      case Acknowledged(batch) =>
        AcknowledgedExactly(After(run, k - 1), batch);
        Same(After(run, k - 1), v, after);
      case Stopped =>
    }
  }

  // ------------------------------------------------------------------- the collector

  function Backoff(failures: nat): int {
    var wait := 30_000 * Pow2(if failures < 4 then failures else 4);
    if wait < 300_000 then wait else 300_000
  }

  /** The wait doubles from half a minute to five minutes, and stays there. */
  lemma {:induction false} BackoffGrows(failures: nat, more: nat)
    requires failures <= more
    ensures Backoff(0) == 30_000 <= Backoff(failures) <= Backoff(more) <= 300_000
    ensures failures >= 4 ==> Backoff(failures) == 300_000
    ensures failures < 3 ==> Backoff(failures + 1) == 2 * Backoff(failures)
  {
    assert Pow2(1) == 2 && Pow2(2) == 4 && Pow2(3) == 8 && Pow2(4) == 16;
  }

  // -------------------------------------------------------------------- restoring

  function Restored(pending: seq<Visit>, rows: seq<Visit>, usable: Visit -> bool): seq<Visit>
    decreases |rows|
  {
    if rows == [] then pending
    else Restored(if usable(rows[0]) then Step(pending, Row(rows[0])) else pending, rows[1..], usable)
  }

  predicate LastTwenty(saved: seq<Visit>, v: Visit) {
    exists k | 0 <= k < |saved| :: |saved| - k <= 20 && saved[k] == v
  }

  lemma {:induction false} LastTwentyIs(saved: seq<Visit>)
    ensures forall v :: LastTwenty(saved, v) <==> v in Newest(saved)
  {
    forall v | LastTwenty(saved, v) ensures v in Newest(saved) {
      var k :| 0 <= k < |saved| && |saved| - k <= 20 && saved[k] == v;
      if |saved| > MAX_ROWS { assert Newest(saved)[k - (|saved| - MAX_ROWS)] == v; }
    }
  }

  /** What a restore takes: rows that were there, and usable rows that were saved. */
  lemma {:induction false} RestoredTakes(pending: seq<Visit>, rows: seq<Visit>, usable: Visit -> bool)
    requires Buffer(pending)
    ensures Buffer(Restored(pending, rows, usable))
    ensures forall v | v in Restored(pending, rows, usable) :: v in pending || (v in rows && usable(v))
    decreases |rows|
  {
    if rows != [] {
      var next := if usable(rows[0]) then Step(pending, Row(rows[0])) else pending;
      if usable(rows[0]) { BoundedKeeps(pending, rows[0]); }
      RestoredTakes(next, rows[1..], usable);
      forall v | v in next && v !in pending ensures v == rows[0] && usable(v) { BoundedTakes(pending, rows[0], v); }
      hide Step, Buffer;
    }
  }

  lemma {:induction false} BoundedTakes(visits: seq<Visit>, next: Visit, v: Visit)
    requires v in Bounded(visits, next)
    ensures v in visits || v == next
  {
    if !Stale(visits, next) {
      var k := BoundedIsEnd(visits, next);
      WithoutSays(visits, next.id);
      hide Bounded, Without, Stale;
      assert v in Without(visits, next.id) + [next];
    }
  }

  /** The id is buffered, at this revision or a later one. */
  predicate Covers(rows: seq<Visit>, w: Visit) {
    exists v | v in rows :: v.id == w.id && v.revision >= w.revision
  }

  lemma {:induction false} CoversItself(rows: seq<Visit>, w: Visit)
    requires w in rows
    ensures Covers(rows, w)
  {
  }

  /** Where all of it fits, nothing is lost: every row there was and every usable row saved
      is there afterwards, itself or a revision no older. */
  lemma {:induction false} RestoredCovers(pending: seq<Visit>, rows: seq<Visit>, usable: Visit -> bool, w: Visit)
    requires Buffer(pending) && Room(pending + rows)
    requires Covers(pending, w) || (w in rows && usable(w))
    ensures Covers(Restored(pending, rows, usable), w)
    decreases |rows|
  {
    if rows != [] {
      var x := rows[0];
      assert pending + rows == (pending + [x]) + rows[1..];
      RoomOfStart(pending + [x], rows[1..]);
      if usable(x) {
        BoundedKeeps(pending, x);
        if Covers(pending, w) || w == x { StepCovers(pending, x, w); }
        RoomAfter(pending, x, rows[1..]);
        RestoredCovers(Step(pending, Row(x)), rows[1..], usable, w);
      } else {
        RoomWithout(pending, x, rows[1..]);
        RestoredCovers(pending, rows[1..], usable, w);
      }
    }
  }

  lemma {:induction false} RoomOfStart(a: seq<Visit>, b: seq<Visit>)
    requires a != [] && Room(a + b)
    ensures Room(a)
  {
    if b == [] { assert a + b == a; } else { BytesJoin(a, b); }
    hide Bytes;
    AtLeastTwo(b);
  }

  lemma {:induction false} AtLeastTwo(rows: seq<Visit>)
    ensures Bytes(rows) >= 2
  {
    if rows != [] { AtLeastTwo(rows[1..]); }
  }

  lemma {:induction false} RoomAfter(pending: seq<Visit>, x: Visit, rows: seq<Visit>)
    requires Unique(pending) && Room(pending + [x]) && Room((pending + [x]) + rows)
    ensures Room(Bounded(pending, x) + rows)
  {
    var next := Bounded(pending, x);
    WithRoom(pending, x);
    BoundedBytes(pending, x);
    hide Bounded, Bytes;
    if rows == [] {
      assert next + rows == next;
    } else {
      BytesJoin(pending + [x], rows);
      assert exists v :: v in next && v.id == x.id;
      BytesJoin(next, rows);
    }
  }

  lemma {:induction false} RoomWithout(pending: seq<Visit>, x: Visit, rows: seq<Visit>)
    requires Room((pending + [x]) + rows) && (pending == [] || Bytes(pending) <= MAX_BYTES)
    ensures Room(pending + rows)
  {
    var none: seq<Visit> := [];
    assert Bytes(none) == 2;
    hide Bytes;
    OneRow(x);
    if rows == [] {
      assert pending + rows == pending;
    } else {
      BytesJoin(pending + [x], rows);
      if pending == [] {
        assert pending + [x] == [x] && pending + rows == rows;
      } else {
        BytesJoin(pending, [x]);
        BytesJoin(pending, rows);
      }
    }
  }

  lemma {:induction false} StepCovers(pending: seq<Visit>, x: Visit, w: Visit)
    requires Unique(pending) && Room(pending + [x])
    requires Covers(pending, w) || w == x
    ensures Covers(Step(pending, Row(x)), w) && Covers(Step(pending, Row(x)), x)
  {
    WithRoom(pending, x);
    hide Bounded, Room;
    if Newer(pending, x) { assert x in Bounded(pending, x); }
  }

  datatype Outcome = Status(code: int) | Threw

  predicate Acknowledging(o: Outcome) {
    o.Status? && (200 <= o.code < 300 || o.code in {400, 401, 403, 404, 413})
  }

  class Collector {
    var active: bool
    var pending: seq<Visit>
    var view: Option<Visit>
    var inFlight: Option<seq<Visit>>      // the batch of the request being sent
    var failures: nat
    var nextAttempt: int

    ghost predicate Valid()
      reads this
    {
      Buffer(pending) && (!active ==> pending == [])
    }

    constructor ()
      ensures Valid() && active && pending == [] && view.None? && inFlight.None? && failures == 0 && nextAttempt == 0
    {
      active, pending, view, inFlight, failures, nextAttempt := true, [], None, None, 0, 0;
    }

    /** `snapshot`: the view's next revision goes into the buffer. */
    method Snapshot(enabled: bool)
      requires Valid()
      modifies this`pending, this`view
      ensures Valid()
      ensures if active && enabled && old(view).Some?
              then view == Some(old(view).value.(revision := old(view).value.revision + 1))
                   && pending == Step(old(pending), Row(view.value))
              else view == old(view) && pending == old(pending)
    {
      if !active || !enabled || view.None? { return; }
      view := Some(view.value.(revision := view.value.revision + 1));
      BoundedKeeps(pending, view.value);
      pending := BoundedVisits(pending, view.value);
    }

    /** The rows a restore takes over, one after another. */
    method RestoreQueue(saved: seq<Visit>, usable: Visit -> bool)
      requires Valid() && active
      modifies this`pending
      ensures Valid()
      ensures pending == Restored(old(pending), Newest(saved), usable)
      ensures forall v | v in pending :: v in old(pending) || (LastTwenty(saved, v) && usable(v))
      ensures Room(old(pending) + Newest(saved)) ==>
        forall w | w in old(pending) || (LastTwenty(saved, w) && usable(w)) :: Covers(pending, w)
    {
      ghost var was := pending;
      RestoredTakes(pending, Newest(saved), usable);
      LastTwentyIs(saved);
      var rows := Newest(saved);
      var k := 0;
      assert rows[0..] == rows;
      while k < |rows|
        invariant k <= |rows| && Valid()
        invariant Restored(pending, rows[k..], usable) == Restored(old(pending), rows, usable)
      {
        if usable(rows[k]) {
          BoundedKeeps(pending, rows[k]);
          pending := BoundedVisits(pending, rows[k]);
        }
        k := k + 1;
      }
      hide Restored, Step, Bytes, Covers;
      if Room(was + Newest(saved)) {
        forall w | w in was || (w in Newest(saved) && usable(w)) ensures Covers(pending, w) {
          if w in was { CoversItself(was, w); }
          RestoredCovers(was, Newest(saved), usable, w);
        }
      }
    }

    /** `flush` up to its request: a snapshot first, unless it is off or a request is
        under way; then the whole buffer is sent, when there is one and its time has come,
        or the page is closing after no failure. */
    method BeginFlush(enabled: bool, now: int, last: bool) returns (sent: bool)
      requires Valid()
      modifies this`pending, this`view, this`inFlight
      ensures Valid()
      ensures sent <==> active && enabled && old(inFlight).None? && pending != []
                        && (now >= nextAttempt || (last && failures == 0))
      ensures inFlight == if sent then Some(pending) else old(inFlight)
      ensures if active && enabled && old(inFlight).None? && old(view).Some?
              then view == Some(old(view).value.(revision := old(view).value.revision + 1))
                   && pending == Step(old(pending), Row(view.value))
              else view == old(view) && pending == old(pending)
    {
      if !active || !enabled || inFlight.Some? { return false; }
      Snapshot(enabled);
      if now < nextAttempt && (!last || failures > 0) { return false; }
      if |pending| == 0 { return false; }
      inFlight := Some(Newest(pending));
      return true;
    }

    /** `flush` after its request: an answer that settles the batch takes it out of the
        buffer, anything else leaves the buffer alone and waits longer. */
    method EndFlush(o: Outcome, now: int)
      requires Valid() && inFlight.Some?
      modifies this
      ensures Valid() && inFlight.None?
      ensures !old(active) && o.Status? ==> pending == old(pending) && failures == old(failures)
      ensures old(active) && Acknowledging(o) && o.code != 403 ==>
                pending == Step(old(pending), Acknowledged(old(inFlight).value)) && failures == 0 && active
      ensures old(active) && o == Status(403) ==> !active && pending == [] && nextAttempt == old(nextAttempt)
      ensures (old(active) && o.Status? && !Acknowledging(o)) || o.Threw? ==>
                pending == old(pending) && failures == old(failures) + 1
      ensures (old(active) && o != Status(403)) || o.Threw? ==> nextAttempt == now + Backoff(failures)
    {
      hide Pow2, Unsent, Bytes;
      var batch := inFlight.value;
      inFlight := None;
      match o
      case Threw =>
        failures := failures + 1;
        nextAttempt := now + Backoff(failures);
      case Status(code) =>
        if !active { return; }
        if 200 <= code < 300 || code in {400, 401, 403, 404, 413} {
          AcknowledgedKeeps(pending, batch);
          pending := Unsent(pending, batch);
          failures := 0;
        } else {
          failures := failures + 1;
        }
        if code == 403 { Stop(); return; }
        nextAttempt := now + Backoff(failures);
    }

    method Stop()
      modifies this`active, this`view, this`pending
      ensures !active && view.None? && pending == [] == Step(old(pending), Stopped)
    {
      active, view, pending := false, None, [];
    }
  }
}
