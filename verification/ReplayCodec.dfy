/** `replay-ring.ts`, the diff: identities of captured rectangles, what changed
    between two frames, and the reader that plays a delta back. */
module ReplayCodec {
  import opened Prelude

  datatype Node = Node(
    x: real, y: real, w: real, h: real,
    kind: Option<string>, text: Option<string>, color: Option<string>)

  /** `Math.trunc`. */
  function Trunc(v: real): int {
    if v >= 0.0 then v.Floor else -(-v).Floor
  }

  datatype Box = Box(x: int, y: int, w: int, h: int)

  /** Geometry plus occurrence in walk order; the source writes it as text. */
  datatype Id = Id(box: Box, occurrence: nat)

  function BoxOf(node: Node): Box {
    Box(Trunc(node.x), Trunc(node.y), Trunc(node.w), Trunc(node.h))
  }

  datatype Slot = Slot(node: Node, at: nat)

  /** A JavaScript `Map`: keys in insertion order, one value each. */
  datatype Indexed = Indexed(order: seq<Id>, slots: map<Id, Slot>) {
    ghost predicate Valid() {
      && (forall id :: id in order <==> id in slots)
      && forall i, j | 0 <= i < j < |order| :: order[i] != order[j]
    }

    function Set(id: Id, slot: Slot): (r: Indexed)
      requires Valid()
      ensures r.Valid()
    {
      Indexed(if id in slots then order else order + [id], slots[id := slot])
    }
  }

  // ---------------------------------------------------------------- indexing

  /** How many of the first `n` nodes have this truncated geometry. */
  ghost function Count(nodes: seq<Node>, n: nat, box: Box): nat
    requires n <= |nodes|
  {
    if n == 0 then 0 else Count(nodes, n - 1, box) + if BoxOf(nodes[n - 1]) == box then 1 else 0
  }

  ghost function IdOf(nodes: seq<Node>, i: nat): Id
    requires i < |nodes|
  {
    Id(BoxOf(nodes[i]), Count(nodes, i, BoxOf(nodes[i])))
  }

  /** The index of a frame's first `n` nodes. */
  ghost function IndexOf(nodes: seq<Node>, n: nat): (r: Indexed)
    requires n <= |nodes|
    ensures r.Valid()
  {
    if n == 0 then Indexed([], map[])
    else IndexOf(nodes, n - 1).Set(IdOf(nodes, n - 1), Slot(nodes[n - 1], n - 1))
  }

  ghost function Index(nodes: seq<Node>): (r: Indexed)
    ensures r.Valid()
  {
    IndexOf(nodes, |nodes|)
  }

  /** Stacked rectangles never collapse: distinct positions, distinct identities. */
  lemma IdsDistinct(nodes: seq<Node>, i: nat, j: nat)
    requires i < j < |nodes|
    ensures IdOf(nodes, i) != IdOf(nodes, j)
  {
    CountGrows(nodes, i + 1, j, BoxOf(nodes[i]));
  }

  lemma {:induction false} CountGrows(nodes: seq<Node>, m: nat, n: nat, box: Box)
    requires m <= n <= |nodes|
    ensures Count(nodes, m, box) <= Count(nodes, n, box)
  {
    if m < n { CountGrows(nodes, m, n - 1, box); }
  }

  /** The first `n` nodes are in the index, each under its own id with its position. */
  ghost predicate Holds(ix: Indexed, nodes: seq<Node>, n: nat)
    requires n <= |nodes|
  {
    && ix.Valid() && |ix.order| == n
    && forall i | 0 <= i < n :: ix.order[i] == IdOf(nodes, i) && ix.order[i] in ix.slots
        && ix.slots[ix.order[i]] == Slot(nodes[i], i)
  }

  /** Every node has its own entry, in walk order: none replaces another. */
  lemma {:induction false} IndexKeepsAll(nodes: seq<Node>, n: nat)
    requires n <= |nodes|
    ensures Holds(IndexOf(nodes, n), nodes, n)
  {
    hide *;
    if n == 0 {
      NothingHeld(nodes);
    } else {
      IndexOfStep(nodes, n);
      IndexKeepsAll(nodes, n - 1);
      HoldsSays(IndexOf(nodes, n - 1), nodes, n - 1);
      IdIsNew(nodes, n, IndexOf(nodes, n - 1));
      IndexSets(nodes, n, IndexOf(nodes, n - 1), IdOf(nodes, n - 1));
    }
  }

  lemma {:induction false} NothingHeld(nodes: seq<Node>)
    ensures Holds(IndexOf(nodes, 0), nodes, 0)
  {
  }

  lemma {:induction false} IndexOfStep(nodes: seq<Node>, n: nat)
    requires 0 < n <= |nodes|
    ensures IndexOf(nodes, n) == IndexOf(nodes, n - 1).Set(IdOf(nodes, n - 1), Slot(nodes[n - 1], n - 1))
  {
    hide IdOf, Indexed.Set, Indexed.Valid;
  }

  lemma {:induction false} HoldsSays(ix: Indexed, nodes: seq<Node>, n: nat)
    requires n <= |nodes| && Holds(ix, nodes, n)
    ensures |ix.order| == n
  {
  }

  lemma {:induction false} IdIsNew(nodes: seq<Node>, n: nat, before: Indexed)
    requires 0 < n <= |nodes| && Holds(before, nodes, n - 1)
    ensures forall i | 0 <= i < n - 1 :: before.order[i] != IdOf(nodes, n - 1)
  {
    hide Indexed.Valid;
    forall i | 0 <= i < n - 1 ensures before.order[i] != IdOf(nodes, n - 1) {
      IdsDistinct(nodes, i, n - 1);
      hide IdOf;
    }
  }

  lemma {:induction false} IndexSets(nodes: seq<Node>, n: nat, before: Indexed, id: Id)
    requires 0 < n <= |nodes| && Holds(before, nodes, n - 1) && id == IdOf(nodes, n - 1)
    requires forall i | 0 <= i < n - 1 :: before.order[i] != id
    ensures Holds(before.Set(id, Slot(nodes[n - 1], n - 1)), nodes, n)
  {
    hide IdOf, Indexed.Set, Indexed.Valid;
    SetAppends(before, id, Slot(nodes[n - 1], n - 1));
  }

  /** A new key goes to the end and touches no other. */
  lemma {:induction false} SetAppends(before: Indexed, id: Id, slot: Slot)
    requires before.Valid() && forall i | 0 <= i < |before.order| :: before.order[i] != id
    ensures var ix := before.Set(id, slot);
      && ix.order == before.order + [id] && id in ix.slots && ix.slots[id] == slot
      && forall i | 0 <= i < |before.order| ::
           before.order[i] in ix.slots && ix.slots[before.order[i]] == before.slots[before.order[i]]
  {
    assert forall i | 0 <= i < |before.order| :: before.order[i] in before.order;
  }

  /** How often each geometry was seen among the first `n` nodes. */
  ghost predicate Counts(seen: map<Box, nat>, nodes: seq<Node>, n: nat)
    requires n <= |nodes|
  {
    forall box: Box :: (if box in seen then seen[box] else 0) == Count(nodes, n, box)
  }

  lemma {:induction false} CountsStep(seen: map<Box, nat>, nodes: seq<Node>, n: nat)
    requires n < |nodes| && Counts(seen, nodes, n)
    ensures var base := BoxOf(nodes[n]); var occurrence := if base in seen then seen[base] else 0;
      && Id(base, occurrence) == IdOf(nodes, n)
      && Counts(seen[base := occurrence + 1], nodes, n + 1)
  {
    hide BoxOf;
  }

  /** `indexReplayNodes`: one pass, counting how often each geometry was seen. */
  method IndexNodes(nodes: seq<Node>) returns (out: Indexed)
    ensures out == Index(nodes)
  {
    out := Indexed([], map[]);
    var seen: map<Box, nat> := map[];
    hide Counts;
    assert Counts(seen, nodes, 0) by { NoneCounted(nodes); }
    for at := 0 to |nodes|
      invariant out == IndexOf(nodes, at)
      invariant Counts(seen, nodes, at)
    {
      CountsStep(seen, nodes, at);
      hide BoxOf, IdOf, Indexed.Set;
      var base := BoxOf(nodes[at]);
      var occurrence := if base in seen then seen[base] else 0;
      seen := seen[base := occurrence + 1];
      out := out.Set(Id(base, occurrence), Slot(nodes[at], at));
    }
  }

  lemma {:induction false} NoneCounted(nodes: seq<Node>)
    ensures Counts(map[], nodes, 0)
  {
  }

  // ------------------------------------------------------------------ deltas

  /** What a wireframe draws of a node. */
  datatype Look = Look(kind: string, color: string, text: string)

  function LookOf(node: Node): Look {
    Look(node.kind.GetOr(""), node.color.GetOr(""), node.text.GetOr(""))
  }

  datatype Added = Added(node: Node, at: nat, id: Id)
  datatype Changed = Changed(node: Node, id: Id)
  datatype Removed = Removed(x: real, y: real, w: real, h: real, id: Id)
  datatype Delta = Delta(added: seq<Added>, changed: seq<Changed>, removed: seq<Removed>) {
    function Touched(): nat {
      |added| + |changed| + |removed|
    }
  }

  type Picture = map<Id, Look>

  ghost function PictureOf(ix: Indexed): Picture {
    map id | id in ix.slots :: LookOf(ix.slots[id].node)
  }

  /** Play a delta: take out, put in, repaint. */
  function Play(p: Picture, d: Delta): Picture {
    Repaint(PutIn(p - (set i | 0 <= i < |d.removed| :: d.removed[i].id), d.added), d.changed)
  }

  function PutIn(p: Picture, added: seq<Added>): Picture {
    if added == [] then p
    else PutIn(p, added[..|added| - 1])[added[|added| - 1].id := LookOf(added[|added| - 1].node)]
  }

  function Repaint(p: Picture, changed: seq<Changed>): Picture {
    if changed == [] then p
    else Repaint(p, changed[..|changed| - 1])[changed[|changed| - 1].id := LookOf(changed[|changed| - 1].node)]
  }

  // The three lists, as far as the first `k` nodes of the walk decide them.

  ghost function AddedOf(prev: Indexed, curr: Indexed, k: nat): seq<Added>
    requires curr.Valid() && k <= |curr.order|
  {
    if k == 0 then []
    else
      var id := curr.order[k - 1];
      AddedOf(prev, curr, k - 1)
      + if id !in prev.slots then [Added(curr.slots[id].node, curr.slots[id].at, id)] else []
  }

  ghost function ChangedOf(prev: Indexed, curr: Indexed, k: nat): seq<Changed>
    requires curr.Valid() && k <= |curr.order|
  {
    if k == 0 then []
    else
      var id := curr.order[k - 1];
      ChangedOf(prev, curr, k - 1)
      + if id in prev.slots && LookOf(prev.slots[id].node) != LookOf(curr.slots[id].node)
        then [Changed(curr.slots[id].node, id)] else []
  }

  ghost function RemovedOf(prev: Indexed, curr: Indexed, k: nat): seq<Removed>
    requires prev.Valid() && k <= |prev.order|
  {
    if k == 0 then []
    else
      var id := prev.order[k - 1];
      RemovedOf(prev, curr, k - 1)
      + if id !in curr.slots then [Removed(prev.slots[id].node.x, prev.slots[id].node.y,
                                           prev.slots[id].node.w, prev.slots[id].node.h, id)] else []
  }

  ghost function DeltaOf(prev: Indexed, curr: Indexed): Delta
    requires prev.Valid() && curr.Valid()
  {
    Delta(AddedOf(prev, curr, |curr.order|), ChangedOf(prev, curr, |curr.order|), RemovedOf(prev, curr, |prev.order|))
  }

  /** `computeReplayDelta`. */
  method ComputeDelta(prev: Indexed, curr: Indexed) returns (d: Delta)
    requires prev.Valid() && curr.Valid()
    ensures d == DeltaOf(prev, curr)
  {
    var added: seq<Added> := [];
    var changed: seq<Changed> := [];
    for k := 0 to |curr.order|
      invariant added == AddedOf(prev, curr, k)
      invariant changed == ChangedOf(prev, curr, k)
    {
      var id := curr.order[k];
      var slot := curr.slots[id];
      if id !in prev.slots {
        added := added + [Added(slot.node, slot.at, id)];
      } else if LookOf(prev.slots[id].node) != LookOf(slot.node) {
        changed := changed + [Changed(slot.node, id)];
      }
    }
    var removed: seq<Removed> := [];
    for k := 0 to |prev.order|
      invariant removed == RemovedOf(prev, curr, k)
    {
      var id := prev.order[k];
      if id !in curr.slots {
        var n := prev.slots[id].node;
        removed := removed + [Removed(n.x, n.y, n.w, n.h, id)];
      }
    }
    d := Delta(added, changed, removed);
  }

  ghost function Shown(p: Picture, id: Id): Option<Look> {
    if id in p then Some(p[id]) else None
  }

  ghost function ShownIn(ix: Indexed, id: Id): Option<Look> {
    if id in ix.slots then Some(LookOf(ix.slots[id].node)) else None
  }

  lemma LastOfPrefix(ix: Indexed, k: nat, x: Id)
    requires ix.Valid() && 0 < k <= |ix.order|
    ensures x in ix.order[..k] <==> x in ix.order[..k - 1] || x == ix.order[k - 1]
    ensures ix.order[k - 1] in ix.slots
  {
    assert ix.order[..k] == ix.order[..k - 1] + [ix.order[k - 1]];
  }

  lemma {:induction false} PutInAdded(p: Picture, prev: Indexed, curr: Indexed, k: nat, x: Id)
    requires curr.Valid() && k <= |curr.order|
    ensures Shown(PutIn(p, AddedOf(prev, curr, k)), x)
         == if x in curr.order[..k] && x !in prev.slots then ShownIn(curr, x) else Shown(p, x)
  {
    if k > 0 {
      PutInAdded(p, prev, curr, k - 1, x);
      var id := curr.order[k - 1];
      var before := AddedOf(prev, curr, k - 1);
      LastOfPrefix(curr, k, x);
      if id !in prev.slots {
        assert (before + [Added(curr.slots[id].node, curr.slots[id].at, id)])[..|before|] == before;
      } else {
        assert before + [] == before;
      }
    }
  }

  lemma {:induction false} RepaintChanged(p: Picture, prev: Indexed, curr: Indexed, k: nat, x: Id)
    requires curr.Valid() && k <= |curr.order|
    requires x in prev.slots ==> x in curr.slots ==> Shown(p, x) == ShownIn(prev, x)
    ensures Shown(Repaint(p, ChangedOf(prev, curr, k)), x)
         == if x in curr.order[..k] && x in prev.slots then ShownIn(curr, x) else Shown(p, x)
  {
    if k > 0 {
      RepaintChanged(p, prev, curr, k - 1, x);
      var id := curr.order[k - 1];
      var before := ChangedOf(prev, curr, k - 1);
      LastOfPrefix(curr, k, x);
      if id in prev.slots && LookOf(prev.slots[id].node) != LookOf(curr.slots[id].node) {
        assert (before + [Changed(curr.slots[id].node, id)])[..|before|] == before;
      } else {
        assert before + [] == before;
      }
    }
  }

  lemma {:induction false} RemovedIds(prev: Indexed, curr: Indexed, k: nat)
    requires prev.Valid() && k <= |prev.order|
    ensures var r := RemovedOf(prev, curr, k);
      (set i | 0 <= i < |r| :: r[i].id) == set id | id in prev.order[..k] && id !in curr.slots
  {
    if k > 0 {
      RemovedIds(prev, curr, k - 1);
      var id := prev.order[k - 1];
      var before, r := RemovedOf(prev, curr, k - 1), RemovedOf(prev, curr, k);
      assert prev.order[..k] == prev.order[..k - 1] + [id];
      var ids := set i | 0 <= i < |r| :: r[i].id;
      var idsBefore := set i | 0 <= i < |before| :: before[i].id;
      assert r[..|before|] == before;
      assert forall i | 0 <= i < |before| :: r[i].id in ids && before[i].id in idsBefore && r[i] == before[i];
      if id !in curr.slots {
        assert r[|before|].id == id;
        assert ids == idsBefore + {id};
      } else {
        assert r == before;
      }
    }
  }

  /** A delta takes the previous picture exactly to the current one. */
  lemma DeltaPlays(prev: Indexed, curr: Indexed)
    requires prev.Valid() && curr.Valid()
    ensures Play(PictureOf(prev), DeltaOf(prev, curr)) == PictureOf(curr)
  {
    var p, d := PictureOf(prev), DeltaOf(prev, curr);
    assert prev.order[..|prev.order|] == prev.order && curr.order[..|curr.order|] == curr.order;
    RemovedIds(prev, curr, |prev.order|);
    var kept := p - (set i | 0 <= i < |d.removed| :: d.removed[i].id);
    forall x ensures Shown(Play(p, d), x) == ShownIn(curr, x) {
      assert Shown(kept, x) == if x in curr.slots then ShownIn(prev, x) else None;
      PutInAdded(kept, prev, curr, |curr.order|, x);
      RepaintChanged(PutIn(kept, d.added), prev, curr, |curr.order|, x);
    }
    forall x ensures x in Play(p, d) <==> x in PictureOf(curr) { assert Shown(Play(p, d), x) == ShownIn(curr, x); }
    forall x | x in PictureOf(curr) ensures Play(p, d)[x] == PictureOf(curr)[x] {
      assert Shown(Play(p, d), x) == ShownIn(curr, x);
    }
  }

  /** A frame is dropped as unchanged exactly when it would look the same. */
  lemma UntouchedIsSame(prev: Indexed, curr: Indexed)
    requires prev.Valid() && curr.Valid()
    ensures DeltaOf(prev, curr).Touched() == 0 <==> PictureOf(prev) == PictureOf(curr)
  {
    var d := DeltaOf(prev, curr);
    if d.Touched() == 0 {
      DeltaPlays(prev, curr);
      assert d == Delta([], [], []);
      var none: set<Id> := {};
      assert PictureOf(prev) - none == PictureOf(prev);
      assert Play(PictureOf(prev), d) == PictureOf(prev);
    }
    if PictureOf(prev) == PictureOf(curr) {
      assert forall id :: id in prev.slots <==> id in PictureOf(prev);
      assert forall id :: id in curr.slots <==> id in PictureOf(curr);
      NothingListed(prev, curr, |curr.order|, |prev.order|);
    }
  }

  lemma {:induction false} NothingListed(prev: Indexed, curr: Indexed, k: nat, m: nat)
    requires prev.Valid() && curr.Valid() && k <= |curr.order| && m <= |prev.order|
    requires forall id :: id in prev.slots <==> id in curr.slots
    requires forall id | id in prev.slots :: LookOf(prev.slots[id].node) == LookOf(curr.slots[id].node)
    ensures AddedOf(prev, curr, k) == [] && ChangedOf(prev, curr, k) == [] && RemovedOf(prev, curr, m) == []
  {
    if k > 0 { NothingListed(prev, curr, k - 1, m); }
    else if m > 0 { NothingListed(prev, curr, k, m - 1); }
  }
}
