/** What the ring's entries say, in terms of the frames pushed into it: which boxes a
    player draws, how many of them a delta touches, and when a keyframe is written. */
module ReplayShows {
  import opened Prelude
  import opened ReplayCodec
  import opened ReplayRing

  // ------------------------------------------------------------------ a frame as drawn

  /** `n` is `v` without its fraction. */
  predicate Cuts(v: real, n: int) {
    if v >= 0.0 then n as real <= v < n as real + 1.0 else v <= n as real < v + 1.0
  }

  predicate Fits(node: Node, box: Box) {
    Cuts(node.x, box.x) && Cuts(node.y, box.y) && Cuts(node.w, box.w) && Cuts(node.h, box.h)
  }

  /** The identity of a node: its whole-number box, and how many before it have the same. */
  predicate Names(id: Id, nodes: seq<Node>, i: nat) {
    i < |nodes| && Fits(nodes[i], id.box) && id.occurrence == |set j | 0 <= j < i && Fits(nodes[j], id.box)|
  }

  predicate Reads(text: string, given: Option<string>) {
    if given.Some? then text == given.value else text == ""
  }

  predicate Drawn(look: Look, node: Node) {
    Reads(look.kind, node.kind) && Reads(look.color, node.color) && Reads(look.text, node.text)
  }

  ghost predicate Depicts(p: Picture, nodes: seq<Node>, i: nat)
    requires i < |nodes|
  {
    exists id :: id in p && Names(id, nodes, i) && Drawn(p[id], nodes[i])
  }

  ghost predicate IsOneOf(id: Id, nodes: seq<Node>) {
    exists i: nat :: Names(id, nodes, i)
  }

  /** The picture has one box for every node, drawn as the node says, and no other. */
  ghost predicate Draws(p: Picture, nodes: seq<Node>) {
    && |p| == |nodes|
    && (forall i: nat | i < |nodes| :: Depicts(p, nodes, i))
    && (forall id | id in p :: IsOneOf(id, nodes))
  }

  lemma {:induction false} CutIsTrunc(v: real, n: int)
    ensures Cuts(v, n) <==> n == Trunc(v)
  {
  }

  lemma {:induction false} FitsIsBox(node: Node, box: Box)
    ensures Fits(node, box) <==> BoxOf(node) == box
  {
    CutIsTrunc(node.x, box.x);
    CutIsTrunc(node.y, box.y);
    CutIsTrunc(node.w, box.w);
    CutIsTrunc(node.h, box.h);
    hide Cuts, Trunc;
  }

  lemma {:induction false} CountIsSize(nodes: seq<Node>, n: nat, box: Box)
    requires n <= |nodes|
    ensures Count(nodes, n, box) == |set j | 0 <= j < n && Fits(nodes[j], box)|
  {
    hide Fits, BoxOf;
    if n > 0 {
      CountIsSize(nodes, n - 1, box);
      FitsIsBox(nodes[n - 1], box);
      var before := set j | 0 <= j < n - 1 && Fits(nodes[j], box);
      var all := set j | 0 <= j < n && Fits(nodes[j], box);
      assert all == before + if Fits(nodes[n - 1], box) then {n - 1} else {};
    }
  }

  lemma {:induction false} NamesIsId(id: Id, nodes: seq<Node>, i: nat)
    ensures Names(id, nodes, i) <==> i < |nodes| && id == IdOf(nodes, i)
  {
    if i < |nodes| {
      FitsIsBox(nodes[i], id.box);
      CountIsSize(nodes, i, id.box);
    }
    hide Fits, BoxOf, Count;
  }

  lemma {:induction false} LookIsDrawn(look: Look, node: Node)
    ensures Drawn(look, node) <==> look == LookOf(node)
  {
  }

  lemma {:induction false} DistinctSize<T>(s: seq<T>)
    requires forall i, j | 0 <= i < j < |s| :: s[i] != s[j]
    ensures |set x | x in s| == |s|
  {
    if s != [] {
      var init, last := s[..|s| - 1], s[|s| - 1];
      DistinctSize(init);
      assert s == init + [last];
      assert last !in init;
      assert (set x | x in s) == (set x | x in init) + {last};
    }
  }

  lemma {:induction false} PictureSize(ix: Indexed)
    requires ix.Valid()
    ensures |PictureOf(ix)| == |ix.order|
  {
    DistinctSize(ix.order);
    hide LookOf;
    assert PictureOf(ix).Keys == set x | x in ix.order;
  }

  lemma {:induction false} HeldAt(ix: Indexed, nodes: seq<Node>, i: nat)
    requires Holds(ix, nodes, |nodes|) && i < |nodes|
    ensures |ix.order| == |nodes| && ix.Valid() && ix.order[i] == IdOf(nodes, i)
    ensures ix.order[i] in ix.slots && ix.slots[ix.order[i]] == Slot(nodes[i], i)
  {
    hide IdOf, Indexed.Valid;
  }

  lemma {:induction false} NodeDrawn(ix: Indexed, nodes: seq<Node>, i: nat)
    requires Holds(ix, nodes, |nodes|) && i < |nodes|
    ensures Depicts(PictureOf(ix), nodes, i)
  {
    HeldAt(ix, nodes, i);
    NamesIsId(ix.order[i], nodes, i);
    LookIsDrawn(PictureOf(ix)[ix.order[i]], nodes[i]);
    hide Holds, Names, Drawn, IdOf, LookOf, Indexed.Valid;
    assert ix.order[i] in PictureOf(ix);
  }

  lemma {:induction false} ShownIsNode(ix: Indexed, nodes: seq<Node>, id: Id)
    requires Holds(ix, nodes, |nodes|) && id in PictureOf(ix)
    ensures IsOneOf(id, nodes)
  {
    var i :| 0 <= i < |ix.order| && ix.order[i] == id;
    HoldsSays(ix, nodes, |nodes|);
    HeldAt(ix, nodes, i);
    NamesIsId(id, nodes, i);
    hide Holds, Names, IdOf, LookOf;
  }

  /** A frame decodes to what was captured. */
  lemma {:induction false} FrameDraws(nodes: seq<Node>)
    ensures Draws(PictureOf(Index(nodes)), nodes)
  {
    hide Index, Holds, Names, Depicts, IsOneOf, PictureOf;
    var ix := Index(nodes);
    assert Holds(ix, nodes, |nodes|) by { IndexWhole(nodes); }
    HoldsSays(ix, nodes, |nodes|);
    PictureSize(ix);
    forall i: nat | i < |nodes| ensures Depicts(PictureOf(ix), nodes, i) { NodeDrawn(ix, nodes, i); }
    forall id | id in PictureOf(ix) ensures IsOneOf(id, nodes) { ShownIsNode(ix, nodes, id); }
  }

  lemma {:induction false} IndexWhole(nodes: seq<Node>)
    ensures Holds(Index(nodes), nodes, |nodes|)
  {
    IndexKeepsAll(nodes, |nodes|);
    hide Holds;
  }

  // ------------------------------------------------------------------ what a delta lists

  /** The boxes two pictures do not agree on. */
  ghost function Differing(p: Picture, q: Picture): set<Id> {
    set id | id in p.Keys + q.Keys && Shown(p, id) != Shown(q, id)
  }

  /** The boxes among the first `k` that are new, look different, or are gone. */
  ghost function NewIn(p: Indexed, c: Indexed, k: nat): set<Id>
    requires k <= |c.order|
  {
    set id | id in c.order[..k] && id !in p.slots
  }

  ghost function RedrawnIn(p: Indexed, c: Indexed, k: nat): set<Id>
    requires k <= |c.order|
  {
    set id | id in c.order[..k] && id in p.slots && ShownIn(p, id) != ShownIn(c, id)
  }

  lemma {:induction false} NewStep(p: Indexed, c: Indexed, k: nat)
    requires c.Valid() && 0 < k <= |c.order|
    ensures var id := c.order[k - 1];
      && NewIn(p, c, k) == NewIn(p, c, k - 1) + (if id !in p.slots then {id} else {})
      && id !in NewIn(p, c, k - 1)
  {
    assert c.order[..k] == c.order[..k - 1] + [c.order[k - 1]];
    assert c.order[k - 1] !in c.order[..k - 1];
  }

  lemma {:induction false} AddedSize(p: Indexed, c: Indexed, k: nat)
    requires c.Valid() && k <= |c.order|
    ensures |AddedOf(p, c, k)| == |NewIn(p, c, k)|
  {
    if k > 0 {
      AddedSize(p, c, k - 1);
      NewStep(p, c, k);
      hide NewIn, Indexed.Valid;
    }
  }

  lemma {:induction false} ChangedSize(p: Indexed, c: Indexed, k: nat)
    requires c.Valid() && k <= |c.order|
    ensures |ChangedOf(p, c, k)| == |RedrawnIn(p, c, k)|
  {
    if k > 0 {
      ChangedSize(p, c, k - 1);
      RedrawnStep(p, c, k);
      hide RedrawnIn, LookOf, ChangedOf, ShownIn, Indexed.Valid;
      ChangedStep(p, c, k);
    }
  }

  lemma {:induction false} ChangedStep(p: Indexed, c: Indexed, k: nat)
    requires c.Valid() && 0 < k <= |c.order|
    ensures var id := c.order[k - 1];
      |ChangedOf(p, c, k)| == |ChangedOf(p, c, k - 1)|
                              + if id in p.slots && ShownIn(p, id) != ShownIn(c, id) then 1 else 0
  {
    assert c.order[k - 1] in c.order;
    hide LookOf;
  }

  lemma {:induction false} RedrawnStep(p: Indexed, c: Indexed, k: nat)
    requires c.Valid() && 0 < k <= |c.order|
    ensures var id := c.order[k - 1];
      && RedrawnIn(p, c, k) == RedrawnIn(p, c, k - 1)
                               + (if id in p.slots && ShownIn(p, id) != ShownIn(c, id) then {id} else {})
      && id !in RedrawnIn(p, c, k - 1)
  {
    hide LookOf, ShownIn;
    assert c.order[..k] == c.order[..k - 1] + [c.order[k - 1]];
    assert c.order[k - 1] !in c.order[..k - 1];
  }

  lemma {:induction false} GoneSize(p: Indexed, c: Indexed, k: nat)
    requires p.Valid() && k <= |p.order|
    ensures |RemovedOf(p, c, k)| == |NewIn(c, p, k)|
  {
    if k > 0 {
      GoneSize(p, c, k - 1);
      NewStep(c, p, k);
      hide NewIn, Indexed.Valid;
    }
  }

  lemma {:induction false} ShownSame(ix: Indexed, id: Id)
    requires ix.Valid()
    ensures Shown(PictureOf(ix), id) == ShownIn(ix, id) && (id in PictureOf(ix) <==> id in ix.order[..|ix.order|])
    ensures id in ix.slots <==> id in ix.order[..|ix.order|]
  {
    hide LookOf;
    assert ix.order[..|ix.order|] == ix.order;
  }

  lemma {:induction false} DifferingParts(p: Indexed, c: Indexed)
    requires p.Valid() && c.Valid()
    ensures var fresh', redrawn, gone := NewIn(p, c, |c.order|), RedrawnIn(p, c, |c.order|), NewIn(c, p, |p.order|);
      && Differing(PictureOf(p), PictureOf(c)) == fresh' + redrawn + gone
      && fresh' !! redrawn && fresh' + redrawn !! gone
  {
    hide PictureOf, Shown, LookOf, Indexed.Valid;
    forall id
      ensures Shown(PictureOf(p), id) == ShownIn(p, id) && Shown(PictureOf(c), id) == ShownIn(c, id)
      ensures id in PictureOf(p) <==> id in p.order[..|p.order|]
      ensures id in PictureOf(c) <==> id in c.order[..|c.order|]
      ensures id in p.slots <==> id in p.order[..|p.order|]
      ensures id in c.slots <==> id in c.order[..|c.order|]
    {
      ShownSame(p, id);
      ShownSame(c, id);
    }
  }

  /** A delta lists every box on which the two pictures differ, once. */
  lemma {:induction false} TouchedIsDiffering(p: Indexed, c: Indexed)
    requires p.Valid() && c.Valid()
    ensures DeltaOf(p, c).Touched() == |Differing(PictureOf(p), PictureOf(c))|
  {
    AddedSize(p, c, |c.order|);
    ChangedSize(p, c, |c.order|);
    GoneSize(p, c, |p.order|);
    DifferingParts(p, c);
    hide NewIn, RedrawnIn, Differing, PictureOf, AddedOf, ChangedOf, RemovedOf, Indexed.Valid;
  }

  /** A delta's entries are taken from the two frames, each under its own identity. */
  ghost predicate Lists(d: Delta, before: seq<Node>, now: seq<Node>) {
    && (forall a | a in d.added :: Names(a.id, now, a.at) && a.at < |now| && a.node == now[a.at])
    && (forall c | c in d.changed :: exists i: nat :: Names(c.id, now, i) && i < |now| && c.node == now[i])
    && (forall r | r in d.removed :: exists i: nat :: Names(r.id, before, i) && i < |before| && Leaves(r, before[i]))
  }

  predicate Leaves(r: Removed, node: Node) {
    r.x == node.x && r.y == node.y && r.w == node.w && r.h == node.h
  }

  lemma {:induction false} AddedListed(p: Indexed, c: Indexed, now: seq<Node>, k: nat, a: Added)
    requires k <= |now| && Holds(c, now, |now|) && c.Valid() && |c.order| == |now| && a in AddedOf(p, c, k)
    ensures Names(a.id, now, a.at) && a.at < |now| && a.node == now[a.at]
  {
    hide Holds, Names, Indexed.Valid, IdOf;
    if k > 0 {
      HeldAt(c, now, k - 1);
      NamesIsId(c.order[k - 1], now, k - 1);
      if a in AddedOf(p, c, k - 1) { AddedListed(p, c, now, k - 1, a); }
    }
  }

  lemma {:induction false} ChangedListed(p: Indexed, c: Indexed, now: seq<Node>, k: nat, x: Changed)
    requires k <= |now| && Holds(c, now, |now|) && c.Valid() && |c.order| == |now| && x in ChangedOf(p, c, k)
    ensures exists i: nat :: Names(x.id, now, i) && i < |now| && x.node == now[i]
  {
    hide Holds, Names, LookOf, Indexed.Valid, IdOf;
    if k > 0 {
      HeldAt(c, now, k - 1);
      NamesIsId(c.order[k - 1], now, k - 1);
      if x in ChangedOf(p, c, k - 1) { ChangedListed(p, c, now, k - 1, x); }
    }
  }

  lemma {:induction false} RemovedListed(p: Indexed, c: Indexed, before: seq<Node>, k: nat, r: Removed)
    requires k <= |before| && Holds(p, before, |before|) && p.Valid() && |p.order| == |before|
    requires r in RemovedOf(p, c, k)
    ensures exists i: nat :: Names(r.id, before, i) && i < |before| && Leaves(r, before[i])
  {
    hide Holds, Names, Indexed.Valid, IdOf;
    if k > 0 {
      HeldAt(p, before, k - 1);
      NamesIsId(p.order[k - 1], before, k - 1);
      if r in RemovedOf(p, c, k - 1) { RemovedListed(p, c, before, k - 1, r); }
    }
  }

  lemma {:induction false} DeltaLists(before: seq<Node>, now: seq<Node>)
    ensures Lists(DeltaOf(Index(before), Index(now)), before, now)
  {
    hide Index, Holds, Names, AddedOf, ChangedOf, RemovedOf, Leaves;
    var p, c := Index(before), Index(now);
    var d := DeltaOf(p, c);
    IndexWhole(before);
    IndexWhole(now);
    HoldsSays(p, before, |before|);
    HoldsSays(c, now, |now|);
    forall a | a in d.added ensures Names(a.id, now, a.at) && a.at < |now| && a.node == now[a.at] {
      AddedListed(p, c, now, |now|, a);
    }
    forall x | x in d.changed ensures exists i: nat :: Names(x.id, now, i) && i < |now| && x.node == now[i] {
      ChangedListed(p, c, now, |now|, x);
    }
    forall r | r in d.removed ensures exists i: nat :: Names(r.id, before, i) && i < |before| && Leaves(r, before[i]) {
      RemovedListed(p, c, before, |before|, r);
    }
  }

  // ------------------------------------------------------------------ what a push appends

  /** The frames pushed since the ring was last cold. */
  ghost function Since(ops: seq<Op>): seq<Frame> {
    if ops == [] then []
    else
      match ops[|ops| - 1]
      case Drain => []
      case Push(f) => Since(ops[..|ops| - 1]) + [f]
  }

  /** The last keyframe's time, once there is one. */
  ghost function KeyTime(log: seq<Entry>): Option<real> {
    if LastKey(log) >= 0 then Some(log[LastKey(log)].ts) else None
  }

  /** The ring remembers the picture of the last frame since it was cold, one of those
      frames behind it, and the time of the last keyframe. */
  ghost predicate Remembers(r: Run, shown: seq<Frame>) {
    && (r.ring.last.Some? <==> shown != [])
    && (r.ring.last.Some? ==>
          && PictureOf(r.ring.last.value) == PictureOf(Index(shown[|shown| - 1].nodes))
          && KeyTime(r.log) == Some(r.ring.keyTs)
          && exists j :: 0 <= j < |shown| && r.ring.last.value == Index(shown[j].nodes))
  }

  ghost predicate Due(log: seq<Entry>, shown: seq<Frame>, f: Frame, o: Options) {
    shown == [] || KeyTime(log).None? || f.ts - KeyTime(log).value >= o.keyframeMs
  }

  /** The boxes a frame changes on the screen. */
  ghost function Moved(shown: seq<Frame>, f: Frame): set<Id> {
    Differing(if shown == [] then map[] else PictureOf(Index(shown[|shown| - 1].nodes)), PictureOf(Index(f.nodes)))
  }

  /** A keyframe carries the whole frame. */
  predicate Carries(e: Entry, f: Frame) {
    e.Key? ==> e.width == f.width && e.height == f.height && e.nodes == f.nodes
  }

  /** The delta leads from one of the frames to this one. */
  ghost predicate LeadsTo(e: Entry, shown: seq<Frame>, f: Frame) {
    e.Change? ==> exists j :: 0 <= j < |shown| && Lists(e.delta, shown[j].nodes, f.nodes)
  }

  /** What a push makes of the log: nothing while no box changes and no keyframe is due;
      otherwise one entry at the frame's time, a keyframe when one is due or when at least
      four tenths of ten or more boxes change, else a delta between two of the frames. */
  ghost predicate Appends(before: seq<Entry>, after: seq<Entry>, shown: seq<Frame>, f: Frame, o: Options) {
    var moved := |Moved(shown, f)|;
    if !Due(before, shown, f, o) && moved == 0 then after == before
    else
      && |after| == |before| + 1 && after[..|before|] == before
      && after[|before|].ts == f.ts && Carries(after[|before|], f)
      && (after[|before|].Key? <==>
            Due(before, shown, f, o) || (|f.nodes| >= 10 && 10 * moved >= 4 * |f.nodes|))
      && LeadsTo(after[|before|], shown, f)
  }

  lemma {:induction false} AppendsOne(before: seq<Entry>, e: Entry, shown: seq<Frame>, f: Frame, o: Options)
    requires Due(before, shown, f, o) || |Moved(shown, f)| != 0
    requires e.ts == f.ts && Carries(e, f) && LeadsTo(e, shown, f)
    requires e.Key? <==> Due(before, shown, f, o) || (|f.nodes| >= 10 && 10 * |Moved(shown, f)| >= 4 * |f.nodes|)
    ensures Appends(before, before + [e], shown, f, o)
  {
    hide Due, Moved, LeadsTo, Carries;
  }

  lemma {:induction false} EmittedNothingIff(r: Ring, f: Frame, o: Options)
    requires r.Valid() && r.last.Some? && f.ts - r.keyTs < o.keyframeMs
    ensures var touched := DeltaOf(r.last.value, Index(f.nodes)).Touched();
      match Emitted(r, f, o)
      case None => touched == 0
      case Some(e) =>
        && touched != 0 && e.ts == f.ts && Carries(e, f)
        && (e.Key? <==> |Index(f.nodes).order| >= 10 && 10 * touched >= 4 * |Index(f.nodes).order|)
        && (e.Change? ==> e.delta == DeltaOf(r.last.value, Index(f.nodes)))
  {
    hide DeltaOf, Index;
  }

  lemma {:induction false} EmittedDue(r: Ring, f: Frame, o: Options)
    requires r.Valid() && (r.last.None? || f.ts - r.keyTs >= o.keyframeMs)
    ensures var e := Emitted(r, f, o); e.Some? && e.value.Key? && e.value.ts == f.ts && Carries(e.value, f)
  {
  }

  lemma {:induction false} DueIs(r: Run, shown: seq<Frame>, f: Frame, o: Options)
    requires Remembers(r, shown)
    ensures Due(r.log, shown, f, o) <==> r.ring.last.None? || f.ts - r.ring.keyTs >= o.keyframeMs
  {
    hide KeyTime, Index, PictureOf;
  }

  /** What the ring compares a frame with. */
  lemma {:induction false} TouchedIsMoved(r: Run, shown: seq<Frame>, f: Frame)
    requires r.ring.Valid() && Remembers(r, shown) && r.ring.last.Some?
    ensures var d := DeltaOf(r.ring.last.value, Index(f.nodes));
      && d.Touched() == |Moved(shown, f)| && |Index(f.nodes).order| == |f.nodes|
      && exists j :: 0 <= j < |shown| && Lists(d, shown[j].nodes, f.nodes)
  {
    IndexWhole(f.nodes);
    HoldsSays(Index(f.nodes), f.nodes, |f.nodes|);
    LastIsValid(r.ring);
    hide DeltaOf, Index, PictureOf, Differing, Lists, KeyTime, Holds, Indexed.Valid, Delta.Touched;
    TouchedIsDiffering(r.ring.last.value, Index(f.nodes));
    var j :| 0 <= j < |shown| && r.ring.last.value == Index(shown[j].nodes);
    DeltaLists(shown[j].nodes, f.nodes);
  }

  lemma {:induction false} PushAppends(r: Run, shown: seq<Frame>, f: Frame, o: Options)
    requires r.ring.Valid() && Remembers(r, shown)
    ensures var e := Emitted(r.ring, f, o);
      Appends(r.log, r.log + (if e.Some? then [e.value] else []), shown, f, o)
  {
    DueIs(r, shown, f, o);
    if r.ring.last.None? || f.ts - r.ring.keyTs >= o.keyframeMs {
      EmittedDue(r.ring, f, o);
      hide Emitted, Appends, Due, Moved, Carries, Remembers, Ring.Valid;
      AppendsOne(r.log, Emitted(r.ring, f, o).value, shown, f, o);
    } else {
      EmittedNothingIff(r.ring, f, o);
      TouchedIsMoved(r, shown, f);
      hide Emitted, Due, Moved, Carries, Remembers, Ring.Valid, Index, DeltaOf, Lists, Delta.Touched;
      match Emitted(r.ring, f, o)
      case None => assert r.log + [] == r.log;
      case Some(e) =>
        hide Appends;
        AppendsOne(r.log, e, shown, f, o);
    }
  }

  lemma {:induction false} LastIsValid(r: Ring)
    requires r.Valid() && r.last.Some?
    ensures r.last.value.Valid()
  {
  }

  lemma {:induction false} RunRemembers(ops: seq<Op>, o: Options)
    ensures Remembers(After(ops, o), Since(ops))
  {
    if ops != [] {
      var init := ops[..|ops| - 1];
      RunRemembers(init, o);
      if ops[|ops| - 1].Push? {
        RunTracks(ops, o);
        PushRemembers(After(init, o), Since(init), ops[|ops| - 1].frame, o);
      }
    }
  }

  lemma {:induction false} PushRemembers(r: Run, shown: seq<Frame>, f: Frame, o: Options)
    requires r.ring.Valid() && Remembers(r, shown)
    ensures var e := Emitted(r.ring, f, o);
      var q := Run(Pushed(r.ring, f, o), r.log + if e.Some? then [e.value] else []);
      && q.ring.last.Some? && KeyTime(q.log) == Some(q.ring.keyTs)
      && exists j :: 0 <= j < |shown + [f]| && q.ring.last.value == Index((shown + [f])[j].nodes)
  {
    EmittedWhen(r.ring, f, o);
    PushedParts(r.ring, f, o);
    PushedLast(r.ring, f, o);
    hide Emitted, Index, Pushed, PictureOf, LastKey;
    match Emitted(r.ring, f, o)
    case None =>
      assert r.log + [] == r.log;
      var j :| 0 <= j < |shown| && r.ring.last.value == Index(shown[j].nodes);
      assert (shown + [f])[j] == shown[j];
    case Some(e) =>
      LastKeyOf(r.log, e);
      assert (shown + [f])[|shown|] == f;
  }

  lemma {:induction false} PushedLast(r: Ring, f: Frame, o: Options)
    requires r.Valid()
    ensures Emitted(r, f, o).Some? ==> Pushed(r, f, o).last == Some(Index(f.nodes))
  {
    hide Emitted, Evicted, Index;
  }

  /** What every push of every run appends, told by the frames alone. */
  lemma {:induction false} EveryPushAppends(ops: seq<Op>, o: Options)
    requires ops != [] && ops[|ops| - 1].Push?
    ensures Appends(After(ops[..|ops| - 1], o).log, After(ops, o).log, Since(ops[..|ops| - 1]), ops[|ops| - 1].frame, o)
  {
    var init := ops[..|ops| - 1];
    RunRemembers(init, o);
    PushAppends(After(init, o), Since(init), ops[|ops| - 1].frame, o);
    hide Appends, Emitted, Pushed, Remembers;
  }

  /** And a player that starts at any keyframe draws exactly the boxes of the frame pushed last. */
  lemma {:induction false} PlaybackDraws(ops: seq<Op>, k: nat, i: nat, o: Options)
    requires 0 < k <= |ops| && ops[k - 1].Push?
    requires i < |After(ops[..k], o).log| && After(ops[..k], o).log[i].Key?
    ensures After(ops[..k], o).log <= After(ops, o).log
    ensures Draws(Decode(After(ops, o).log[i..|After(ops[..k], o).log|]), ops[k - 1].frame.nodes)
  {
    Playback(ops, k, i, o);
    FrameDraws(ops[k - 1].frame.nodes);
    hide Draws, Decode, After, Index, PictureOf;
  }
}
