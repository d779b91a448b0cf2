/** `replay-ring.ts`, the ring: when a keyframe is due, what is appended, what
    falls out of the window, and why what is left can always be played back. */
module ReplayRing {
  import opened Prelude
  import opened ReplayCodec

  datatype Frame = Frame(ts: real, width: real, height: real, nodes: seq<Node>)

  datatype Entry =
    | Key(ts: real, width: real, height: real, nodes: seq<Node>)
    | Change(ts: real, delta: Delta)

  datatype Options = Options(keyframeMs: real, windowMs: real, maxItems: nat)

  const DELTA_TO_KEYFRAME_RATIO: real := 0.4
  const KEYFRAME_RATIO_MIN_NODES: nat := 10

  /** What the ring remembers. */
  datatype Ring = Ring(entries: seq<Entry>, last: Option<Indexed>, keyTs: real) {
    ghost predicate Valid() {
      last.Some? ==> last.value.Valid()
    }
  }

  const EMPTY: Ring := Ring([], None, 0.0)

  function KeyOf(f: Frame): Entry {
    Key(f.ts, f.width, f.height, f.nodes)
  }

  /** What a pushed frame becomes: nothing when it looks like the last one. */
  ghost function Emitted(r: Ring, f: Frame, o: Options): Option<Entry>
    requires r.Valid()
  {
    if r.last.None? || f.ts - r.keyTs >= o.keyframeMs then Some(KeyOf(f))
    else
      var curr := Index(f.nodes);
      var d := DeltaOf(r.last.value, curr);
      var size := |curr.order|;
      if d.Touched() == 0 then None
      else if size >= KEYFRAME_RATIO_MIN_NODES && d.Touched() as real >= size as real * DELTA_TO_KEYFRAME_RATIO
      then Some(KeyOf(f))
      else Some(Change(f.ts, d))
  }

  ghost function DropOld(entries: seq<Entry>, cutoff: real): seq<Entry> {
    if entries != [] && entries[0].ts < cutoff then DropOld(entries[1..], cutoff) else entries
  }

  ghost function DropExcess(entries: seq<Entry>, maxItems: nat): seq<Entry> {
    if |entries| > maxItems then entries[|entries| - maxItems..] else entries
  }

  ghost function Evicted(entries: seq<Entry>, now: real, o: Options): seq<Entry> {
    DropExcess(DropOld(entries, now - o.windowMs), o.maxItems)
  }

  ghost function Pushed(r: Ring, f: Frame, o: Options): (q: Ring)
    requires r.Valid()
    ensures q.Valid()
  {
    match Emitted(r, f, o)
    case None => r
    case Some(e) =>
      Ring(Evicted(r.entries + [e], f.ts, o), Some(Index(f.nodes)), if e.Key? then f.ts else r.keyTs)
  }

  /** The ring. `log` is everything it ever emitted. */
  class ReplayRing {
    var entries: seq<Entry>
    var lastState: Option<Indexed>
    var lastKeyframeTs: real
    const options: Options
    ghost var log: seq<Entry>

    ghost function State(): Ring
      reads this
    {
      Ring(entries, lastState, lastKeyframeTs)
    }

    constructor (options: Options)
      ensures this.options == options && State() == EMPTY && log == []
    {
      this.options := options;
      entries, lastState, lastKeyframeTs, log := [], None, 0.0, [];
    }

    method Keyframe(frame: Frame) returns (e: Entry)
      modifies this`lastKeyframeTs
      ensures e == KeyOf(frame) && lastKeyframeTs == frame.ts
    {
      lastKeyframeTs := frame.ts;
      e := Key(frame.ts, frame.width, frame.height, frame.nodes);
    }

    method Push(frame: Frame) returns (emitted: Option<Entry>)
      requires State().Valid()
      modifies this
      ensures State() == Pushed(old(State()), frame, options) && State().Valid()
      ensures emitted == Emitted(old(State()), frame, options)
      ensures log == old(log) + if emitted.Some? then [emitted.value] else []
    {
      hide Index, DeltaOf, Evicted, Indexed.Valid;
      var state := IndexNodes(frame.nodes);
      var entry;
      if lastState.None? || frame.ts - lastKeyframeTs >= options.keyframeMs {
        entry := Keyframe(frame);
      } else {
        var delta := ComputeDelta(lastState.value, state);
        var touched := delta.Touched();
        if touched == 0 { return None; }
        var size := |state.order|;
        if size >= KEYFRAME_RATIO_MIN_NODES && touched as real >= size as real * DELTA_TO_KEYFRAME_RATIO {
          entry := Keyframe(frame);
        } else {
          entry := Change(frame.ts, delta);
        }
      }
      entries := entries + [entry];
      log := log + [entry];
      Evict(frame.ts);
      lastState := Some(state);
      emitted := Some(entry);
    }

    method Snapshot() returns (out: seq<Entry>)
      ensures out == entries
    {
      out := entries;
    }

    method Drain() returns (out: seq<Entry>)
      modifies this
      ensures out == old(entries) && State() == EMPTY && log == old(log)
    {
      out := entries;
      entries := [];
      lastState := None;
      lastKeyframeTs := 0.0;
    }

    method Evict(now: real)
      modifies this`entries
      ensures entries == Evicted(old(entries), now, options)
    {
      var cutoff := now - options.windowMs;
      while entries != [] && entries[0].ts < cutoff
        invariant DropOld(entries, cutoff) == DropOld(old(entries), cutoff)
        decreases |entries|
      {
        entries := entries[1..];
      }
      while |entries| > options.maxItems
        invariant DropExcess(entries, options.maxItems) == Evicted(old(entries), now, options)
        decreases |entries|
      {
        entries := entries[1..];
      }
    }
  }

  // ------------------------------------------------------------------ decoding

  /** The player: a keyframe starts over, a delta is applied to what is shown. */
  ghost function Decode(es: seq<Entry>): Picture {
    if es == [] then map[]
    else
      match es[|es| - 1]
      case Key(_, _, _, nodes) => PictureOf(Index(nodes))
      case Change(_, delta) => Play(Decode(es[..|es| - 1]), delta)
  }

  datatype Op = Push(frame: Frame) | Drain

  /** A run from a cold ring: what the ring holds and all it has emitted. */
  datatype Run = Run(ring: Ring, log: seq<Entry>)

  ghost function After(ops: seq<Op>, o: Options): (r: Run)
    ensures r.ring.Valid()
  {
    if ops == [] then Run(EMPTY, [])
    else
      var before := After(ops[..|ops| - 1], o);
      match ops[|ops| - 1]
      case Drain => Run(EMPTY, before.log)
      case Push(f) =>
        var e := Emitted(before.ring, f, o);
        Run(Pushed(before.ring, f, o), before.log + if e.Some? then [e.value] else [])
  }

  /** Every keyframe of the log leads to the picture the ring compares against. */
  ghost predicate Tracks(r: Run) {
    r.ring.last.Some? ==>
      forall i | 0 <= i < |r.log| && r.log[i].Key? :: Decode(r.log[i..]) == PictureOf(r.ring.last.value)
  }

  lemma {:induction false} RunTracks(ops: seq<Op>, o: Options)
    ensures Tracks(After(ops, o))
    ensures ops != [] && ops[|ops| - 1].Push? ==>
      var r := After(ops, o);
      r.ring.last.Some? && PictureOf(r.ring.last.value) == PictureOf(Index(ops[|ops| - 1].frame.nodes))
  {
    if ops != [] {
      RunTracks(ops[..|ops| - 1], o);
      if ops[|ops| - 1].Push? {
        PushTracks(After(ops[..|ops| - 1], o), ops[|ops| - 1].frame, o);
      }
    }
  }

  lemma {:induction false} PushTracks(r: Run, f: Frame, o: Options)
    requires r.ring.Valid() && Tracks(r)
    ensures var e := Emitted(r.ring, f, o);
      var q := Run(Pushed(r.ring, f, o), r.log + if e.Some? then [e.value] else []);
      Tracks(q) && q.ring.last.Some? && PictureOf(q.ring.last.value) == PictureOf(Index(f.nodes))
  {
    var curr := Index(f.nodes);
    match Emitted(r.ring, f, o)
    case None =>
      assert r.log + [] == r.log;
      UntouchedIsSame(r.ring.last.value, curr);
    case Some(e) =>
      var log := r.log + [e];
      forall i | 0 <= i < |log| && log[i].Key? ensures Decode(log[i..]) == PictureOf(curr) {
        assert log[i..][|log[i..]| - 1] == e;
        if e.Change? {
          assert i < |r.log| && log[i..][..|log[i..]| - 1] == r.log[i..];
          DeltaPlays(r.ring.last.value, curr);
        }
      }
  }

  lemma {:induction false} LogGrows(ops: seq<Op>, k: nat, o: Options)
    requires k <= |ops|
    ensures After(ops[..k], o).log <= After(ops, o).log
  {
    if k == |ops| {
      assert ops[..k] == ops;
    } else {
      LogGrows(ops[..|ops| - 1], k, o);
      assert ops[..|ops| - 1][..k] == ops[..k];
    }
  }

  /** Playback. In any run of pushes and drains, take any keyframe the ring ever
      emitted and any later moment right after a push: the entries emitted from
      that keyframe up to that moment decode to the frame just pushed, whether it
      was appended as a keyframe, as a delta, or dropped as unchanged. */
  lemma {:induction false} Playback(ops: seq<Op>, k: nat, i: nat, o: Options)
    requires 0 < k <= |ops| && ops[k - 1].Push?
    requires i < |After(ops[..k], o).log| && After(ops[..k], o).log[i].Key?
    ensures After(ops[..k], o).log <= After(ops, o).log
    ensures Decode(After(ops, o).log[i..|After(ops[..k], o).log|]) == PictureOf(Index(ops[k - 1].frame.nodes))
  {
    LogGrows(ops, k, o);
    var here := After(ops[..k], o).log;
    var whole := After(ops, o).log;
    assert whole[..|here|] == here && whole[i..|here|] == here[i..];
    RunTracks(ops[..k], o);
    assert ops[..k][k - 1] == ops[k - 1];
  }

  /** A player that starts at any keyframe shows what one that saw everything shows. */
  lemma {:induction false} KeyRestarts(log: seq<Entry>, a: nat, b: nat)
    requires a < b <= |log| && log[a].Key?
    ensures Decode(log[a..b]) == Decode(log[..b])
  {
    hide *;
    assert log[a..b] == log[a..b - 1] + [log[b - 1]] && log[..b] == log[..b - 1] + [log[b - 1]];
    DecodeLast(log[a..b - 1], log[b - 1]);
    DecodeLast(log[..b - 1], log[b - 1]);
    if log[b - 1].Change? { KeyRestarts(log, a, b - 1); }
  }

  lemma {:induction false} DecodeLast(es: seq<Entry>, e: Entry)
    ensures Decode(es + [e]) == match e
      case Key(_, _, _, nodes) => PictureOf(Index(nodes))
      case Change(_, delta) => Play(Decode(es), delta)
  {
    assert (es + [e])[..|es|] == es;
  }

  /** Decoding everything emitted so far shows the frame pushed last. */
  lemma {:induction false} PushShows(r: Ring, log: seq<Entry>, f: Frame, o: Options)
    requires r.Valid() && (r.last.Some? ==> Decode(log) == PictureOf(r.last.value))
    ensures var e := Emitted(r, f, o); var q := Pushed(r, f, o);
      var log' := log + if e.Some? then [e.value] else [];
      && Decode(log') == PictureOf(Index(f.nodes))
      && q.last.Some? && PictureOf(q.last.value) == PictureOf(Index(f.nodes))
  {
    var curr := Index(f.nodes);
    match Emitted(r, f, o)
    case None =>
      assert log + [] == log;
      UntouchedIsSame(r.last.value, curr);
    case Some(e) =>
      assert (log + [e])[|log + [e]| - 1] == e && (log + [e])[..|log|] == log;
      if e.Change? { DeltaPlays(r.last.value, curr); }
  }

  // ------------------------------------------------------------------ eviction

  lemma {:induction false} DropOldIsSuffix(es: seq<Entry>, cutoff: real)
    ensures var kept := DropOld(es, cutoff); |kept| <= |es| && kept == es[|es| - |kept|..]
    ensures forall j | 0 <= j < |es| && es[j].ts >= cutoff :: |DropOld(es, cutoff)| >= |es| - j
    ensures DropOld(es, cutoff) != [] ==> DropOld(es, cutoff)[0].ts >= cutoff
  {
    if es != [] && es[0].ts < cutoff {
      DropOldIsSuffix(es[1..], cutoff);
      var kept := DropOld(es, cutoff);
      assert es[1..][|es[1..]| - |kept|..] == es[|es| - |kept|..];
      forall j | 0 <= j < |es| && es[j].ts >= cutoff ensures |kept| >= |es| - j {
        assert es[1..][j - 1] == es[j];
      }
    }
  }

  /** The position of the last keyframe, or -1. */
  ghost function LastKey(es: seq<Entry>): (k: int)
    ensures -1 <= k < |es|
    ensures k >= 0 ==> es[k].Key?
  {
    if es == [] then -1 else if es[|es| - 1].Key? then |es| - 1 else LastKey(es[..|es| - 1])
  }

  /** The ring is the end of the log; the last keyframe is in it unless the item
      cap has pushed it out. */
  ghost predicate Retains(r: Run, o: Options) {
    && |r.ring.entries| <= |r.log|
    && r.ring.entries == r.log[|r.log| - |r.ring.entries|..]
    && |r.ring.entries| <= o.maxItems
    && (r.ring.last.Some? ==>
          && LastKey(r.log) >= 0
          && r.log[LastKey(r.log)].ts == r.ring.keyTs
          && (|r.log| - |r.ring.entries| <= LastKey(r.log) || |r.log| - LastKey(r.log) > o.maxItems))
  }

  lemma {:induction false} RunRetains(ops: seq<Op>, o: Options)
    requires 0.0 <= o.windowMs && o.keyframeMs <= o.windowMs
    ensures Retains(After(ops, o), o)
  {
    if ops != [] {
      RunRetains(ops[..|ops| - 1], o);
      if ops[|ops| - 1].Push? {
        PushRetains(After(ops[..|ops| - 1], o), ops[|ops| - 1].frame, o);
      }
    }
  }

  /** An entry has its frame's time, and is a change only under a keyframe still young. */
  lemma {:induction false} EmittedWhen(r: Ring, f: Frame, o: Options)
    requires r.Valid()
    ensures var e := Emitted(r, f, o);
      && (e.Some? ==> e.value.ts == f.ts)
      && (e.None? || e.value.Change? ==> r.last.Some? && f.ts - r.keyTs < o.keyframeMs)
  {
  }

  lemma {:induction false} PushedParts(r: Ring, f: Frame, o: Options)
    requires r.Valid()
    ensures var e := Emitted(r, f, o);
      && Pushed(r, f, o).entries == (if e.Some? then Evicted(r.entries + [e.value], f.ts, o) else r.entries)
      && Pushed(r, f, o).keyTs == (if e.Some? && e.value.Key? then f.ts else r.keyTs)
      && (e.Some? ==> Pushed(r, f, o).last.Some?) && (e.None? ==> Pushed(r, f, o) == r)
  {
    hide Emitted, Evicted, Index;
  }

  lemma {:induction false} PushRetains(r: Run, f: Frame, o: Options)
    requires 0.0 <= o.windowMs && o.keyframeMs <= o.windowMs
    requires r.ring.Valid() && Retains(r, o)
    ensures var e := Emitted(r.ring, f, o);
      Retains(Run(Pushed(r.ring, f, o), r.log + if e.Some? then [e.value] else []), o)
  {
    hide *;
    PushedParts(r.ring, f, o);
    match Emitted(r.ring, f, o)
    case None => assert r.log + [] == r.log;
    case Some(e) => AppendRetains(r, f, e, Pushed(r.ring, f, o), o);
  }

  /** One entry appended to ring and log, and what is old or too much dropped. */
  lemma {:induction false} AppendRetains(r: Run, f: Frame, e: Entry, q: Ring, o: Options)
    requires 0.0 <= o.windowMs && o.keyframeMs <= o.windowMs
    requires r.ring.Valid() && Retains(r, o) && Emitted(r.ring, f, o) == Some(e)
    requires q.entries == Evicted(r.ring.entries + [e], f.ts, o) && q.last.Some?
    requires q.keyTs == if e.Key? then f.ts else r.ring.keyTs
    ensures Retains(Run(q, r.log + [e]), o)
  {
    EmittedWhen(r.ring, f, o);
    LastKeyOf(r.log, e);
    hide Evicted, Index, Emitted, Ring.Valid, LastKey;
    EvictRetains(r.log, r.ring.entries, e, f.ts, o);
  }

  /** Eviction by age stops at the keyframe in force, whatever order the
      timestamps came in. */
  lemma {:induction false} EvictRetains(log: seq<Entry>, entries: seq<Entry>, e: Entry, now: real, o: Options)
    requires |entries| <= |log| && entries == log[|log| - |entries|..] && |entries| <= o.maxItems
    requires LastKey(log + [e]) >= 0 && (log + [e])[LastKey(log + [e])].ts >= now - o.windowMs
    requires e.Change? ==> |log| - |entries| <= LastKey(log + [e]) || |log| - LastKey(log + [e]) > o.maxItems
    ensures var out := Evicted(entries + [e], now, o);
      && |out| <= |log| + 1 && out == (log + [e])[|log| + 1 - |out|..] && |out| <= o.maxItems
      && (|log| + 1 - |out| <= LastKey(log + [e]) || |log| + 1 - LastKey(log + [e]) > o.maxItems)
  {
    hide Evicted, LastKey;
    var es := entries + [e];
    EvictedIsSuffix(es, now, o);
    LastKeyOf(log, e);
    assert es == (log + [e])[|log| + 1 - |es|..];
    EndOfEnd(log + [e], es, Evicted(es, now, o), LastKey(log + [e]), now - o.windowMs, o.maxItems);
  }

  /** An end of an end, which reaches back to the `k`-th entry if that did and it is young. */
  lemma {:induction false} EndOfEnd(all: seq<Entry>, es: seq<Entry>, out: seq<Entry>, k: nat, cutoff: real, most: nat)
    requires |es| <= |all| && es == all[|all| - |es|..] && |out| <= |es| && out == es[|es| - |out|..]
    requires k < |all| && all[k].ts >= cutoff && |out| <= most
    requires forall j | 0 <= j < |es| && es[j].ts >= cutoff :: |out| >= |es| - j || |out| == most
    requires |all| - |es| <= k || |all| - k > most
    ensures out == all[|all| - |out|..] && (|all| - |out| <= k || |all| - k > most)
  {
    if |all| - |es| <= k { assert es[k - (|all| - |es|)] == all[k]; }
  }

  lemma {:induction false} EvictedIsSuffix(es: seq<Entry>, now: real, o: Options)
    ensures var out := Evicted(es, now, o);
      && |out| <= |es| && |out| <= o.maxItems && out == es[|es| - |out|..]
      && (forall j | 0 <= j < |es| && es[j].ts >= now - o.windowMs :: |out| >= |es| - j || |out| == o.maxItems)
      && (out == [] || out[0].ts >= now - o.windowMs || |out| == o.maxItems)
  {
    DropOldIsSuffix(es, now - o.windowMs);
    var kept, out := DropOld(es, now - o.windowMs), Evicted(es, now, o);
    assert out == kept[|kept| - |out|..];
    assert kept[|kept| - |out|..] == es[|es| - |out|..];
  }

  /** After every push that appends, the keyframe in force is younger than the
      cadence (or is this very frame), and the ring still holds it exactly when
      no more than `maxItems` entries have been emitted from it on. */
  lemma FreshKeyframe(ops: seq<Op>, o: Options)
    requires 0.0 <= o.windowMs && o.keyframeMs <= o.windowMs
    requires ops != [] && ops[|ops| - 1].Push?
    requires |After(ops, o).log| > |After(ops[..|ops| - 1], o).log|
    ensures var r, k := After(ops, o), LastKey(After(ops, o).log);
      var f := ops[|ops| - 1].frame;
      && k >= 0
      && (f.ts - r.log[k].ts < o.keyframeMs || (k == |r.log| - 1 && r.log[k] == KeyOf(f)))
      && (|r.log| - |r.ring.entries| <= k <==> |r.log| - k <= o.maxItems)
  {
    RunRetains(ops, o);
    RunRetains(ops[..|ops| - 1], o);
    var before := After(ops[..|ops| - 1], o);
    var f := ops[|ops| - 1].frame;
    assert After(ops, o) == (
      var e := Emitted(before.ring, f, o);
      Run(Pushed(before.ring, f, o), before.log + if e.Some? then [e.value] else []));
    hide After;
    FreshPush(before, f, o);
  }

  lemma {:induction false} FreshPush(r: Run, f: Frame, o: Options)
    requires r.ring.Valid() && Emitted(r.ring, f, o).Some? && Retains(r, o)
    requires Retains(Run(Pushed(r.ring, f, o), r.log + [Emitted(r.ring, f, o).value]), o)
    ensures var q := Run(Pushed(r.ring, f, o), r.log + [Emitted(r.ring, f, o).value]); var k := LastKey(q.log);
      && k >= 0
      && (f.ts - q.log[k].ts < o.keyframeMs || (k == |q.log| - 1 && q.log[k] == KeyOf(f)))
      && (|q.log| - |q.ring.entries| <= k <==> |q.log| - k <= o.maxItems)
  {
    var e := Emitted(r.ring, f, o).value;
    EmittedWhen(r.ring, f, o);
    EmittedKey(r.ring, f, o);
    LastKeyOf(r.log, e);
    PushedParts(r.ring, f, o);
    hide Emitted, Evicted, Index, Pushed, LastKey;
  }

  lemma {:induction false} EmittedKey(r: Ring, f: Frame, o: Options)
    requires r.Valid() && Emitted(r, f, o).Some?
    ensures Emitted(r, f, o).value.Key? ==> Emitted(r, f, o).value == KeyOf(f)
  {
  }

  lemma {:induction false} LastKeyOf(log: seq<Entry>, e: Entry)
    ensures LastKey(log + [e]) == if e.Key? then |log| else LastKey(log)
  {
    assert (log + [e])[..|log|] == log;
  }
}
