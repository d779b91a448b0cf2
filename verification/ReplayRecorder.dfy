/** `sdk/react-native/src/replay.ts`: the ring under an application lifecycle, and
    the drain that must hand over something a player can decode. */
module ReplayRecorder {
  import opened Prelude
  import opened ReplayCodec
  import opened ReplayShows
  import R = ReplayRing

  const KEYFRAME_INTERVAL_MS: real := 4000.0
  const MAX_RING_ITEMS: nat := 1000

  type Entries = seq<R.Entry>

  /** Timestamps never go down, and none is later than the last frame's. */
  ghost predicate Ordered(es: Entries, top: real) {
    && (forall i, j | 0 <= i < j < |es| :: es[i].ts <= es[j].ts)
    && (forall i | 0 <= i < |es| :: es[i].ts <= top)
  }

  predicate Within(ts: real, now: real, windowMs: real) {
    now - windowMs <= ts <= now
  }

  function InWindow(es: Entries, now: real, windowMs: real): Entries {
    if es == [] then []
    else (if Within(es[0].ts, now, windowMs) then [es[0]] else []) + InWindow(es[1..], now, windowMs)
  }

  function FromFirstKey(es: Entries): Entries {
    if es == [] || es[0].Key? then es else FromFirstKey(es[1..])
  }

  function Drained(es: Entries, now: real, windowMs: real): Entries {
    FromFirstKey(InWindow(es, now, windowMs))
  }

  // ------------------------------------------------- the frames behind the entries

  /** One recording: the frames captured since the ring was last cold, and how long the
      log was at the start of it and after each of them. */
  datatype Take = Take(start: nat, frames: seq<R.Frame>, ends: seq<nat>)

  ghost predicate Spans(t: Take, log: Entries, top: real) {
    && |t.ends| == |t.frames| && t.start <= |log|
    && |log| == (if t.ends == [] then t.start else t.ends[|t.ends| - 1])
    && (forall i, j | 0 <= i < j < |t.frames| :: t.frames[i].ts <= t.frames[j].ts)
    && (forall j | 0 <= j < |t.frames| :: t.frames[j].ts <= top && t.start <= t.ends[j] <= |log|)
  }

  ghost predicate NoneLater(t: Take, log: Entries)
    requires |t.ends| == |t.frames|
  {
    forall i, j | t.start <= i < |log| && 0 <= j < |t.frames| && i < t.ends[j] :: log[i].ts <= t.frames[j].ts
  }

  ghost predicate NoneEarlier(t: Take, log: Entries)
    requires |t.ends| == |t.frames|
  {
    forall i, j | t.start <= i < |log| && 0 <= j < |t.frames| && (j == 0 || t.ends[j - 1] <= i) ::
        t.frames[j].ts <= log[i].ts
  }

  ghost predicate Decodes(t: Take, log: Entries)
    requires |t.ends| == |t.frames|
  {
    forall j | 0 <= j < |t.frames| ::
        t.ends[j] <= |log| && R.Decode(log[..t.ends[j]]) == PictureOf(Index(t.frames[j].nodes))
  }

  /** Up to the end of each frame the log decodes to that frame and holds nothing later;
      what follows comes from later frames. */
  ghost predicate Tied(t: Take, log: Entries, top: real) {
    Spans(t, log, top) && NoneLater(t, log) && NoneEarlier(t, log) && Decodes(t, log)
  }

  /** The ring compares against what the log decodes to. */
  ghost predicate Shows(r: R.Ring, log: Entries) {
    r.last.Some? ==> R.Decode(log) == PictureOf(r.last.value)
  }

  /** The last frame captured no later than `now`. */
  predicate LatestBy(frames: seq<R.Frame>, j: nat, now: real) {
    j < |frames| && frames[j].ts <= now && forall i | j < i < |frames| :: frames[i].ts > now
  }

  ghost function Taken(t: Take, f: R.Frame, end: nat): Take {
    Take(t.start, t.frames + [f], t.ends + [end])
  }

  lemma {:induction false} TakenSpans(t: Take, log: Entries, f: R.Frame, more: Entries)
    requires Spans(t, log, f.ts)
    ensures Spans(Taken(t, f, |log + more|), log + more, f.ts)
  {
  }

  lemma {:induction false} TakenNoneLater(t: Take, log: Entries, f: R.Frame, more: Entries)
    requires Spans(t, log, f.ts) && NoneLater(t, log)
    requires forall e | e in more :: e.ts == f.ts
    ensures NoneLater(Taken(t, f, |log + more|), log + more)
  {
    var log', u := log + more, Taken(t, f, |log + more|);
    forall i, j | u.start <= i < |log'| && 0 <= j < |u.frames| && i < u.ends[j] ensures log'[i].ts <= u.frames[j].ts {
      if i >= |log| { assert log'[i] in more; }
      else if j == |t.frames| { assert i < t.ends[j - 1] && log[i].ts <= t.frames[j - 1].ts; }
    }
  }

  lemma {:induction false} TakenNoneEarlier(t: Take, log: Entries, f: R.Frame, more: Entries)
    requires Spans(t, log, f.ts) && NoneEarlier(t, log)
    requires forall e | e in more :: e.ts == f.ts
    ensures NoneEarlier(Taken(t, f, |log + more|), log + more)
  {
    var log', u := log + more, Taken(t, f, |log + more|);
    forall i, j | u.start <= i < |log'| && 0 <= j < |u.frames| && (j == 0 || u.ends[j - 1] <= i)
      ensures u.frames[j].ts <= log'[i].ts {
      if i >= |log| {
        hide NoneEarlier;
        assert log'[i] in more;
      } else {
        assert j < |t.frames|;
        NotEarlier(t, log, i, j);
      }
    }
  }

  lemma {:induction false} TakenDecodes(t: Take, log: Entries, f: R.Frame, more: Entries)
    requires |t.ends| == |t.frames| && Decodes(t, log) && R.Decode(log + more) == PictureOf(Index(f.nodes))
    ensures Decodes(Taken(t, f, |log + more|), log + more)
  {
    hide Index, R.Decode;
    var log', u := log + more, Taken(t, f, |log + more|);
    assert log'[..|log'|] == log';
    forall j | 0 <= j < |u.frames| ensures R.Decode(log'[..u.ends[j]]) == PictureOf(Index(u.frames[j].nodes)) {
      if j < |t.frames| { assert log'[..t.ends[j]] == log[..t.ends[j]]; }
    }
  }

  /** What a recorder keeps of its ring, the log, and the frames it has captured. */
  ghost predicate Sound(r: R.Ring, log: Entries, t: Take, top: real) {
    && r.Valid() && Tied(t, log, top) && Shows(r, log)
    && |r.entries| <= |log| - t.start && r.entries == log[|log| - |r.entries|..]
    && Ordered(r.entries, top)
  }

  lemma {:induction false} ColdIsSound(log: Entries, top: real)
    ensures Sound(R.EMPTY, log, Take(|log|, [], []), top)
  {
    assert log[|log|..] == [];
  }

  lemma {:induction false} LaterIsSound(r: R.Ring, log: Entries, t: Take, top: real, later: real)
    requires Sound(r, log, t, top) && top <= later
    ensures Sound(r, log, t, later)
  {
    hide Index, R.Decode;
  }

  lemma {:induction false} EmittedNow(r: R.Ring, f: R.Frame, o: R.Options, more: Entries)
    requires r.Valid()
    requires more == var e := R.Emitted(r, f, o); if e.Some? then [e.value] else []
    ensures forall e | e in more :: e.ts == f.ts
  {
    R.EmittedWhen(r, f, o);
    hide R.Emitted;
  }

  lemma {:induction false} TakenTies(t: Take, log: Entries, f: R.Frame, more: Entries)
    requires Tied(t, log, f.ts) && R.Decode(log + more) == PictureOf(Index(f.nodes))
    requires forall e | e in more :: e.ts == f.ts
    ensures Tied(Taken(t, f, |log + more|), log + more, f.ts)
  {
    hide Spans, NoneLater, NoneEarlier, Decodes, Index, R.Decode, PictureOf;
    assert |t.ends| == |t.frames| by { SpansSays(t, log, f.ts); }
    TakenSpans(t, log, f, more);
    TakenNoneLater(t, log, f, more);
    TakenNoneEarlier(t, log, f, more);
    TakenDecodes(t, log, f, more);
  }

  lemma {:induction false} SpansSays(t: Take, log: Entries, top: real)
    requires Spans(t, log, top)
    ensures |t.ends| == |t.frames|
  {
  }

  /** A captured frame, no earlier than the last, keeps all of it. */
  lemma {:induction false} PushIsSound(r: R.Ring, log: Entries, t: Take, f: R.Frame, o: R.Options)
    requires Sound(r, log, t, f.ts)
    ensures var e := R.Emitted(r, f, o);
      var log' := log + if e.Some? then [e.value] else [];
      Sound(R.Pushed(r, f, o), log', Taken(t, f, |log'|), f.ts)
  {
    hide Tied, Index, R.Decode, R.Emitted, PictureOf, R.Evicted, Ordered;
    var e := R.Emitted(r, f, o);
    var more := if e.Some? then [e.value] else [];
    R.PushShows(r, log, f, o);
    EmittedNow(r, f, o, more);
    TakenTies(t, log, f, more);
    PushKeepsOrder(r, log, t.start, f, o);
  }

  class Recorder {
    var ring: R.ReplayRing
    var running: bool
    var windowMs: real
    var epoch: int
    var lastFrameTs: real
    ghost var take: Take

    ghost predicate Valid()
      reads this, ring
    {
      Sound(ring.State(), ring.log, take, lastFrameTs)
    }

    constructor (epoch: int)
      ensures Valid() && !running && fresh(ring)
    {
      hide *;
      running, windowMs, lastFrameTs := false, 60000.0, 0.0;
      this.epoch := epoch;
      ring := new R.ReplayRing(R.Options(KEYFRAME_INTERVAL_MS, 60000.0, MAX_RING_ITEMS));
      new;
      take := Take(|ring.log|, [], []);
      ColdIsSound(ring.log, lastFrameTs);
      SoundRecorder(this);
    }

    /** `startReplay`, once the native module is bound. */
    method Start(windowMs: real, keyframeMs: Option<real>, epoch: int)
      requires Valid()
      modifies this
      ensures Valid()
      ensures old(running) ==> ring == old(ring) && this.windowMs == old(this.windowMs) && this.epoch == old(this.epoch)
      ensures !old(running) ==>
        && running && fresh(ring) && this.windowMs == windowMs && this.epoch == epoch
        && ring.State() == R.EMPTY && ring.log == []
        && ring.options.windowMs == windowMs && ring.options.maxItems == 1000 && ring.options.keyframeMs <= windowMs
        && ring.options.keyframeMs in {keyframeMs.GetOr(4000.0), windowMs}
        && (ring.options.keyframeMs < windowMs ==> ring.options.keyframeMs == keyframeMs.GetOr(4000.0))
        && ring.options.keyframeMs <= keyframeMs.GetOr(4000.0)
      ensures take == if old(running) then old(take) else Take(0, [], [])
    {
      hide Sound, R.EMPTY;
      if running { return; }
      running := true;
      this.windowMs := windowMs;
      this.epoch := epoch;
      var cadence := keyframeMs.GetOr(KEYFRAME_INTERVAL_MS);
      var options := R.Options(if cadence <= windowMs then cadence else windowMs, windowMs, MAX_RING_ITEMS);
      Renew(options);
    }

    /** A ring that has seen nothing. */
    method Renew(options: R.Options)
      modifies this`ring, this`take
      ensures Valid() && fresh(ring) && ring.options == options
      ensures ring.State() == R.EMPTY && ring.log == [] && take == Take(0, [], [])
    {
      hide *;
      ring := new R.ReplayRing(options);
      take := Take(|ring.log|, [], []);
      ColdIsSound(ring.log, lastFrameTs);
      SoundRecorder(this);
    }

    /** `syncLifecycle`: a change of foreground epoch, or the background, forgets. */
    method Sync(active: bool, epoch: int) returns (go: bool)
      requires Valid()
      modifies this, ring
      ensures Valid() && ring == old(ring) && go == active && this.epoch == epoch && ring.log == old(ring.log)
      ensures windowMs == old(windowMs) && running == old(running)
      ensures if !active || epoch != old(this.epoch)
              then ring.State() == R.EMPTY && lastFrameTs == 0.0 && take == Take(|ring.log|, [], [])
              else ring.State() == old(ring.State()) && lastFrameTs == old(lastFrameTs) && take == old(take)
    {
      hide Sound;
      if !active || epoch != this.epoch {
        var _ := ring.Drain();
        lastFrameTs := 0.0;
        take := Take(|ring.log|, [], []);
        ColdIsSound(ring.log, 0.0);
      }
      this.epoch := epoch;
      go := active;
    }

    /** `encodeAndPush`: a frame clock that steps back starts a new recording.
        `finite` is false when the snapshot's timestamp is not a finite number. */
    method EncodeAndPush(snapshot: R.Frame, finite: bool)
      requires Valid()
      modifies this, ring
      ensures Valid() && ring == old(ring)
      ensures epoch == old(epoch) && windowMs == old(windowMs) && running == old(running)
      ensures !finite ==>
        ring.State() == old(ring.State()) && ring.log == old(ring.log) && lastFrameTs == old(lastFrameTs)
            && take == old(take)
      ensures finite ==>
        var back := snapshot.ts < old(lastFrameTs);
        var before := if back then R.EMPTY else old(ring.State());
        && lastFrameTs == snapshot.ts && before.Valid()
        && ring.State() == R.Pushed(before, snapshot, ring.options)
        && (var e := R.Emitted(before, snapshot, ring.options);
            ring.log == old(ring.log) + if e.Some? then [e.value] else [])
        && take.frames == (if back then [] else old(take).frames) + [snapshot]
    {
      if !finite { return; }
      SoundIsValid(ring.State(), ring.log, take, lastFrameTs);
      hide Sound, R.Emitted, R.Pushed;
      if snapshot.ts < lastFrameTs {
        var _ := ring.Drain();
        take := Take(|ring.log|, [], []);
        ColdIsSound(ring.log, snapshot.ts);
      } else {
        LaterIsSound(ring.State(), ring.log, take, lastFrameTs, snapshot.ts);
      }
      lastFrameTs := snapshot.ts;
      PushIsSound(ring.State(), ring.log, take, snapshot, ring.options);
      var e := ring.Push(snapshot);
      take := Taken(take, snapshot, |ring.log|);
    }

    /** `drainReplay`, before the lines are written out: nothing, or the log from `a` to
        `b`, which starts with a keyframe and shows at its end, and at the end of nothing
        earlier, the last frame captured by `now`. It is nothing exactly when the ring was
        just emptied or holds no keyframe of the window. */
    method DrainReplay(now: real, active: bool, epoch: int)
      returns (out: Entries, ghost a: nat, ghost b: nat, ghost j: nat)
      requires Valid()
      modifies this, ring
      ensures Valid() && ring == old(ring) && ring.State() == R.EMPTY && ring.log == old(ring.log)
      ensures this.epoch == epoch && windowMs == old(windowMs) && take.frames == []
      ensures out == if !active || epoch != old(this.epoch) then [] else Drained(old(ring.entries), now, windowMs)
      ensures a <= b <= |ring.log| && out == ring.log[a..b]
      ensures out == [] <==> !active || epoch != old(this.epoch) || !KeyWithin(old(ring.entries), now, windowMs)
      ensures out != [] ==> out[0].Key? && (forall i | 0 <= i < |out| :: Within(out[i].ts, now, windowMs))
      ensures out != [] ==>
        |ring.log| - |old(ring.entries)| <= a
        && NoKeyBefore(old(ring.entries), a - (|ring.log| - |old(ring.entries)|), now, windowMs)
      ensures out != [] ==> LatestBy(old(take).frames, j, now) && Draws(R.Decode(out), old(take).frames[j].nodes)
    {
      hide Sound, Drained, R.Decode, Index, PictureOf, LatestBy, KeyWithin, NoKeyBefore, Draws;
      var _ := Sync(active, epoch);
      a, b, j := DrainEndsOn(ring.State(), ring.log, take, lastFrameTs, now, windowMs);
      var entries := ring.Drain();
      take := Take(|ring.log|, [], []);
      ColdIsSound(ring.log, lastFrameTs);
      out := Drained(entries, now, windowMs);
      NothingDrained(now, windowMs);
    }
  }

  lemma {:induction false} SoundRecorder(r: Recorder)
    requires Sound(r.ring.State(), r.ring.log, r.take, r.lastFrameTs)
    ensures r.Valid()
  {
  }

  lemma {:induction false} SoundIsValid(r: R.Ring, log: Entries, t: Take, top: real)
    requires Sound(r, log, t, top)
    ensures r.Valid()
  {
  }

  lemma {:induction false} PushKeepsOrder(r: R.Ring, log: Entries, start: nat, f: R.Frame, o: R.Options)
    requires r.Valid() && |r.entries| <= |log| - start && r.entries == log[|log| - |r.entries|..]
        && Ordered(r.entries, f.ts)
    ensures var e := R.Emitted(r, f, o);
      var log' := log + if e.Some? then [e.value] else [];
      var es := R.Pushed(r, f, o).entries;
      |es| <= |log'| - start && es == log'[|log'| - |es|..] && Ordered(es, f.ts)
  {
    hide *;
    R.EmittedWhen(r, f, o);
    R.PushedParts(r, f, o);
    match R.Emitted(r, f, o)
    case None => assert log + [] == log;
    case Some(e) =>
      R.EvictedIsSuffix(r.entries + [e], f.ts, o);
      SuffixOfSuffix(log, r.entries, e, R.Evicted(r.entries + [e], f.ts, o), f.ts);
  }

  lemma {:induction false} SuffixOfSuffix(log: Entries, es: Entries, e: R.Entry, out: Entries, top: real)
    requires |es| <= |log| && es == log[|log| - |es|..] && Ordered(es, top) && e.ts == top
    requires |out| <= |es| + 1 && out == (es + [e])[|es| + 1 - |out|..]
    ensures |out| <= |log| + 1 && out == (log + [e])[|log| + 1 - |out|..] && Ordered(out, top)
  {
    var all := es + [e];
    assert all == (log + [e])[|log| + 1 - |all|..];
    assert forall i | 0 <= i < |out| :: out[i] == all[|all| - |out| + i];
  }

  // ------------------------------------------------------------------- drains

  lemma {:induction false} WindowConcat(a: Entries, b: Entries, now: real, windowMs: real)
    ensures InWindow(a + b, now, windowMs) == InWindow(a, now, windowMs) + InWindow(b, now, windowMs)
  {
    hide InWindow;
    if a == [] {
      assert a + b == b;
      WindowNone(now, windowMs);
    } else {
      WindowHead(a, now, windowMs);
      WindowHead(a + b, now, windowMs);
      WindowConcat(a[1..], b, now, windowMs);
      assert (a + b)[1..] == a[1..] + b;
    }
  }

  lemma {:induction false} WindowNone(now: real, windowMs: real)
    ensures InWindow([], now, windowMs) == []
  {
  }

  lemma {:induction false} WindowHead(es: Entries, now: real, windowMs: real)
    requires es != []
    ensures InWindow(es, now, windowMs) ==
            (if Within(es[0].ts, now, windowMs) then [es[0]] else []) + InWindow(es[1..], now, windowMs)
  {
  }

  lemma {:induction false} WindowUniform(es: Entries, now: real, windowMs: real)
    ensures (forall i | 0 <= i < |es| :: Within(es[i].ts, now, windowMs)) ==> InWindow(es, now, windowMs) == es
    ensures (forall i | 0 <= i < |es| :: !(Within(es[i].ts, now, windowMs))) ==> InWindow(es, now, windowMs) == []
  {
    if es != [] { WindowUniform(es[1..], now, windowMs); }
  }

  /** Where ordered timestamps first exceed a bound, or first reach it. */
  lemma {:induction false} Split(es: Entries, bound: real, strict: bool, top: real) returns (n: nat)
    requires Ordered(es, top)
    ensures n <= |es|
    ensures forall i | 0 <= i < |es| :: i < n <==> if strict then es[i].ts <= bound else es[i].ts < bound
  {
    n := 0;
    while n < |es| && if strict then es[n].ts <= bound else es[n].ts < bound
      invariant n <= |es|
      invariant forall i | 0 <= i < n :: if strict then es[i].ts <= bound else es[i].ts < bound
    {
      n := n + 1;
    }
  }

  lemma {:induction false} MiddleKept(a: Entries, b: Entries, c: Entries, now: real, windowMs: real)
    requires forall i | 0 <= i < |a| :: !Within(a[i].ts, now, windowMs)
    requires forall i | 0 <= i < |b| :: Within(b[i].ts, now, windowMs)
    requires forall i | 0 <= i < |c| :: !Within(c[i].ts, now, windowMs)
    ensures InWindow(a + (b + c), now, windowMs) == b
  {
    WindowConcat(a, b + c, now, windowMs);
    WindowConcat(b, c, now, windowMs);
    WindowUniform(a, now, windowMs);
    WindowUniform(b, now, windowMs);
    WindowUniform(c, now, windowMs);
  }

  /** Of ordered entries, the window keeps one contiguous stretch. */
  lemma {:induction false} WindowIsSlice(es: Entries, now: real, windowMs: real, top: real) returns (lo: nat, hi: nat)
    requires Ordered(es, top)
    ensures lo <= hi <= |es| && InWindow(es, now, windowMs) == es[lo..hi]
    ensures forall i | 0 <= i < |es| :: lo <= i < hi <==> Within(es[i].ts, now, windowMs)
  {
    lo := Split(es, now - windowMs, false, top);
    hi := Split(es, now, true, top);
    if hi < lo { hi := lo; }
    assert forall i | 0 <= i < |es| :: lo <= i < hi <==> Within(es[i].ts, now, windowMs);
    hide InWindow, Ordered, Within;
    SliceKept(es, lo, hi, now, windowMs);
  }

  lemma {:induction false} SliceKept(es: Entries, lo: nat, hi: nat, now: real, windowMs: real)
    requires lo <= hi <= |es|
    requires forall i | 0 <= i < |es| :: lo <= i < hi <==> Within(es[i].ts, now, windowMs)
    ensures InWindow(es, now, windowMs) == es[lo..hi]
  {
    hide InWindow, Within;
    var a, b, c := es[..lo], es[lo..hi], es[hi..];
    assert es == a + (b + c);
    assert forall i | 0 <= i < |a| :: a[i] == es[i];
    assert forall i | 0 <= i < |b| :: b[i] == es[lo + i];
    assert forall i | 0 <= i < |c| :: c[i] == es[hi + i];
    MiddleKept(a, b, c, now, windowMs);
  }

  lemma {:induction false} FirstKeyIsSuffix(es: Entries) returns (k: nat)
    ensures k <= |es| && FromFirstKey(es) == es[k..]
    ensures k < |es| ==> es[k].Key?
    ensures forall i | 0 <= i < k :: !es[i].Key?
  {
    if es == [] || es[0].Key? {
      k := 0;
    } else {
      var m := FirstKeyIsSuffix(es[1..]);
      k := m + 1;
      assert es[1..][m..] == es[k..];
      forall i | 0 <= i < k ensures !es[i].Key? { if i > 0 { assert es[i] == es[1..][i - 1]; } }
    }
  }

  /** No keyframe before the `i`-th entry is of the window. */
  predicate NoKeyBefore(es: Entries, i: nat, now: real, windowMs: real) {
    forall x | 0 <= x < i && x < |es| && es[x].Key? :: es[x].ts > now || now - es[x].ts > windowMs
  }

  /** Of ordered entries a drain keeps one stretch from a keyframe to the end of the
      window, or nothing where the window holds no keyframe. */
  lemma {:induction false} DrainedIsSlice(es: Entries, now: real, windowMs: real, top: real) returns (i: nat, j: nat)
    requires Ordered(es, top)
    ensures i <= j <= |es| && Drained(es, now, windowMs) == es[i..j]
    ensures forall x | i <= x < j :: Within(es[x].ts, now, windowMs)
    ensures i < j ==> es[i].Key?
    ensures i == j <==> forall x | 0 <= x < |es| && es[x].Key? :: !Within(es[x].ts, now, windowMs)
    ensures i < j ==> forall x | j <= x < |es| :: es[x].ts > now
    ensures i < j ==> NoKeyBefore(es, i, now, windowMs)
  {
    var lo, hi := WindowIsSlice(es, now, windowMs, top);
    hide InWindow, FromFirstKey;
    var within := es[lo..hi];
    var k := FirstKeyIsSuffix(within);
    i, j := lo + k, hi;
    assert within[k..] == es[i..j];
    assert forall x | 0 <= x < |within| :: within[x] == es[lo + x];
    if i < j {
      assert es[i] == within[k];
      assert Within(es[i].ts, now, windowMs);
      forall x | j <= x < |es| ensures es[x].ts > now {
        assert es[i].ts <= es[x].ts && !Within(es[x].ts, now, windowMs);
      }
      forall x | lo <= x < i ensures !es[x].Key? { assert es[x] == within[x - lo]; }
    } else {
      forall x | lo <= x < hi ensures !es[x].Key? { assert es[x] == within[x - lo]; }
    }
  }

  /** What a drain hands over is nothing, or one contiguous run of the log that
      starts with a keyframe, so that playing it shows exactly what everything
      emitted so far would show at its end. It is nothing only when the ring
      holds no keyframe inside the window. */
  lemma {:induction false} DrainPlays(log: Entries, es: Entries, now: real, windowMs: real, top: real)
    returns (a: nat, b: nat)
    requires |es| <= |log| && es == log[|log| - |es|..] && Ordered(es, top)
    ensures |log| - |es| <= a <= b <= |log| && Drained(es, now, windowMs) == log[a..b]
    ensures forall i | a <= i < b :: Within(log[i].ts, now, windowMs)
    ensures a < b ==> log[a].Key? && R.Decode(Drained(es, now, windowMs)) == R.Decode(log[..b])
    ensures a == b <==> forall i | 0 <= i < |es| && es[i].Key? :: !(Within(es[i].ts, now, windowMs))
    ensures a < b ==> forall i | b <= i < |log| :: log[i].ts > now
    ensures a < b ==> NoKeyBefore(es, a - (|log| - |es|), now, windowMs)
  {
    hide Drained, R.Decode, Within, Ordered;
    var i, j := DrainedIsSlice(es, now, windowMs, top);
    var base := |log| - |es|;
    a, b := base + i, base + j;
    assert forall x | base <= x < |log| :: log[x] == es[x - base];
    assert es[i..j] == log[a..b];
    if a < b { R.KeyRestarts(log, a, b); }
  }

  predicate KeyWithin(es: Entries, now: real, windowMs: real) {
    exists i | 0 <= i < |es| :: es[i].Key? && es[i].ts <= now && now - es[i].ts <= windowMs
  }

  lemma {:induction false} NothingDrained(now: real, windowMs: real)
    ensures Drained([], now, windowMs) == [] && !KeyWithin([], now, windowMs)
  {
  }

  /** How many of the frames, in order, were captured by `now`. */
  lemma {:induction false} FramesBy(frames: seq<R.Frame>, now: real) returns (n: nat)
    requires forall i, j | 0 <= i < j < |frames| :: frames[i].ts <= frames[j].ts
    ensures n <= |frames| && forall i | 0 <= i < |frames| :: i < n <==> frames[i].ts <= now
  {
    n := 0;
    while n < |frames| && frames[n].ts <= now
      invariant n <= |frames| && forall i | 0 <= i < n :: frames[i].ts <= now
    {
      n := n + 1;
    }
  }

  /** Where the timestamps of the log pass `now`, the last frame captured by then ends. */
  lemma {:induction false} SplitAt(t: Take, log: Entries, top: real, b: nat, now: real) returns (j: nat)
    requires Spans(t, log, top) && NoneLater(t, log) && NoneEarlier(t, log)
    requires t.start < b <= |log| && log[b - 1].ts <= now && forall i | b <= i < |log| :: log[i].ts > now
    ensures LatestBy(t.frames, j, now) && t.ends[j] == b
  {
    hide NoneLater, NoneEarlier;
    var n := FramesBy(t.frames, now);
    if n == 0 { NotEarlier(t, log, b - 1, 0); }
    j := n - 1;
    if t.ends[j] < b { NotEarlier(t, log, b - 1, n); }
    if t.ends[j] > b { NotLater(t, log, b, j); }
  }

  lemma {:induction false} NotEarlier(t: Take, log: Entries, i: nat, j: nat)
    requires |t.ends| == |t.frames| && NoneEarlier(t, log) && t.start <= i < |log| && j < |t.frames|
    requires j == 0 || t.ends[j - 1] <= i
    ensures t.frames[j].ts <= log[i].ts
  {
  }

  lemma {:induction false} NotLater(t: Take, log: Entries, i: nat, j: nat)
    requires |t.ends| == |t.frames| && NoneLater(t, log) && t.start <= i < |log| && j < |t.frames| && i < t.ends[j]
    ensures log[i].ts <= t.frames[j].ts
  {
  }

  /** A drain shows, at its end, the last frame captured by its `now`. */
  lemma {:induction false} DrainEndsOn(r: R.Ring, log: Entries, t: Take, top: real, now: real, windowMs: real)
    returns (a: nat, b: nat, j: nat)
    requires Sound(r, log, t, top)
    ensures var out := Drained(r.entries, now, windowMs);
      && a <= b <= |log| && out == log[a..b]
      && (out == [] <==> !KeyWithin(r.entries, now, windowMs))
      && (out != [] ==> out[0].Key? && forall i | 0 <= i < |out| :: Within(out[i].ts, now, windowMs))
      && (out != [] ==> |log| - |r.entries| <= a && NoKeyBefore(r.entries, a - (|log| - |r.entries|), now, windowMs))
      && (out != [] ==> LatestBy(t.frames, j, now) && Draws(R.Decode(out), t.frames[j].nodes))
  {
    hide Drained, R.Decode, Index, PictureOf, LatestBy, Draws, NoKeyBefore, Spans, NoneLater, NoneEarlier, Decodes,
        Ordered;
    a, b := DrainPlays(log, r.entries, now, windowMs, top);
    j := 0;
    if a < b {
      assert Within(log[b - 1].ts, now, windowMs);
      SpansSays(t, log, top);
      j := SplitAt(t, log, top, b, now);
      LatestSays(t.frames, j, now);
      DecodesAt(t, log, j);
      FrameDraws(t.frames[j].nodes);
    }
  }

  lemma {:induction false} DecodesAt(t: Take, log: Entries, j: nat)
    requires |t.ends| == |t.frames| && Decodes(t, log) && j < |t.frames|
    ensures t.ends[j] <= |log| && R.Decode(log[..t.ends[j]]) == PictureOf(Index(t.frames[j].nodes))
  {
    hide R.Decode, Index, PictureOf;
  }

  lemma {:induction false} LatestSays(frames: seq<R.Frame>, j: nat, now: real)
    requires LatestBy(frames, j, now)
    ensures j < |frames|
  {
  }
}
