/** `transport.ts`: what becomes of every event. Whatever the interleaving, each is queued, in
    flight, stored, delivered, discarded by the server or counted lost, as long as
    - persists and drains do not overlap (nothing in the file keeps them apart),
    - the storage belongs to this transport alone, does what it says, and asking for it does
      not reject (`HostKeeps`; two pages of one origin share the browser's),
    and the counts cover what the server discarded exactly where its answers list an error
    for it (`OwnsUp`): an answer of 4xx lists none. Each condition is exact, and for each there
    is a run that loses an event uncounted without it. Attachments follow their event. */
module TransportSafety {
  import opened Prelude
  import opened TransportModel
  import Runs

  // -------------------------------------------------------------- bookkeeping

  lemma {:induction false} AloftAt(flights: seq<Flight>, i: nat, f: Flight, x: Event)
    requires i < |flights|
    ensures Aloft(flights[i := f], x) + multiset(flights[i].events)[x] == Aloft(flights, x) + multiset(f.events)[x]
  {
    var n := |flights| - 1;
    if i == n {
      assert flights[i := f][..n] == flights[..n];
    } else {
      AloftAt(flights[..n], i, f, x);
      assert flights[i := f][..n] == flights[..n][i := f];
    }
  }

  lemma {:induction false} RidingAt(flights: seq<Flight>, i: nat, f: Flight)
    requires i < |flights|
    ensures Riding(flights[i := f]) + flights[i].lost == Riding(flights) + f.lost
  {
    var n := |flights| - 1;
    if i == n {
      assert flights[i := f][..n] == flights[..n];
    } else {
      RidingAt(flights[..n], i, f);
      assert flights[i := f][..n] == flights[..n][i := f];
    }
  }

  lemma {:induction false} Launched(flights: seq<Flight>, f: Flight, x: Event)
    ensures Aloft(flights + [f], x) == Aloft(flights, x) + multiset(f.events)[x]
    ensures Riding(flights + [f]) == Riding(flights) + f.lost
  {
    assert (flights + [f])[..|flights|] == flights;
  }

  lemma {:induction false} Trimmed(s: seq<Event>, n: nat, x: Event)
    ensures multiset(s)[x] == multiset(Oldest(s, n))[x] + multiset(Newest(s, n))[x]
  {
    assert s == Oldest(s, n) + Newest(s, n);
  }

  lemma {:induction false} Appended(a: seq<Event>, b: seq<Event>, x: Event)
    ensures multiset(a + b)[x] == multiset(a)[x] + multiset(b)[x]
  {
  }

  lemma {:induction false} PendingAt(flights: seq<Flight>, i: nat, f: Flight)
    requires i < |flights|
    ensures Pending(flights[i := f]) + Trimming(flights[i]) == Pending(flights) + Trimming(f)
  {
    hide Trimming;
    var n := |flights| - 1;
    if i == n {
      assert flights[i := f][..n] == flights[..n];
    } else {
      PendingAt(flights[..n], i, f);
      assert flights[i := f][..n] == flights[..n][i := f];
    }
  }

  // --------------------------------------------------------- what a step does to the gap

  lemma {:induction false} FlushLeavesGap(s: State, configured: bool, other: bool, e: Event)
    ensures Gap(Flushed(s, configured, other), e) == Gap(s, e)
  {
    Launched(s.flights, Flight(s.queue, s.dropped, Sending(0)), e);
  }

  lemma {:induction false} QueuedLeavesGap(s: State, e: Event, x: Event)
    ensures Gap(Queued(s, e), x) == Gap(s, x)
  {
    Trimmed(s.queue + [e], MAX_QUEUED, x);
    Appended(s.queue, [e], x);
  }

  /** An event answered for was kept or was not. */
  lemma {:induction false} AnswerSplits(events: seq<Event>, fates: seq<Fate>, e: Event)
    requires |events| == |fates|
    ensures multiset(events)[e] == Where(events, fates, true)[e] + Where(events, fates, false)[e]
  {
    if events != [] {
      var n := |events| - 1;
      hide Where;
      AnswerSplits(events[..n], fates[..n], e);
      LastOf(events, e);
      WhereLast(events, fates, e);
    }
  }

  lemma {:induction false} LastOf(events: seq<Event>, e: Event)
    requires events != []
    ensures
      var n := |events| - 1;
      multiset(events)[e] == multiset(events[..n])[e] + multiset([events[n]])[e]
  {
    var n := |events| - 1;
    assert events == events[..n] + [events[n]];
  }

  lemma {:induction false} WhereLast(events: seq<Event>, fates: seq<Fate>, e: Event)
    requires |events| == |fates| > 0
    ensures
      var n := |events| - 1;
      && Where(events, fates, true)[e] + Where(events, fates, false)[e]
         == Where(events[..n], fates[..n], true)[e] + Where(events[..n], fates[..n], false)[e]
            + multiset([events[n]])[e]
  {
  }

  /** Those not kept had an error or had none. */
  lemma {:induction false} DiscardedTally(events: seq<Event>, fates: seq<Fate>)
    requires |events| == |fates|
    ensures |Where(events, fates, false)| == Tally(fates, Fate(false, false)) + Tally(fates, Fate(false, true))
  {
    if events != [] {
      var n := |events| - 1;
      DiscardedTally(events[..n], fates[..n]);
    }
  }

  lemma {:induction false} AnswerLeavesGap(s: State, x: Input, e: Event)
    requires x.Answer? && Possible(s, x)
    ensures Gap(Step(s, x), e) == Gap(s, e)
  {
    AloftAt(s.flights, x.i, Flight([], 0, Landed(s.flights[x.i].events)), e);
    AnswerSplits(s.flights[x.i].events, x.fates, e);
  }

  lemma {:induction false} EndedGap(s: State, i: nat, e: Event)
    requires At(s, i)
    ensures Gap(Ended(s, i), e) == Gap(s, e) - multiset(s.flights[i].events)[e]
  {
    AloftAt(s.flights, i, Flight([], 0, Finished), e);
  }

  lemma {:induction false} ResumeLeavesGap(s: State, x: Input, e: Event)
    requires Lapsed(s) && x.Resume? && Possible(s, x)
    ensures Gap(Step(s, x), e) == Gap(s, e)
  {
    EndedGap(s, x.i, e);
  }

  lemma {:induction false} SendFailsLeavesGap(s: State, x: Input, e: Event)
    requires x.SendFails? && Possible(s, x)
    ensures Gap(Step(s, x), e) == Gap(s, e)
  {
    var f := s.flights[x.i];
    if f.phase.failures + 1 >= MAX_RETRY && f.events == [] {
      EndedGap(s, x.i, e);
    } else {
      AloftAt(s.flights, x.i, Step(s, x).flights[x.i], e);
    }
  }

  lemma {:induction false} ReadsLeavesGap(s: State, x: Input, e: Event)
    requires x.Reads? && Possible(s, x)
    ensures Gap(Step(s, x), e) == Gap(s, e)
  {
    AloftAt(s.flights, x.i, Step(s, x).flights[x.i], e);
  }

  /** A write that takes effect puts what was read and the batch in place of the store. */
  lemma {:induction false} KeptGap(s: State, i: nat, e: Event)
    requires At(s, i) && s.flights[i].phase.Writing?
    ensures Gap(Kept(s, i), e) == Gap(s, e) + multiset(s.flights[i].phase.prev)[e] + multiset(s.flights[i].events)[e]
                                  - multiset(Store(s))[e]
  {
    var f := s.flights[i];
    Trimmed(f.phase.prev + f.events, MAX_PERSISTED, e);
    Appended(f.phase.prev, f.events, e);
  }

  lemma {:induction false} WritesDrifts(s: State, x: Input, e: Event)
    requires x.Writes? && Possible(s, x)
    ensures Gap(Step(s, x), e) == Gap(s, e) + Drift(s, x, e)
  {
    if x.took {
      KeptGap(s, x.i, e);
      EndedGap(Kept(s, x.i), x.i, e);
    } else {
      EndedGap(Overcount(s, |Cut(s.flights[x.i].phase.prev, s.flights[x.i].events)|), x.i, e);
    }
  }

  lemma {:induction false} RejectedDrifts(s: State, i: nat, e: Event)
    requires At(s, i) && s.flights[i].phase.Writing?
    ensures Gap(Abandoned(s, i, true), e) == Gap(s, e) + multiset(s.flights[i].phase.prev)[e] - multiset(Store(s))[e]
  {
    var counted := Count(s, |s.flights[i].events|);
    KeptGap(counted, i, e);
    EndedGap(Overcount(Kept(counted, i), |s.flights[i].events|), i, e);
  }

  lemma {:induction false} AbandonedLeavesGap(s: State, i: nat, e: Event)
    requires At(s, i)
    ensures Gap(Abandoned(s, i, false), e) == Gap(s, e)
  {
    AloftAt(s.flights, i, Flight([], 0, Finished), e);
  }

  lemma {:induction false} PushesLeavesGap(s: State, x: Input, e: Event)
    requires x.DrainPushes? && Possible(s, x)
    ensures Gap(Step(s, x), e) == Gap(s, e)
  {
    Appended(s.queue, s.drain.raw, e);
    FlushLeavesGap(s.(drain := Idle, queue := s.queue + s.drain.raw), x.configured, x.other, e);
  }

  /** The law of the books: in whatever state, a step moves the gap by its drift. */
  lemma {:induction false} StepDrifts(s: State, x: Input, e: Event)
    requires Lapsed(s) && Possible(s, x)
    ensures Gap(Step(s, x), e) == Gap(s, e) + Drift(s, x, e)
  {
    match x
    case Enqueue(event, configured, other) =>
      QueuedLeavesGap(s, event, e);
      FlushLeavesGap(Queued(s, event), configured, other, e);
    case Flush(configured, other) => FlushLeavesGap(s, configured, other, e);
    case Answer(_, _, _, _) => AnswerLeavesGap(s, x, e);
    case Resume(_) => ResumeLeavesGap(s, x, e);
    case SendFails(_) => SendFailsLeavesGap(s, x, e);
    case StorageRejects(i) => EndedGap(s, i, e);
    case PersistFails(i, took) => if took { RejectedDrifts(s, i, e); } else { AbandonedLeavesGap(s, i, e); }
    case Reads(_, _) => ReadsLeavesGap(s, x, e);
    case Writes(_, _) => WritesDrifts(s, x, e);
    case DrainPushes(_, _) => PushesLeavesGap(s, x, e);
    case _ =>
  }

  // --------------------------------------------------------------- which steps are safe

  lemma {:induction false} SameBag(a: seq<Event>, b: seq<Event>)
    ensures multiset(a) == multiset(b) <==> forall e :: multiset(a)[e] == multiset(b)[e]
    ensures multiset(a) <= multiset(b) <==> forall e :: multiset(a)[e] <= multiset(b)[e]
  {
  }

  lemma {:induction false} BagHolds(a: seq<Event>)
    requires a != []
    ensures multiset(a)[a[0]] > 0
  {
    assert a[0] in multiset(a);
  }

  lemma {:induction false} ReplacedIff(a: seq<Event>, b: seq<Event>, drift: Event -> int)
    requires forall e :: drift(e) == Copies(a, e) - Copies(b, e)
    ensures multiset(a) == multiset(b) <==> forall e :: drift(e) == 0
    ensures multiset(b) <= multiset(a) <==> forall e :: drift(e) >= 0
  {
    SameBag(a, b);
    SameBag(b, a);
    if forall e :: drift(e) == 0 {
      forall e ensures multiset(a)[e] == multiset(b)[e] { assert drift(e) == 0; }
    }
    if forall e :: drift(e) >= 0 {
      forall e ensures multiset(b)[e] <= multiset(a)[e] { assert drift(e) >= 0; }
    }
  }

  lemma {:induction false} RemovedIff(a: seq<Event>, drift: Event -> int)
    requires a != [] && forall e :: drift(e) == -Copies(a, e)
    ensures !forall e :: drift(e) >= 0
    ensures !forall e :: drift(e) == 0
  {
    BagHolds(a);
    assert drift(a[0]) < 0;
  }

  lemma {:induction false} DoubledIff(a: seq<Event>, drift: Event -> int)
    requires a != [] && forall e :: drift(e) == Copies(a, e)
    ensures forall e :: drift(e) >= 0
    ensures !forall e :: drift(e) == 0
  {
    BagHolds(a);
    assert drift(a[0]) > 0;
  }

  /** The conditions are exact: a step is harmless when it moves no gap, and spares what
      there is when it moves none down. */
  lemma {:induction false} HarmlessIff(s: State, x: Input)
    requires Stocked(s) && Possible(s, x)
    ensures Harmless(s, x) <==> forall e :: Drift(s, x, e) == 0
    ensures Spares(s, x) <==> forall e :: Drift(s, x, e) >= 0
  {
    var drift := (e: Event) => Drift(s, x, e);
    assert forall e :: drift(e) == Drift(s, x, e);
    match x
    case Writes(i, took) =>
      if took {
        ReplacedIff(s.flights[i].phase.prev, Store(s), drift);
      } else {
        RemovedIff(s.flights[i].events, drift);
      }
    case StorageRejects(i) => RemovedIff(s.flights[i].events, drift);
    case PersistFails(i, took) => if took { ReplacedIff(s.flights[i].phase.prev, Store(s), drift); }
    case DrainRemoves(took) =>
      if took { ReplacedIff(s.drain.raw, Store(s), drift); } else { DoubledIff(s.drain.raw, drift); }
    case DrainFails(took) => if took && Store(s) != [] { RemovedIff(Store(s), drift); }
    case Elsewhere(stored) => ReplacedIff(stored.GetOr([]), Store(s), drift);
    case _ =>
  }

  /** From balanced books, whatever overlaps and whatever the host does, a step keeps
      them balanced exactly when it is harmless, and misses no event exactly when it
      spares what the store holds. */
  lemma {:induction false} StepIsSafeIff(s: State, x: Input)
    requires AllBalanced(s) && Lapsed(s) && Stocked(s) && Possible(s, x)
    ensures AllBalanced(Step(s, x)) <==> Harmless(s, x)
    ensures NoneMissing(Step(s, x)) <==> Spares(s, x)
  {
    hide *;
    HarmlessIff(s, x);
    BalancedDrifts(s, x);
  }

  lemma {:induction false} BalancedDrifts(s: State, x: Input)
    requires AllBalanced(s) && Lapsed(s) && Possible(s, x)
    ensures AllBalanced(Step(s, x)) <==> forall e :: Drift(s, x, e) == 0
    ensures NoneMissing(Step(s, x)) <==> forall e :: Drift(s, x, e) >= 0
  {
    hide Gap, Step, Drift, Lapsed, Possible;
    forall e ensures Gap(Step(s, x), e) == Drift(s, x, e) {
      StepDrifts(s, x, e);
      assert Gap(s, e) == 0;
    }
  }

  lemma {:induction false} SparedStep(s: State, x: Input)
    requires NoneMissing(s) && Lapsed(s) && Stocked(s) && Possible(s, x) && Spares(s, x)
    ensures NoneMissing(Step(s, x))
  {
    hide *;
    HarmlessIff(s, x);
    SparedDrifts(s, x);
  }

  lemma {:induction false} SparedDrifts(s: State, x: Input)
    requires NoneMissing(s) && Lapsed(s) && Possible(s, x) && forall e :: Drift(s, x, e) >= 0
    ensures NoneMissing(Step(s, x))
  {
    hide Gap, Step, Drift, Lapsed, Possible;
    forall e ensures Gap(Step(s, x), e) >= 0 {
      StepDrifts(s, x, e);
      assert Gap(s, e) >= 0 && Drift(s, x, e) >= 0;
    }
  }

  /** A write that resolves is safe exactly when it took effect and the store still
      holds what was read. */
  lemma {:induction false} WriteIsSafeIff(s: State, i: nat, took: bool)
    requires AllBalanced(s) && Lapsed(s) && Stocked(s) && At(s, i) && s.flights[i].phase.Writing?
    ensures AllBalanced(Step(s, Writes(i, took))) <==> took && multiset(s.flights[i].phase.prev) == multiset(Store(s))
  {
    hide AllBalanced, Lapsed, Stocked, Step;
    StepIsSafeIff(s, Writes(i, took));
  }

  // ------------------------------------------------------------ every count is kept

  lemma {:induction false} FlushKeepsCounts(s: State, configured: bool, other: bool)
    requires CountsKept(s) && CountsStand(s)
    ensures CountsKept(Flushed(s, configured, other)) && CountsStand(Flushed(s, configured, other))
  {
    Launched(s.flights, Flight(s.queue, s.dropped, Sending(0)), Event("", 0));
    assert (s.flights + [Flight(s.queue, s.dropped, Sending(0))])[..|s.flights|] == s.flights;
  }

  lemma {:induction false} BagGrows(m: multiset<Event>, events: seq<Event>)
    ensures |m + multiset(events)| == |m| + |events|
  {
    assert |multiset(events)| == |events|;
  }

  lemma {:induction false} QueuedKeepsCounts(s: State, e: Event)
    requires CountsKept(s) && CountsStand(s)
    ensures CountsKept(Queued(s, e)) && CountsStand(Queued(s, e))
  {
    BagGrows(s.ledger.lost, Oldest(s.queue + [e], MAX_QUEUED));
  }

  /** The counts still add up when one flight changes and the ledger with it. */
  lemma {:induction false} FlightCounts(s: State, t: State, i: nat)
    requires CountsKept(s) && CountsStand(s) && At(s, i) && At(t, i) && t.flights == s.flights[i := t.flights[i]]
    requires t.ledger.counted - t.dropped - t.flights[i].lost - t.ledger.reported - t.ledger.forfeited
          == s.ledger.counted - s.dropped - s.flights[i].lost - s.ledger.reported - s.ledger.forfeited
    requires t.ledger.counted - |t.ledger.lost| - t.ledger.refused - Trimming(t.flights[i]) - t.ledger.excess
          == s.ledger.counted - |s.ledger.lost| - s.ledger.refused - Trimming(s.flights[i]) - s.ledger.excess
    ensures CountsKept(t) && CountsStand(t)
  {
    hide Trimming;
    RidingAt(s.flights, i, t.flights[i]);
    PendingAt(s.flights, i, t.flights[i]);
  }

  predicate OnFlight(x: Input) {
    x.Answer? || x.Resume? || x.SendFails? || x.StorageRejects? || x.PersistFails? || x.Reads? || x.Writes?
  }

  lemma {:induction false} WritesKeepsCounts(s: State, x: Input)
    requires CountsKept(s) && CountsStand(s) && Possible(s, x) && (x.Reads? || x.Writes?)
    ensures CountsKept(Step(s, x)) && CountsStand(Step(s, x))
  {
    var f := s.flights[x.i];
    if f.phase.Writing? { BagGrows(s.ledger.lost, Cut(f.phase.prev, f.events)); }
    hide CountsKept, CountsStand, Newest, Oldest, Enqueued, Flushed, Answered, SendFailed, Abandoned, Attached;
    FlightCounts(s, Step(s, x), x.i);
  }

  lemma {:induction false} PersistFailsKeepsCounts(s: State, x: Input)
    requires CountsKept(s) && CountsStand(s) && Possible(s, x) && x.PersistFails?
    ensures CountsKept(Step(s, x)) && CountsStand(Step(s, x))
  {
    var f := s.flights[x.i];
    BagGrows(s.ledger.lost, f.events);
    if f.phase.Writing? { BagGrows(s.ledger.lost, Cut(f.phase.prev, f.events)); }
    hide CountsKept, CountsStand, Newest, Oldest, Enqueued, Flushed, Answered, SendFailed, Merged, Written, Attached;
    FlightCounts(s, Step(s, x), x.i);
  }

  lemma {:induction false} SendKeepsCounts(s: State, x: Input)
    requires CountsKept(s) && CountsStand(s) && Lapsed(s) && Possible(s, x)
    requires x.Answer? || x.Resume? || x.SendFails? || x.StorageRejects?
    ensures CountsKept(Step(s, x)) && CountsStand(Step(s, x))
  {
    var f := s.flights[x.i];
    hide CountsKept, CountsStand, Lapsed, Newest, Oldest, ReleasedAll;
    if f.phase.Landed? { LapsedAt(s, x.i); }
    FlightCounts(s, Step(s, x), x.i);
  }

  lemma {:induction false} LapsedAt(s: State, i: nat)
    requires Lapsed(s) && At(s, i) && (s.flights[i].phase.Landed? || s.flights[i].phase.Finished?)
    ensures s.flights[i].events == [] && s.flights[i].lost == 0
  {
  }

  lemma {:induction false} StepKeepsCounts(s: State, x: Input)
    requires CountsKept(s) && CountsStand(s) && Lapsed(s) && Possible(s, x)
    ensures CountsKept(Step(s, x)) && CountsStand(Step(s, x))
  {
    match x
    case Enqueue(e, configured, other) =>
      QueuedKeepsCounts(s, e);
      FlushKeepsCounts(Queued(s, e), configured, other);
    case Flush(configured, other) => FlushKeepsCounts(s, configured, other);
    case DrainPushes(configured, other) =>
      FlushKeepsCounts(s.(drain := Idle, queue := s.queue + s.drain.raw), configured, other);
    case Answer(_, _, _, _) => SendKeepsCounts(s, x);
    case Resume(_) => SendKeepsCounts(s, x);
    case SendFails(_) => SendKeepsCounts(s, x);
    case StorageRejects(_) => SendKeepsCounts(s, x);
    case PersistFails(_, _) => PersistFailsKeepsCounts(s, x);
    case Reads(_, _) => WritesKeepsCounts(s, x);
    case Writes(_, _) => WritesKeepsCounts(s, x);
    case _ =>
  }

  lemma {:induction false} StepKeepsRefusals(s: State, x: Input)
    requires RefusalsStand(s) && Possible(s, x)
    ensures RefusalsStand(Step(s, x))
  {
    if x.Answer? { DiscardedTally(s.flights[x.i].events, x.fates); }
  }

  lemma {:induction false} FlightLapses(s: State, t: State, i: nat)
    requires Lapsed(s) && At(s, i) && At(t, i) && t.flights == s.flights[i := t.flights[i]]
    requires t.flights[i].phase.Landed? || t.flights[i].phase.Finished?
        ==> t.flights[i].events == [] && t.flights[i].lost == 0
    ensures Lapsed(t)
  {
  }

  lemma {:induction false} StepLapses(s: State, x: Input)
    requires Lapsed(s) && Possible(s, x)
    ensures Lapsed(Step(s, x))
  {
    hide Booked, Errors, Cut, Merge, Newest, Oldest, ReleasedAll, Attached, IdsOf;
    if OnFlight(x) {
      hide Lapsed;
      FlightLapses(s, Step(s, x), x.i);
    }
  }

  lemma {:induction false} StockedAt(s: State, i: nat)
    requires Stocked(s) && At(s, i)
    ensures s.flights[i].phase.Opening? || s.flights[i].phase.Writing? ==> s.flights[i].events != []
  {
  }

  lemma {:induction false} FlightStocks(s: State, t: State, i: nat)
    requires Stocked(s) && At(s, i) && At(t, i) && t.flights == s.flights[i := t.flights[i]] && t.drain == s.drain
    requires t.stored == s.stored || (t.stored.Some? && t.stored.value != [])
    requires t.flights[i].phase.Opening? || t.flights[i].phase.Writing? ==> t.flights[i].events != []
    ensures Stocked(t)
  {
  }

  lemma {:induction false} StepStocks(s: State, x: Input)
    requires Stocked(s) && Possible(s, x)
    ensures Stocked(Step(s, x))
  {
    if OnFlight(x) {
      StockedAt(s, x.i);
      hide Stocked;
      FlightStocks(s, Step(s, x), x.i);
    }
  }

  /** Whatever overlaps and whatever the host does, the counts add up. */
  lemma {:induction false} StepKeepsLedgers(s: State, x: Input)
    requires Ledgers(s) && Possible(s, x)
    ensures Ledgers(Step(s, x))
  {
    hide *;
    LedgersSay(s);
    StepKeepsCounts(s, x);
    StepKeepsRefusals(s, x);
    StepLapses(s, x);
    StepStocks(s, x);
    LedgersHold(Step(s, x));
  }

  lemma {:induction false} LedgersSay(s: State)
    requires Ledgers(s)
    ensures CountsKept(s) && CountsStand(s) && RefusalsStand(s) && Lapsed(s) && Stocked(s)
  {
  }

  lemma {:induction false} LedgersHold(s: State)
    requires CountsKept(s) && CountsStand(s) && RefusalsStand(s) && Lapsed(s) && Stocked(s)
    ensures Ledgers(s)
  {
  }

  // ---------------------------------------------------------------- one party at a time

  lemma {:induction false} ReadsKeepsApart(s: State, x: Input)
    requires OneAtATime(s) && CanHappen(s, x) && x.Reads?
    ensures OneAtATime(Step(s, x))
  {
  }

  /** One flight moves on, and writes no more: the store is as it was, or the flight was
      the only one writing it. */
  lemma {:induction false} FlightLeaves(s: State, t: State, i: nat)
    requires OneAtATime(s) && At(s, i) && At(t, i) && t.flights == s.flights[i := t.flights[i]]
    requires !t.flights[i].phase.Writing? && t.drain == s.drain
    requires t.stored == s.stored || s.flights[i].phase.Writing?
    ensures OneAtATime(t)
  {
    assert forall j | 0 <= j < |s.flights| && j != i :: t.flights[j] == s.flights[j];
  }

  lemma {:induction false} StepKeepsApart(s: State, x: Input)
    requires OneAtATime(s) && CanHappen(s, x)
    ensures OneAtATime(Step(s, x))
  {
    if x.Reads? { ReadsKeepsApart(s, x); }
    else if OnFlight(x) {
      hide OneAtATime;
      FlightLeaves(s, Step(s, x), x.i);
    }
  }

  /** Between parties that keep apart only the host can do harm. */
  lemma {:induction false} ApartIsSafeIff(s: State, x: Input)
    requires OneAtATime(s) && Stocked(s) && Possible(s, x)
    ensures Harmless(s, x) <==> HostKeeps(s, x)
  {
    assert Store(s) != [] ==> |multiset(Store(s))| > 0;
  }

  // --------------------------------------------------------------------- runs

  /** The transport after the first `k` steps of a run. */
  ghost function After(run: seq<Input>, k: nat): State
    requires k <= |run|
  {
    Runs.At(INITIAL, run, k, Step)
  }

  ghost predicate Apartness(s: State) {
    Ledgers(s) && OneAtATime(s)
  }

  /** The invariant of the runs that lose nothing. */
  ghost predicate Books(s: State) {
    AllBalanced(s) && Ledgers(s) && OneAtATime(s)
  }

  /** And a step keeps it, of any number of flushes, as long as parties keep apart and
      the host keeps what it says. */
  lemma {:induction false} StepKeepsBooks(s: State, x: Input)
    requires Books(s) && CanHappenKept(s, x)
    ensures Books(Step(s, x))
  {
    hide AllBalanced, Ledgers, OneAtATime, Stocked, Step, Apart, HostKeeps, Possible, Harmless;
    LedgersSay(s);
    StepKeepsLedgers(s, x);
    StepKeepsApart(s, x);
    ApartIsSafeIff(s, x);
    StepIsSafeIff(s, x);
  }

  lemma {:induction false} EmptyLedgers(s: State)
    requires s.flights == [] && s.stored == None && s.drain == Idle && s.dropped == 0 && s.ledger == EMPTY_LEDGER
    ensures Ledgers(s) && OneAtATime(s)
  {
    assert |s.ledger.lost| == 0;
    assert Riding(s.flights) == 0 && Pending(s.flights) == 0;
  }

  lemma {:induction false} LedgersOpen()
    ensures Ledgers(INITIAL) && OneAtATime(INITIAL)
  {
    hide Ledgers, OneAtATime;
    EmptyLedgers(INITIAL);
  }

  lemma {:induction false} BalanceOpens()
    ensures AllBalanced(INITIAL) && NoneMissing(INITIAL)
  {
  }

  ghost predicate Covered(s: State) {
    NoneMissing(s) && Ledgers(s)
  }

  predicate SparingStep(s: State, x: Input) {
    Possible(s, x) && Spares(s, x)
  }

  lemma {:induction false} StepKeepsCovered(s: State, x: Input)
    requires Covered(s) && SparingStep(s, x)
    ensures Covered(Step(s, x))
  {
    hide Ledgers, NoneMissing, Step, Possible, Spares;
    LedgersSay(s);
    SparedStep(s, x);
    StepKeepsLedgers(s, x);
  }

  lemma {:induction false} Opened()
    ensures Ledgers(INITIAL) && Apartness(INITIAL) && Books(INITIAL) && Covered(INITIAL) && AllBalanced(INITIAL)
  {
    hide Ledgers, OneAtATime, AllBalanced, NoneMissing;
    LedgersOpen();
    BalanceOpens();
  }

  /** The steps as the machine of the runs: what they keep, and what decides whether the
      books still balance. */
  lemma {:induction false} StepsKeep(step: (State, Input) -> State)
    requires step == Step
    ensures Runs.Keeps(step, Possible, Ledgers) && Runs.Keeps(step, CanHappenKept, Books)
    ensures Runs.Keeps(step, SparingStep, Covered)
  {
    forall s: State, x: Input | Ledgers(s) && Possible(s, x) ensures Ledgers(step(s, x)) { StepKeepsLedgers(s, x); }
    forall s: State, x: Input | Books(s) && CanHappenKept(s, x) ensures Books(step(s, x)) { StepKeepsBooks(s, x); }
    forall s: State, x: Input | Covered(s) && SparingStep(s, x) ensures Covered(step(s, x)) { StepKeepsCovered(s, x); }
  }

  lemma {:induction false} RunLedgers(run: seq<Input>, k: nat, step: (State, Input) -> State)
    requires Runs.Keeps(step, Possible, Ledgers) && Ledgers(INITIAL)
    requires Runs.Allowed(INITIAL, run, step, Possible) && k <= |run|
    ensures Ledgers(Runs.At(INITIAL, run, k, step))
  {
    Runs.Invariant(INITIAL, run, k, step, Possible, Ledgers);
  }

  lemma {:induction false} RunBooks(run: seq<Input>, k: nat, step: (State, Input) -> State)
    requires Runs.Keeps(step, CanHappenKept, Books) && Books(INITIAL)
    requires Runs.Allowed(INITIAL, run, step, CanHappenKept) && k <= |run|
    ensures Books(Runs.At(INITIAL, run, k, step))
  {
    Runs.Invariant(INITIAL, run, k, step, CanHappenKept, Books);
  }

  lemma {:induction false} RunCovered(run: seq<Input>, k: nat, step: (State, Input) -> State)
    requires Runs.Keeps(step, SparingStep, Covered) && Covered(INITIAL)
    requires Runs.Allowed(INITIAL, run, step, SparingStep) && k <= |run|
    ensures Covered(Runs.At(INITIAL, run, k, step))
  {
    Runs.Invariant(INITIAL, run, k, step, SparingStep, Covered);
  }

  lemma {:induction false} LedgersAfter(run: seq<Input>, k: nat) returns (s: State)
    requires Runs.Allowed(INITIAL, run, Step, Possible) && k <= |run|
    ensures s == After(run, k) && Ledgers(s)
  {
    hide Ledgers, Possible, Step, INITIAL, Runs.At, Runs.Allowed, Runs.Keeps;
    Opened();
    StepsKeep(Step);
    RunLedgers(run, k, Step);
    s := After(run, k);
  }

  lemma {:induction false} BooksAfter(run: seq<Input>, k: nat) returns (s: State)
    requires Runs.Allowed(INITIAL, run, Step, CanHappenKept) && k <= |run|
    ensures s == After(run, k) && Books(s)
  {
    hide Books, CanHappenKept, Step, INITIAL, Runs.At, Runs.Allowed, Runs.Keeps;
    Opened();
    StepsKeep(Step);
    RunBooks(run, k, Step);
    s := After(run, k);
  }

  lemma {:induction false} LedgersAdd(s: State)
    requires Ledgers(s)
    ensures s.ledger.counted == s.dropped + Riding(s.flights) + s.ledger.reported + s.ledger.forfeited
    ensures s.ledger.counted == |s.ledger.lost| + s.ledger.refused + Pending(s.flights) + s.ledger.excess
  {
  }

  /** In every run, whatever overlaps and whatever the host does: each count is waiting,
      riding a batch, reported, or was forfeited with its batch; and each stands for an
      event lost, a refused outcome, an event about to be lost, or an event counted that
      was not lost after all. */
  lemma {:induction false} CountsAlwaysAddUp(run: seq<Input>, k: nat) returns (s: State)
    requires Runs.Allowed(INITIAL, run, Step, Possible) && k <= |run|
    ensures s == After(run, k)
    ensures s.ledger.counted == s.dropped + Riding(s.flights) + s.ledger.reported + s.ledger.forfeited
    ensures s.ledger.counted == |s.ledger.lost| + s.ledger.refused + Pending(s.flights) + s.ledger.excess
    ensures |s.ledger.lost| + s.ledger.refused <= s.ledger.counted
  {
    hide *;
    s := LedgersAfter(run, k);
    LedgersAdd(s);
  }

  lemma {:induction false} LedgersDecide(s: State, x: Input)
    requires Ledgers(s) && Possible(s, x) && AllBalanced(s)
    ensures AllBalanced(Step(s, x)) <==> Harmless(s, x)
  {
    hide *;
    LedgersSay(s);
    StepIsSafeIff(s, x);
  }

  lemma {:induction false} StepKeepsApartness(s: State, x: Input)
    requires Apartness(s) && CanHappen(s, x)
    ensures Apartness(Step(s, x)) && (Harmless(s, x) <==> HostKeeps(s, x))
  {
    hide Ledgers, OneAtATime, Step, Possible, Apart, Harmless, HostKeeps;
    StepKeepsLedgers(s, x);
    StepKeepsApart(s, x);
    LedgersSay(s);
    ApartIsSafeIff(s, x);
  }

  lemma {:induction false} StepsDecide(step: (State, Input) -> State)
    requires step == Step
    ensures Runs.Decides(step, Possible, Ledgers, AllBalanced, Harmless)
  {
    forall s: State, x: Input | Ledgers(s) && Possible(s, x) && AllBalanced(s)
      ensures AllBalanced(step(s, x)) <==> Harmless(s, x)
    {
      LedgersDecide(s, x);
    }
  }

  lemma {:induction false} ApartDecides(s: State, x: Input)
    requires Apartness(s) && CanHappen(s, x) && AllBalanced(s)
    ensures AllBalanced(Step(s, x)) <==> HostKeeps(s, x)
  {
    hide Ledgers, OneAtATime, Step, Possible, Apart, Harmless, HostKeeps, AllBalanced;
    StepKeepsApartness(s, x);
    LedgersDecide(s, x);
  }

  lemma {:induction false} StepsApart(step: (State, Input) -> State)
    requires step == Step
    ensures Runs.Keeps(step, CanHappen, Apartness) && Runs.Decides(step, CanHappen, Apartness, AllBalanced, HostKeeps)
  {
    forall s: State, x: Input | Apartness(s) && CanHappen(s, x) ensures Apartness(step(s, x)) {
      StepKeepsApartness(s, x);
    }
    forall s: State, x: Input | Apartness(s) && CanHappen(s, x) && AllBalanced(s)
      ensures AllBalanced(step(s, x)) <==> HostKeeps(s, x)
    {
      ApartDecides(s, x);
    }
  }

  /** The books of a run balance all along exactly when all its steps are harmless,
      whatever overlaps and whatever the host does. */
  lemma {:induction false} BooksBalanceIff(run: seq<Input>, n: nat)
    requires Runs.Allowed(INITIAL, run, Step, Possible) && n <= |run|
    ensures Runs.GoodUntil(INITIAL, run, n, Step, AllBalanced) <==> Runs.FineUntil(INITIAL, run, n, Step, Harmless)
  {
    hide *;
    Opened();
    StepsKeep(Step);
    StepsDecide(Step);
    Runs.GoodIffFine(INITIAL, run, n, Step, Possible, Ledgers, AllBalanced, Harmless);
  }

  /** Where persists and drains do not overlap that is up to the host: the books balance
      all along exactly when what resolves took effect, what rejects to remove did not,
      and no store is overwritten by a party that read nothing from it. */
  lemma {:induction false} BooksBalanceApartIff(run: seq<Input>, n: nat)
    requires Runs.Allowed(INITIAL, run, Step, CanHappen) && n <= |run|
    ensures Runs.GoodUntil(INITIAL, run, n, Step, AllBalanced) <==> Runs.FineUntil(INITIAL, run, n, Step, HostKeeps)
  {
    hide *;
    Opened();
    StepsApart(Step);
    Runs.GoodIffFine(INITIAL, run, n, Step, CanHappen, Apartness, AllBalanced, HostKeeps);
  }

  lemma {:induction false} BooksSay(s: State, x: Event)
    requires Books(s)
    ensures s.ledger.taken[x] == multiset(s.queue)[x] + Aloft(s.flights, x) + multiset(Store(s))[x]
                                   + multiset(Carried(s))[x] + s.ledger.delivered[x] + s.ledger.discarded[x]
                                   + s.ledger.lost[x]
    ensures Ledgers(s)
  {
    assert Gap(s, x) == 0;
  }

  // ------------------------------------------------------------ what answers leave unsaid

  lemma {:induction false} StepSays(s: State, x: Input)
    requires Possible(s, x)
    ensures Step(s, x).ledger.unsaid == s.ledger.unsaid + if x.Answer? then Tally(x.fates, SILENTLY_DROPPED) else 0
    ensures Step(s, x).ledger.spare ==
            s.ledger.spare + if x.Answer? then Tally(x.fates, Fate(true, true)) + x.extra else 0
  {
    hide Tally, Where;
  }

  lemma {:induction false} OneMoreAnswer(run: seq<Input>, n: nat)
    requires Runs.Allowed(INITIAL, run, Step, Possible) && 0 < n <= |run|
    ensures var s, t := After(run, n - 1), After(run, n);
      && (t.ledger.unsaid == 0 <==> s.ledger.unsaid == 0 && OwnsUp(s, run[n - 1]))
      && (t.ledger.spare == 0 <==> s.ledger.spare == 0 && Frank(s, run[n - 1]))
  {
    hide Step, Tally, INITIAL;
    assert Possible(Runs.At(INITIAL, run, n - 1, Step), run[n - 1]);
    StepSays(After(run, n - 1), run[n - 1]);
  }

  lemma {:induction false} NothingSaid()
    ensures INITIAL.ledger.unsaid == 0 && INITIAL.ledger.spare == 0
  {
  }

  /** Nothing was left unsaid exactly when every answer owned up, and no error was spare
      exactly when every answer was frank. */
  lemma {:induction false} UnsaidIff(run: seq<Input>, n: nat)
    requires Runs.Allowed(INITIAL, run, Step, Possible) && n <= |run|
    ensures After(run, n).ledger.unsaid == 0 <==> Runs.FineUntil(INITIAL, run, n, Step, OwnsUp)
    ensures After(run, n).ledger.spare == 0 <==> Runs.FineUntil(INITIAL, run, n, Step, Frank)
  {
    hide Step, OwnsUp, Frank, INITIAL, Possible, Runs.Allowed;
    if n == 0 {
      NothingSaid();
    } else {
      hide Runs.At;
      UnsaidIff(run, n - 1);
      OneMoreAnswer(run, n);
      Runs.FineSplits(INITIAL, run, n, Step, OwnsUp);
      Runs.FineSplits(INITIAL, run, n, Step, Frank);
    }
  }

  lemma {:induction false} RefusalsAdd(s: State)
    requires Ledgers(s)
    ensures s.ledger.counted + s.ledger.unsaid ==
            |s.ledger.lost| + |s.ledger.discarded| + Pending(s.flights) + s.ledger.excess + s.ledger.spare
  {
  }

  /** In every run, whatever overlaps and whatever host and server do: the counts fall short
      of the losses and the undelivered by what answers left unsaid. While answers are frank,
      the counts that stand for something cover both exactly when every answer listed an
      error for each event it did not keep. */
  lemma {:induction false} UndeliveredAreCountedIff(run: seq<Input>, k: nat) returns (s: State)
    requires Runs.Allowed(INITIAL, run, Step, Possible) && k <= |run|
    ensures s == After(run, k)
    ensures s.ledger.counted + s.ledger.unsaid ==
            |s.ledger.lost| + |s.ledger.discarded| + Pending(s.flights) + s.ledger.excess + s.ledger.spare
    ensures Runs.FineUntil(INITIAL, run, k, Step, OwnsUp) ==>
              |s.ledger.lost| + |s.ledger.discarded| <= s.ledger.counted
    ensures Runs.FineUntil(INITIAL, run, k, Step, Frank) ==>
              (|s.ledger.lost| + |s.ledger.discarded| <= s.ledger.counted - Pending(s.flights) - s.ledger.excess
               <==> Runs.FineUntil(INITIAL, run, k, Step, OwnsUp))
  {
    hide *;
    s := LedgersAfter(run, k);
    RefusalsAdd(s);
    UnsaidIff(run, k);
  }

  lemma {:induction false} KeptIsPossible(run: seq<Input>)
    requires Runs.Allowed(INITIAL, run, Step, CanHappenKept)
    ensures Runs.Allowed(INITIAL, run, Step, Possible)
  {
    hide Step, Possible, Apart, HostKeeps, INITIAL, Runs.At;
    forall k | 0 <= k < |run| ensures Possible(Runs.At(INITIAL, run, k, Step), run[k]) {
      assert CanHappenKept(Runs.At(INITIAL, run, k, Step), run[k]);
    }
  }

  /** In every run whose persists and drains do not overlap, over a host that keeps what it
      says, at every point: each copy of an event taken in is queued, in flight, in the
      store, in a drain, delivered, discarded by the server or lost. The counts cover the
      losses, and the discarded events too where every answer owned up to them; otherwise
      they fall short by what the answers left unsaid. */
  lemma {:induction false} NoUncountedLoss(run: seq<Input>, k: nat, x: Event) returns (s: State)
    requires Runs.Allowed(INITIAL, run, Step, CanHappenKept) && k <= |run|
    ensures s == After(run, k)
    ensures s.ledger.taken[x] == multiset(s.queue)[x] + Aloft(s.flights, x) + multiset(Store(s))[x]
                                   + multiset(Carried(s))[x] + s.ledger.delivered[x] + s.ledger.discarded[x]
                                   + s.ledger.lost[x]
    ensures |s.ledger.lost| + s.ledger.refused <= s.ledger.counted
    ensures |s.ledger.lost| + |s.ledger.discarded| <= s.ledger.counted + s.ledger.unsaid
    ensures s.ledger.unsaid == 0 <==> Runs.FineUntil(INITIAL, run, k, Step, OwnsUp)
    ensures s.ledger.counted == s.dropped + Riding(s.flights) + s.ledger.reported + s.ledger.forfeited
  {
    hide *;
    s := BooksAfter(run, k);
    BooksSay(s, x);
    LedgersAdd(s);
    RefusalsAdd(s);
    KeptIsPossible(run);
    UnsaidIff(run, k);
  }

  // ------------------------------------------------------------- answers without outcomes

  lemma {:induction false} AllSilent(events: seq<Event>, fates: seq<Fate>)
    requires |events| == |fates| && forall j | 0 <= j < |fates| :: fates[j] == SILENTLY_DROPPED
    ensures Where(events, fates, true) == multiset{} && Where(events, fates, false) == multiset(events)
    ensures Tally(fates, SILENTLY_DROPPED) == |fates|
    ensures Tally(fates, Fate(true, true)) == 0 && Tally(fates, Fate(false, true)) == 0
  {
    if events != [] {
      var n := |events| - 1;
      AllSilent(events[..n], fates[..n]);
      assert events == events[..n] + [events[n]];
    }
  }

  /** Nothing was kept, and nothing is said of it: a 4xx answer to the whole batch. */
  predicate Wholesale(x: Input) {
    x.Answer? && x.extra == 0 && forall j | 0 <= j < |x.fates| :: x.fates[j] == SILENTLY_DROPPED
  }

  /** All of the batch is discarded and nothing is counted; only an empty one is no harm. */
  lemma {:induction false} WholesaleDiscards(s: State, x: Input)
    requires Wholesale(x) && Possible(s, x)
    ensures OwnsUp(s, x) <==> s.flights[x.i].events == []
    ensures
      var t, f := Step(s, x), s.flights[x.i];
      t == WithFlight(s, x.i, Flight([], 0, Landed(f.events))).(
             desk := t.desk,
             ledger := s.ledger.(
               discarded := s.ledger.discarded + multiset(f.events),
               unsaid := s.ledger.unsaid + |f.events|,
               reported := t.ledger.reported,
               forfeited := t.ledger.forfeited))
  {
    hide Tally, Where, IdsOf;
    AllSilent(s.flights[x.i].events, x.fates);
    assert s.ledger.delivered + multiset{} == s.ledger.delivered;
  }

  /** The server's own limit: a longer batch is answered 413, whatever is in it. */
  const MAX_BATCH: nat := 200

  predicate ServerLimits(s: State, x: Input) {
    x.Answer? && Possible(s, x) && |s.flights[x.i].events| > MAX_BATCH ==> Wholesale(x)
  }

  /** A drain sends all it took out of the store at once. Over the server's limit, which is
      a fifth of what the store may hold, no answer keeps any of it and none owns up. */
  lemma {:induction false} LongDrainIsDiscarded(s: State, other: bool, x: Input)
    requires s.started && s.drain.Removed? && |s.queue| + |s.drain.raw| > MAX_BATCH
    requires
      var s1 := Step(s, DrainPushes(true, other));
      x.Answer? && x.i == |s.flights| && Possible(s1, x) && ServerLimits(s1, x)
    ensures
      var s1 := Step(s, DrainPushes(true, other));
      !OwnsUp(s1, x) && Step(s1, x).ledger.counted == s.ledger.counted
      && Step(s1, x).ledger.discarded == s.ledger.discarded + multiset(s.queue + s.drain.raw)
  {
    var s1 := Step(s, DrainPushes(true, other));
    assert s1.flights[x.i].events == s.queue + s.drain.raw;
    WholesaleDiscards(s1, x);
  }

  /** Whatever else happens, doubled events included, none is missing from a run in which
      nothing replaces the store by less than it held. */
  lemma {:induction false} SparedRunsMissNone(run: seq<Input>, k: nat, x: Event)
    requires Runs.Allowed(INITIAL, run, Step, SparingStep) && k <= |run|
    ensures Gap(After(run, k), x) >= 0
  {
    Opened();
    StepsKeep(Step);
    RunCovered(run, k, Step);
    CoveredSays(After(run, k), x);
  }

  lemma {:induction false} CoveredSays(s: State, x: Event)
    requires Covered(s)
    ensures Gap(s, x) >= 0
  {
  }

  // ------------------------------------------------------- when persists overlap

  lemma {:induction false} SmallPersist(s: State, i: nat, found: bool, took: bool)
    requires At(s, i) && |Store(s)| + |s.flights[i].events| <= MAX_PERSISTED
    ensures s.flights[i].phase.Opening? ==>
              Step(s, Reads(i, found)) == WithFlight(s, i,
                                                     s.flights[i].(phase := Writing(if found then Store(s) else [])))
    ensures s.flights[i].phase.Writing? && |s.flights[i].phase.prev| + |s.flights[i].events| <= MAX_PERSISTED ==>
              Step(s, Writes(i, took)) ==
                if took then Ended(s, i).(stored := Some(s.flights[i].phase.prev + s.flights[i].events))
                    else Ended(s, i)
  {
    assert s.ledger.lost + multiset([]) == s.ledger.lost;
  }

  /** Two persists that read before either writes: the first batch is gone, and no
      count says so. */
  lemma {:induction false} OverlapLosesUncounted(s: State, i: nat, j: nat)
    requires At(s, i) && At(s, j) && i != j && s.flights[i].phase.Opening? && s.flights[j].phase.Opening?
    requires s.stored == None && s.drain.Idle?
    requires 0 < |s.flights[i].events| && 0 < |s.flights[j].events|
    requires |s.flights[i].events| + |s.flights[j].events| <= MAX_PERSISTED
    ensures var s1 := Step(s, Reads(i, true)); var s2 := Step(s1, Reads(j, true)); var s3 := Step(s2, Writes(i, true));
      Possible(s, Reads(i, true)) && Possible(s1, Reads(j, true)) && Possible(s2, Writes(i, true))
      && Possible(s3, Writes(j, true))
    ensures var t := Step(Step(Step(Step(s, Reads(i, true)), Reads(j, true)), Writes(i, true)), Writes(j, true));
      && t.stored == Some(s.flights[j].events) && t.queue == s.queue
      && t.drain == s.drain && t.ledger == s.ledger.(forfeited := t.ledger.forfeited)
      && t.flights == s.flights[i := Flight([], 0, Finished)][j := Flight([], 0, Finished)]
  {
    SmallPersist(s, i, true, true);
    var s1 := Step(s, Reads(i, true));
    SmallPersist(s1, j, true, true);
    var s2 := Step(s1, Reads(j, true));
    assert [] + s.flights[i].events == s.flights[i].events && [] + s.flights[j].events == s.flights[j].events;
    SmallPersist(s2, i, true, true);
    var s3 := Step(s2, Writes(i, true));
    SmallPersist(s3, j, true, true);
  }

  // --------------------------------------------------------------- attachments

  lemma {:induction false} Joined(xs: seq<nat>, ys: seq<nat>)
    requires Distinct(xs) && Increasing(ys) && forall n | n in ys :: n !in xs
    ensures Distinct(xs + ys)
  {
    forall j, k | 0 <= j < k < |xs + ys| ensures (xs + ys)[j] != (xs + ys)[k] {
      if j < |xs| <= k { assert xs[j] in xs && ys[k - |xs|] in ys; }
    }
  }

  lemma {:induction false} ReleasedKeeps(d: Desk, id: string)
    requires DeskKept(d) && id in d.answeredIds
    ensures DeskKept(Released(d, id))
    ensures Released(d, id).owners == d.owners && Released(d, id).answeredIds == d.answeredIds
  {
    if id in d.pending {
      assert Holding(d, id);
      var t := Released(d, id);
      forall other ensures Holding(t, other) { assert Holding(d, other); }
      assert forall n | n in d.pending[id] :: Waiting(d, n) && n !in d.released;
      Joined(d.released, d.pending[id]);
    }
  }

  lemma {:induction false} ReleasedAllKeeps(d: Desk, batch: seq<Event>)
    requires DeskKept(d) && IdsOf(batch) <= d.answeredIds
    ensures DeskKept(ReleasedAll(d, batch))
    ensures ReleasedAll(d, batch).owners == d.owners && ReleasedAll(d, batch).answeredIds == d.answeredIds
    decreases |batch|
  {
    if batch != [] {
      var init, last := batch[..|batch| - 1], batch[|batch| - 1];
      assert forall e | e in init :: e in batch;
      assert IdsOf(init) <= IdsOf(batch);
      assert last.id in IdsOf(batch);
      ReleasedAllKeeps(d, init);
      ReleasedKeeps(ReleasedAll(d, init), last.id);
    }
  }

  lemma {:induction false} AttachedKeeps(d: Desk, id: string)
    requires DeskKept(d)
    ensures DeskKept(Attached(d, id))
  {
    var t := Attached(d, id);
    assert Holding(d, id);
    forall other ensures Holding(t, other) {
      assert Holding(d, other);
      assert other in d.pending ==> forall j | 0 <= j < |d.pending[other]| :: d.pending[other][j] in d.pending[other];
    }
    forall n: nat | n < |t.owners| ensures n in t.released <==> !Waiting(t, n) {
      if n < |d.owners| {
        assert Waiting(t, n) == Waiting(d, n);
      } else {
        assert n == |d.owners| && t.pending[id][|t.pending[id]| - 1] == n;
      }
    }
  }

  lemma {:induction false} AnswerKeepsDesk(d: Desk, ids: set<string>)
    requires DeskKept(d)
    ensures DeskKept(d.(answeredIds := d.answeredIds + ids))
  {
    var t := d.(answeredIds := d.answeredIds + ids);
    forall id ensures Holding(t, id) { assert Holding(d, id); }
    forall n: nat | n < |d.owners| ensures n in t.released <==> !Waiting(t, n) {
      assert Waiting(t, n) == Waiting(d, n);
    }
  }

  lemma {:induction false} AnswerHandsOver(s: State, x: Input)
    requires Handover(s) && Possible(s, x) && x.Answer?
    ensures Handover(Step(s, x))
  {
    AnswerKeepsDesk(s.desk, IdsOf(s.flights[x.i].events));
    hide DeskKept, Booked, Errors, IdsOf;
  }

  lemma {:induction false} StepHandsOver(s: State, x: Input)
    requires Handover(s) && Possible(s, x)
    ensures Handover(Step(s, x))
  {
    match x
    case Resume(i) => ReleasedAllKeeps(s.desk, s.flights[i].phase.batch);
    case Attach(id) => AttachedKeeps(s.desk, id);
    case Answer(_, _, _, _) => AnswerHandsOver(s, x);
    case _ => assert Step(s, x).desk == s.desk;
  }

  /** In every run, whatever overlaps: an attachment is either waiting or released,
      is released at most once, and only after a batch with its event was answered. */
  lemma {:induction false} AttachmentsFollowTheirEvent(run: seq<Input>, k: nat, n: nat)
    requires Runs.Allowed(INITIAL, run, Step, Possible) && k <= |run| && n < |After(run, k).desk.owners|
    ensures var d := After(run, k).desk;
      && (n in d.released <==> !Waiting(d, n))
      && (n in d.released ==> d.owners[n] in d.answeredIds)
      && Distinct(d.released)
  {
    forall s: State, i: Input | Handover(s) && Possible(s, i) ensures Handover(Step(s, i)) { StepHandsOver(s, i); }
    Runs.Invariant(INITIAL, run, k, Step, Possible, Handover);
  }

  // ------------------------------------------------------- attachments are handed over

  /** The ids the resuming loop looks at. */
  ghost function BatchIds(batch: seq<Event>): set<string> {
    set e | e in batch && e.id != "" :: e.id
  }

  /** What waited for these ids has been handed over, each list as it was queued and after
      what had been handed over before; what waits for other ids still does. */
  ghost predicate HandsOver(d: Desk, t: Desk, ids: set<string>) {
    && t.owners == d.owners
    && d.released <= t.released
    && (forall id | id in ids :: id !in t.pending)
    && (forall id | id !in ids :: id in t.pending <==> id in d.pending)
    && (forall id | id !in ids && id in d.pending :: t.pending[id] == d.pending[id])
    && (forall id | id in ids && id in d.pending :: HandedInOrder(d, t, d.pending[id]))
    && forall n | n in t.released :: n in d.released || exists id :: id in ids && id in d.pending && n in d.pending[id]
  }

  ghost predicate HandedInOrder(d: Desk, t: Desk, list: seq<nat>) {
    exists k: nat :: |d.released| <= k && StandsAt(t.released, list, k)
  }

  predicate StandsAt(all: seq<nat>, list: seq<nat>, k: nat) {
    k + |list| <= |all| && all[k..k + |list|] == list
  }

  lemma {:induction false} NothingToHand(d: Desk)
    ensures HandsOver(d, d, {})
  {
  }

  lemma {:induction false} OneHandedOver(d: Desk, t: Desk, ids: set<string>, id: string)
    requires HandsOver(d, t, ids)
    ensures HandsOver(d, Released(t, id), ids + {id})
  {
    var u := Released(t, id);
    if id in t.pending {
      assert id in d.pending && t.pending[id] == d.pending[id];
      var k := |t.released|;
      assert StandsAt(u.released, d.pending[id], k);
      forall other | other in ids && other in d.pending ensures HandedInOrder(d, u, d.pending[other]) {
        StillInOrder(d, t, u, d.pending[other]);
      }
    } else {
      forall other | other in ids && other in d.pending ensures HandedInOrder(d, u, d.pending[other]) {
        assert HandedInOrder(d, t, d.pending[other]);
      }
    }
  }

  lemma {:induction false} StillInOrder(d: Desk, t: Desk, u: Desk, list: seq<nat>)
    requires HandedInOrder(d, t, list) && t.released <= u.released
    ensures HandedInOrder(d, u, list)
  {
    var k: nat :| |d.released| <= k && StandsAt(t.released, list, k);
    assert StandsAt(u.released, list, k);
  }

  lemma {:induction false} AllHandedOver(d: Desk, batch: seq<Event>)
    ensures HandsOver(d, ReleasedAll(d, batch), BatchIds(batch))
    decreases |batch|
  {
    if batch == [] {
      assert BatchIds(batch) == {};
      NothingToHand(d);
    } else {
      var init, last := batch[..|batch| - 1], batch[|batch| - 1];
      assert batch == init + [last];
      AllHandedOver(d, init);
      hide HandsOver;
      if last.id != "" {
        OneHandedOver(d, ReleasedAll(d, init), BatchIds(init), last.id);
        assert BatchIds(batch) == BatchIds(init) + {last.id};
      } else {
        assert BatchIds(batch) == BatchIds(init);
      }
    }
  }

  /** When a batch that has landed resumes, everything waiting for its events goes. */
  lemma {:induction false} ResumeHandsOver(s: State, i: nat)
    requires At(s, i) && s.flights[i].phase.Landed?
    ensures HandsOver(s.desk, Step(s, Resume(i)).desk, BatchIds(s.flights[i].phase.batch))
  {
    hide HandsOver, BatchIds, ReleasedAll;
    AllHandedOver(s.desk, s.flights[i].phase.batch);
  }

  /** What has been handed over stays so, and owners keep their numbers. */
  ghost predicate DeskGrows(s: State, t: State) {
    s.desk.released <= t.desk.released && s.desk.owners <= t.desk.owners
  }

  lemma {:induction false} StepGrowsDesk(s: State, x: Input)
    requires Possible(s, x)
    ensures DeskGrows(s, Step(s, x))
  {
    if x.Resume? {
      ResumeHandsOver(s, x.i);
    } else {
      hide Booked, Errors, Newest, Oldest, IdsOf;
    }
  }

  lemma {:induction false} ResumedReleases(s: State, i: nat, n: nat)
    requires Handover(s) && At(s, i) && s.flights[i].phase.Landed?
    requires n < |s.desk.owners| && s.desk.owners[n] in BatchIds(s.flights[i].phase.batch)
    ensures n in Step(s, Resume(i)).desk.released
  {
    hide BatchIds;
    ResumeHandsOver(s, i);
    StepHandsOver(s, Resume(i));
    hide Step, ReleasedAll, LandedAnswered;
    assert !Waiting(Step(s, Resume(i)).desk, n);
  }

  /** In every run, whatever overlaps: an attachment queued before the batch of its event
      resumes is handed over by then, and stays so. */
  lemma {:induction false} AttachmentsAreReleased(run: seq<Input>, k: nat, m: nat, n: nat)
    requires Runs.Allowed(INITIAL, run, Step, Possible) && k < m <= |run| && run[k].Resume?
    requires n < |After(run, k).desk.owners| && At(After(run, k), run[k].i)
        && After(run, k).flights[run[k].i].phase.Landed?
    requires After(run, k).desk.owners[n] in BatchIds(After(run, k).flights[run[k].i].phase.batch)
    ensures n in After(run, m).desk.released
  {
    hide Step, Possible, INITIAL, Handover, BatchIds, At;
    HandoverAfter(run, k);
    ResumedReleases(After(run, k), run[k].i, n);
    assert After(run, k + 1) == Step(After(run, k), run[k]);
    DeskGrowsAfter(run, k + 1, m);
  }

  lemma {:induction false} HandoverAfter(run: seq<Input>, k: nat)
    requires Runs.Allowed(INITIAL, run, Step, Possible) && k <= |run|
    ensures Handover(After(run, k))
  {
    forall s: State, i: Input | Handover(s) && Possible(s, i) ensures Handover(Step(s, i)) { StepHandsOver(s, i); }
    Runs.Invariant(INITIAL, run, k, Step, Possible, Handover);
  }

  lemma {:induction false} DeskGrowsAfter(run: seq<Input>, j: nat, k: nat)
    requires Runs.Allowed(INITIAL, run, Step, Possible) && j <= k <= |run|
    ensures DeskGrows(After(run, j), After(run, k))
  {
    if j < k {
      DeskGrowsAfter(run, j, k - 1);
      var s := After(run, k - 1);
      assert Possible(s, run[k - 1]) && After(run, k) == Step(s, run[k - 1]);
      hide Step, Possible, INITIAL;
      StepGrowsDesk(s, run[k - 1]);
    }
  }

  // ------------------------------------------------------------------- which and when

  /** An event waits behind those before it; the tenth takes all of them along in one batch,
      with the count so far, unless there is nobody to send yet. */
  lemma {:induction false} EnqueueSends(s: State, e: Event, configured: bool, other: bool)
    requires |s.queue| < MAX_QUEUED
    ensures var t := Step(s, Enqueue(e, configured, other));
      if |s.queue| + 1 >= BATCH_SIZE && s.started && configured
      then t.queue == [] && t.dropped == 0 && t.flights == s.flights + [Flight(s.queue + [e], s.dropped, Sending(0))]
      else t.queue == s.queue + [e] && t.dropped == s.dropped && t.flights == s.flights
  {
  }

  /** A full queue drops its oldest event, into the losses and the count. */
  lemma {:induction false} OverflowDropsOldest(s: State, e: Event, configured: bool, other: bool)
    requires |s.queue| == MAX_QUEUED && !(s.started && configured)
    ensures var t := Step(s, Enqueue(e, configured, other));
      && t.queue == s.queue[1..] + [e] && t.dropped == s.dropped + 1
      && t.ledger.lost == s.ledger.lost + multiset{s.queue[0]}
  {
    var all := s.queue + [e];
    assert all[1..] == s.queue[1..] + [e] && all[..1] == [s.queue[0]];
  }

  /** A write that takes effect leaves the last thousand of what was read and the batch, in
      order; what it drops is the front, counted when the merge was made. */
  lemma {:induction false} WriteKeepsNewest(s: State, i: nat)
    requires At(s, i) && s.flights[i].phase.Writing?
    ensures var all := s.flights[i].phase.prev + s.flights[i].events;
      var t := Step(s, Writes(i, true));
      var n := if |all| > MAX_PERSISTED then |all| - MAX_PERSISTED else 0;
      t.stored == Some(all[n..]) && t.ledger.lost == s.ledger.lost + multiset(all[..n])
  {
    var all := s.flights[i].phase.prev + s.flights[i].events;
    assert all[0..] == all && all[..0] == [];
  }

  /** A drained list goes behind what is queued by then, in order, and all of it is sent. */
  lemma {:induction false} DrainSends(s: State, configured: bool, other: bool)
    requires s.drain.Removed?
    ensures var t := Step(s, DrainPushes(configured, other)); var all := s.queue + s.drain.raw;
      && t.drain.Idle?
      && if s.started && configured && (all != [] || other)
         then t.queue == [] && t.dropped == 0 && t.flights == s.flights + [Flight(all, s.dropped, Sending(0))]
         else t.queue == all && t.dropped == s.dropped && t.flights == s.flights
  {
  }

  /** A batch takes its loss count with it: the server has it when the answer was to an
      envelope it heard, and otherwise it is forfeited; nobody else's count is touched. */
  lemma {:induction false} AnswerEndsCount(s: State, i: nat, fates: seq<Fate>, extra: nat, heard: bool)
    requires Possible(s, Answer(i, fates, extra, heard))
    ensures var t, lost := Step(s, Answer(i, fates, extra, heard)), s.flights[i].lost;
      && t.ledger.reported == (if heard then s.ledger.reported + lost else s.ledger.reported)
      && t.ledger.forfeited == (if heard then s.ledger.forfeited else s.ledger.forfeited + lost)
      && t.flights == s.flights[i := Flight([], 0, Landed(s.flights[i].events))] && t.queue == s.queue
  {
    hide Errors, Where, Tally, IdsOf;
  }

  /** A drain whose read and removal both work empties the store and sends what it held,
      behind what is queued; nothing else changes on the way. */
  lemma {:induction false} WholeDrain(s: State, configured: bool, other: bool)
    requires s.drain.Idle? && s.stored.Some? && s.started && configured && s.stored.value != []
    ensures var t := Step(Step(Step(s, DrainReads(true)), DrainRemoves(true)), DrainPushes(configured, other));
      && t == s.(stored := None, queue := [], dropped := 0, flights := t.flights)
      && t.flights == s.flights + [Flight(s.queue + s.stored.value, s.dropped, Sending(0))]
  {
  }

  lemma {:induction false} ReadMerges(s: State, i: nat)
    requires At(s, i) && s.flights[i].phase.Opening?
    ensures var t := Step(s, Reads(i, true)); var prev := s.stored.GetOr([]);
      var all := prev + s.flights[i].events;
      && t.dropped == s.dropped + (if |all| > MAX_PERSISTED then |all| - MAX_PERSISTED else 0)
      && t.flights == s.flights[i := s.flights[i].(phase := Writing(prev))]
      && t.queue == s.queue && t.desk == s.desk && t.stored == s.stored
  {
  }

  lemma {:induction false} WriteEnds(s: State, i: nat)
    requires At(s, i) && s.flights[i].phase.Writing?
    ensures var t := Step(s, Writes(i, true));
      && t.flights == s.flights[i := Flight([], 0, Finished)] && t.dropped == s.dropped && t.queue == s.queue
      && t.desk == s.desk
  {
    hide Newest, Oldest;
  }

  /** And a persist whose read and write both work leaves the store with the last thousand of
      what it held and the batch. */
  lemma {:induction false} WholePersist(s: State, i: nat)
    requires At(s, i) && s.flights[i].phase.Opening?
    ensures var t := Step(Step(s, Reads(i, true)), Writes(i, true));
      var all := s.stored.GetOr([]) + s.flights[i].events;
      var n := if |all| > MAX_PERSISTED then |all| - MAX_PERSISTED else 0;
      && t.stored == Some(all[n..]) && t.dropped == s.dropped + n
      && t.flights == s.flights[i := Flight([], 0, Finished)] && t.queue == s.queue && t.desk == s.desk
  {
    hide Step;
    var read := Step(s, Reads(i, true));
    ReadMerges(s, i);
    WriteKeepsNewest(read, i);
    WriteEnds(read, i);
    assert s.flights[i := read.flights[i]][i := Flight([], 0, Finished)] == s.flights[i := Flight([], 0, Finished)];
  }

  // --------------------------------------------------------------------- bounds

  /** Three attempts at most, and a thousand events offline. */
  predicate Limited(s: State) {
    && (s.stored.Some? ==> |s.stored.value| <= MAX_PERSISTED)
    && forall i | 0 <= i < |s.flights| ::
         s.flights[i].phase.Sending? ==> s.flights[i].phase.failures < MAX_RETRY
  }

  lemma {:induction false} FlightIsLimited(s: State, t: State, i: nat)
    requires Limited(s) && At(s, i) && At(t, i) && t.flights == s.flights[i := t.flights[i]]
    requires t.stored == s.stored || (t.stored.Some? && |t.stored.value| <= MAX_PERSISTED)
    requires t.flights[i].phase.Sending? ==> t.flights[i].phase.failures < MAX_RETRY
    ensures Limited(t)
  {
  }

  lemma {:induction false} StepIsLimited(s: State, x: Input)
    requires Limited(s) && Possible(s, x)
    ensures Limited(Step(s, x))
  {
    hide Booked, Errors, ReleasedAll, Attached, IdsOf, Newest, Oldest, Flushed;
    if OnFlight(x) {
      hide Limited;
      NewestIsShort(s, x);
      FlightIsLimited(s, Step(s, x), x.i);
    } else {
      match x
      case Enqueue(e, configured, other) => FlushIsLimited(Queued(s, e), configured, other);
      case Flush(configured, other) => FlushIsLimited(s, configured, other);
      case DrainPushes(configured, other) =>
        FlushIsLimited(s.(drain := Idle, queue := s.queue + s.drain.raw), configured, other);
      case _ =>
    }
  }

  lemma {:induction false} NewestIsShort(s: State, x: Input)
    requires Possible(s, x) && OnFlight(x)
    ensures var f := s.flights[x.i]; f.phase.Writing? ==> |Merge(f.phase.prev, f.events)| <= MAX_PERSISTED
  {
  }

  lemma {:induction false} FlushIsLimited(s: State, configured: bool, other: bool)
    requires Limited(s)
    ensures Limited(Flushed(s, configured, other))
  {
  }

  /** In every run, overlapping or not, a batch is sent at most three times and the
      offline queue holds at most a thousand events. */
  lemma {:induction false} AttemptsAndStorageAreBounded(run: seq<Input>, k: nat)
    requires Runs.Allowed(INITIAL, run, Step, Possible) && k <= |run|
    ensures Limited(After(run, k))
  {
    forall s: State, i: Input | Limited(s) && Possible(s, i) ensures Limited(Step(s, i)) { StepIsLimited(s, i); }
    Runs.Invariant(INITIAL, run, k, Step, Possible, Limited);
  }

  /** How often sending the `i`-th batch has failed. */
  ghost function Failures(run: seq<Input>, k: nat, i: nat): nat
    requires k <= |run|
  {
    if k == 0 then 0 else Failures(run, k - 1, i) + if run[k - 1] == SendFails(i) then 1 else 0
  }

  /** A batch that is written offline has failed three times, one that is still being
      sent as often as it says, and one that was answered at most twice. */
  predicate Tried(s: State, i: nat, n: nat) {
    if !At(s, i) then n == 0
    else
      match s.flights[i].phase
      case Sending(failures) => n == failures && n < 3
      case Landed(_) => n < 3
      case Opening => n == 3
      case Writing(_) => n == 3
      case Finished => n <= 3
  }

  lemma {:induction false} StepTries(s: State, x: Input, i: nat, n: nat)
    requires Possible(s, x) && Tried(s, i, n)
    ensures Tried(Step(s, x), i, n + if x == SendFails(i) then 1 else 0)
  {
    hide Booked, Errors, ReleasedAll, Attached, IdsOf, Newest, Oldest, Flushed, Tried;
    if OnFlight(x) {
      FlightTries(s, x, i, n);
    } else {
      OtherTries(s, x, i, n);
    }
  }

  lemma {:induction false} FlightTries(s: State, x: Input, i: nat, n: nat)
    requires Possible(s, x) && OnFlight(x) && Tried(s, i, n)
    ensures Tried(Step(s, x), i, n + if x == SendFails(i) then 1 else 0)
  {
    hide Booked, Errors, ReleasedAll, IdsOf, Newest, Oldest;
  }

  lemma {:induction false} OtherTries(s: State, x: Input, i: nat, n: nat)
    requires Possible(s, x) && !OnFlight(x) && Tried(s, i, n)
    ensures Tried(Step(s, x), i, n)
  {
    hide Attached, Newest, Oldest, Flushed;
    match x
    case Enqueue(e, configured, other) => FlushTries(Queued(s, e), configured, other, i, n);
    case Flush(configured, other) => FlushTries(s, configured, other, i, n);
    case DrainPushes(configured, other) =>
      FlushTries(s.(drain := Idle, queue := s.queue + s.drain.raw), configured, other, i, n);
    case _ =>
  }

  lemma {:induction false} FlushTries(s: State, configured: bool, other: bool, i: nat, n: nat)
    requires Tried(s, i, n)
    ensures Tried(Flushed(s, configured, other), i, n)
  {
  }

  /** In every run a batch goes offline after exactly three failures to send it. */
  lemma {:induction false} OfflineAfterThree(run: seq<Input>, k: nat, i: nat)
    requires Runs.Allowed(INITIAL, run, Step, Possible) && k <= |run|
    ensures Tried(After(run, k), i, Failures(run, k, i))
  {
    hide Step, Possible, Tried;
    if k > 0 {
      OfflineAfterThree(run, k - 1, i);
      assert Possible(After(run, k - 1), run[k - 1]);
      StepTries(After(run, k - 1), run[k - 1], i, Failures(run, k - 1, i));
    } else {
      NothingTried(i);
    }
  }

  lemma {:induction false} NothingTried(i: nat)
    ensures Tried(INITIAL, i, 0)
  {
  }

  // ----------------------------------------------------- a run that does overlap

  const FIRST := Event("a", 1)
  const SECOND := Event("b", 2)

  function Launching(e: Event, i: nat): seq<Input> {
    [Enqueue(e, true, false), Flush(true, false), SendFails(i), SendFails(i), SendFails(i)]
  }

  /** One more event, taken in and out of attempts. */
  function OutOfAttempts(s: State, e: Event): State {
    s.(flights := s.flights + [Flight([e], 0, Opening)], ledger := s.ledger.(taken := s.ledger.taken + multiset{e}))
  }

  /** What happened in a stretch of the run was possible, and with parties apart. */
  ghost predicate Smooth(run: seq<Input>, j: nat, k: nat)
    requires j <= k <= |run|
  {
    Runs.Within(INITIAL, run, j, k, Step, Possible)
  }

  ghost predicate Calm(run: seq<Input>, j: nat, k: nat)
    requires j <= k <= |run|
  {
    Runs.Within(INITIAL, run, j, k, Step, CanHappen)
  }

  lemma {:induction false} CalmIsSmooth(run: seq<Input>, j: nat, k: nat)
    requires j <= k <= |run| && Calm(run, j, k)
    ensures Smooth(run, j, k)
  {
    hide Step, Possible, Apart;
    Runs.Laxer(INITIAL, run, j, k, Step, CanHappen, Possible);
  }

  lemma {:induction false} CalmJoins(run: seq<Input>, j: nat, k: nat)
    requires j <= k <= |run| && Calm(run, 0, j) && Calm(run, j, k)
    ensures Calm(run, 0, k)
  {
    hide Step, CanHappen;
  }

  function Aboard(s: State, e: Event, failures: nat): State {
    s.(flights := s.flights + [Flight([e], 0, Sending(failures))],
       ledger := s.ledger.(taken := s.ledger.taken + multiset{e}))
  }

  lemma {:induction false} Boards(s: State, e: Event)
    requires s.started && s.queue == [] && s.dropped == 0
    ensures Step(Step(s, Enqueue(e, true, false)), Flush(true, false)) == Aboard(s, e, 0)
  {
    assert [] + [e] == [e] && s.ledger.lost + multiset([]) == s.ledger.lost;
    assert Step(s, Enqueue(e, true, false)) ==
        s.(queue := [e], ledger := s.ledger.(taken := s.ledger.taken + multiset{e}));
  }

  lemma {:induction false} Retries(s: State, e: Event, f: nat)
    requires f < MAX_RETRY
    ensures CanHappen(Aboard(s, e, f), SendFails(|s.flights|))
    ensures Step(Aboard(s, e, f), SendFails(|s.flights|)) ==
            if f + 1 < MAX_RETRY then Aboard(s, e, f + 1) else OutOfAttempts(s, e)
  {
  }

  lemma {:induction false} LaunchingRuns(s: State, e: Event, i: nat, run: seq<Input>, k: nat)
    requires s.started && s.queue == [] && s.dropped == 0 && |s.flights| == i
    requires k + 5 <= |run| && run[k..k + 5] == Launching(e, i) && After(run, k) == s
    ensures After(run, k + 5) == OutOfAttempts(s, e)
    ensures Calm(run, k, k + 5)
  {
    Boards(s, e);
    Retries(s, e, 0);
    Retries(s, e, 1);
    Retries(s, e, 2);
    assert forall j | k <= j < k + 5 :: run[j] == Launching(e, i)[j - k] by {
      assert forall j | k <= j < k + 5 :: run[j] == run[k..k + 5][j - k];
    }
    var s1 := Step(s, run[k]);
    assert CanHappen(s, run[k]) && CanHappen(s1, run[k + 1]);
    hide Step, CanHappen, Aboard, OutOfAttempts;
    assert After(run, k + 1) == s1 && After(run, k + 2) == Aboard(s, e, 0) && After(run, k + 3) == Aboard(s, e, 1)
        && After(run, k + 4) == Aboard(s, e, 2) && After(run, k + 5) == OutOfAttempts(s, e);
  }

  lemma {:induction false} OverlappingRuns(s: State, run: seq<Input>, k: nat)
    requires k + 4 <= |run| && After(run, k) == s && run[k] == Reads(0, true) && run[k + 1] == Reads(1, true)
    requires run[k + 2] == Writes(0, true) && run[k + 3] == Writes(1, true)
    requires s.flights == [Flight([FIRST], 0, Opening), Flight([SECOND], 0, Opening)]
    requires s.stored == None && s.drain.Idle?
    ensures var t := After(run, k + 4);
      && t.stored == Some([SECOND]) && t.queue == s.queue && t.drain == s.drain
      && t.ledger == s.ledger.(forfeited := t.ledger.forfeited)
      && t.flights == [Flight([], 0, Finished), Flight([], 0, Finished)]
    ensures Smooth(run, k, k + 4)
  {
    OverlapLosesUncounted(s, 0, 1);
    hide Step, Possible, Runs.At, Runs.Within;
    var s1 := Step(s, Reads(0, true));
    var s2 := Step(s1, Reads(1, true));
    var s3 := Step(s2, Writes(0, true));
    var s4 := Step(s3, Writes(1, true));
    Runs.Four(INITIAL, run, k, Step, Possible, s1, s2, s3, s4);
  }

  lemma {:induction false} OverlappingRun() returns (run: seq<Input>, k: nat)
    ensures k == 1 && k + 14 == |run| && run[0] == Start
    ensures run[k..k + 5] == Launching(FIRST, 0) && run[k + 5..k + 10] == Launching(SECOND, 1)
    ensures run[k + 10] == Reads(0, true) && run[k + 11] == Reads(1, true)
      && run[k + 12] == Writes(0, true) && run[k + 13] == Writes(1, true)
  {
    run := [Start] + Launching(FIRST, 0) + Launching(SECOND, 1) + [Reads(0, true), Reads(1, true), Writes(0, true),
                                                                   Writes(1, true)];
    k := 1;
  }

  lemma {:induction false} BothLaunched(run: seq<Input>, k: nat) returns (s: State)
    requires k + 10 <= |run| && After(run, k) == INITIAL.(started := true)
    requires run[k..k + 5] == Launching(FIRST, 0) && run[k + 5..k + 10] == Launching(SECOND, 1)
    ensures s == After(run, k + 10)
    ensures Smooth(run, k, k + 10)
    ensures s == INITIAL.(started := true,
                          flights := [Flight([FIRST], 0, Opening), Flight([SECOND], 0, Opening)],
                          ledger := EMPTY_LEDGER.(taken := multiset{FIRST, SECOND}))
  {
    LaunchingRuns(After(run, k), FIRST, 0, run, k);
    s := After(run, k + 5);
    LaunchingRuns(s, SECOND, 1, run, k + 5);
    s := After(run, k + 10);
    CalmIsSmooth(run, k, k + 5);
    CalmIsSmooth(run, k + 5, k + 10);
  }

  lemma {:induction false} Overlapped(run: seq<Input>, k: nat) returns (s: State)
    requires k + 14 <= |run| && After(run, k) == INITIAL.(started := true)
    requires run[k..k + 5] == Launching(FIRST, 0) && run[k + 5..k + 10] == Launching(SECOND, 1)
    requires run[k + 10] == Reads(0, true) && run[k + 11] == Reads(1, true)
      && run[k + 12] == Writes(0, true) && run[k + 13] == Writes(1, true)
    ensures s == After(run, k + 14) && Smooth(run, k, k + 10) && Smooth(run, k + 10, k + 14)
    ensures s.stored == Some([SECOND]) && s.queue == [] && s.drain == Idle
    ensures s.flights == [Flight([], 0, Finished), Flight([], 0, Finished)]
    ensures s.ledger == EMPTY_LEDGER.(taken := multiset{FIRST, SECOND}, forfeited := s.ledger.forfeited)
  {
    s := BothLaunched(run, k);
    OverlappingRuns(s, run, k + 10);
    s := After(run, k + 14);
  }

  lemma {:induction false} Started(run: seq<Input>, k: nat)
    requires k == 1 <= |run| && run[0] == Start
    ensures After(run, k) == INITIAL.(started := true) && Smooth(run, 0, k) && Calm(run, 0, k)
  {
    assert After(run, 0) == INITIAL;
  }

  lemma {:induction false} Begun() returns (run: seq<Input>, k: nat)
    ensures k + 14 == |run| && After(run, k) == INITIAL.(started := true) && Smooth(run, 0, k)
    ensures run[k..k + 5] == Launching(FIRST, 0) && run[k + 5..k + 10] == Launching(SECOND, 1)
    ensures run[k + 10] == Reads(0, true) && run[k + 11] == Reads(1, true)
      && run[k + 12] == Writes(0, true) && run[k + 13] == Writes(1, true)
  {
    run, k := OverlappingRun();
    Started(run, k);
  }

  lemma {:induction false} NoneAloft(flights: seq<Flight>, x: Event)
    requires forall f | f in flights :: f.events == []
    ensures Aloft(flights, x) == 0
  {
    if flights != [] { NoneAloft(flights[..|flights| - 1], x); }
  }

  lemma {:induction false} Overlapping() returns (run: seq<Input>, k: nat, s: State)
    ensures k + 14 == |run| && s == After(run, |run|)
    ensures Smooth(run, 0, k) && Smooth(run, k, k + 10) && Smooth(run, k + 10, |run|)
    ensures s.stored == Some([SECOND]) && s.queue == [] && s.drain == Idle
    ensures s.flights == [Flight([], 0, Finished), Flight([], 0, Finished)]
    ensures s.ledger == EMPTY_LEDGER.(taken := multiset{FIRST, SECOND}, forfeited := s.ledger.forfeited)
  {
    run, k := Begun();
    s := Overlapped(run, k);
  }

  /** And such runs exist: two failed batches, two persists that read first and write
      later, and an event that is nowhere and in no count. */
  lemma {:induction false} UncountedLossHappens() returns (run: seq<Input>, s: State)
    ensures Runs.Allowed(INITIAL, run, Step, Possible) && s == After(run, |run|)
    ensures s.ledger.taken[FIRST] == 1 && s.queue == [] && Store(s) == [SECOND] && Carried(s) == []
        && Aloft(s.flights, FIRST) == 0
    ensures s.ledger.delivered == multiset{} && s.ledger.discarded == multiset{} && s.ledger.lost == multiset{}
    ensures s.ledger.counted == 0
  {
    var k;
    run, k, s := Overlapping();
    Runs.Joined(INITIAL, run, k, k + 10, Step, Possible);
    NoneAloft(s.flights, FIRST);
  }

  // ---------------------------------------------------- a batch refused as a whole

  function Repeat<T>(x: T, n: nat): (r: seq<T>)
    ensures |r| == n && forall j | 0 <= j < n :: r[j] == x
  {
    seq(n, _ => x)
  }

  /** That many events queued, before the transport has started. */
  function Hoard(n: nat): State {
    INITIAL.(queue := Repeat(FIRST, n), ledger := EMPTY_LEDGER.(taken := multiset(Repeat(FIRST, n))))
  }

  lemma {:induction false} Hoards(n: nat)
    requires n < MAX_QUEUED
    ensures Step(Hoard(n), Enqueue(FIRST, true, false)) == Hoard(n + 1)
    ensures CanHappenKept(Hoard(n), Enqueue(FIRST, true, false))
  {
    assert Repeat(FIRST, n + 1) == Repeat(FIRST, n) + [FIRST];
    assert EMPTY_LEDGER.lost + multiset([]) == EMPTY_LEDGER.lost;
  }

  lemma {:induction false} Hoarded(run: seq<Input>, n: nat)
    requires n <= MAX_QUEUED && n <= |run| && forall j | 0 <= j < n :: run[j] == Enqueue(FIRST, true, false)
    ensures After(run, n) == Hoard(n)
    ensures Runs.Within(INITIAL, run, 0, n, Step, CanHappenKept)
  {
    hide Step, Hoard, INITIAL, Possible, Apart, HostKeeps;
    if n == 0 {
      NothingHoarded();
    } else {
      Hoarded(run, n - 1);
      Hoards(n - 1);
      hide Runs.At, Runs.Within, CanHappenKept;
      Runs.Longer(INITIAL, run, n - 1, Step, CanHappenKept);
    }
  }

  lemma {:induction false} NothingHoarded()
    ensures Hoard(0) == INITIAL
  {
    assert Repeat(FIRST, 0) == [];
  }

  function Refused(n: nat): Input {
    Answer(0, Repeat(SILENTLY_DROPPED, n), 0, false)
  }

  lemma {:induction false} RefusedAt(s: State, n: nat) returns (t: State)
    requires n > 0 && s == Hoard(n)
    ensures CanHappenKept(s, Start)
    ensures
      var s1 := Step(s, Start);
      var s2 := Step(s1, Flush(true, false));
      var s3 := Step(s2, Refused(n));
      && CanHappenKept(s1, Flush(true, false)) && CanHappenKept(s2, Refused(n)) && CanHappenKept(s3, Resume(0))
      && t == Step(s3, Resume(0))
    ensures t.queue == [] && t.stored == None && t.drain == Idle && t.flights == [Flight([], 0, Finished)]
    ensures t.ledger == EMPTY_LEDGER.(taken := multiset(s.queue), discarded := multiset(s.queue), unsaid := n)
  {
    hide Where, Tally, Errors, IdsOf, Newest, Oldest, ReleasedAll;
    var s1 := Step(s, Start);
    var s2 := Step(s1, Flush(true, false));
    assert s2.flights == [Flight(s.queue, 0, Sending(0))];
    WholesaleDiscards(s2, Refused(n));
    var s3 := Step(s2, Refused(n));
    assert s3.flights == [Flight([], 0, Landed(s.queue))];
    t := Step(s3, Resume(0));
  }

  lemma {:induction false} RefusedRun(n: nat) returns (run: seq<Input>)
    ensures |run| == n + 4 && forall j | 0 <= j < n :: run[j] == Enqueue(FIRST, true, false)
    ensures run[n] == Start && run[n + 1] == Flush(true, false) && run[n + 2] == Refused(n) && run[n + 3] == Resume(0)
  {
    run := Repeat(Enqueue(FIRST, true, false), n) + [Start, Flush(true, false), Refused(n), Resume(0)];
  }

  /** However many events are taken in, a run in which nothing overlaps and the host keeps
      what it says, whose one batch is answered with a 4xx: in the end they are nowhere, and
      no count says so. */
  lemma {:induction false} RefusedBatchLoses(n: nat) returns (run: seq<Input>, s: State)
    requires 0 < n <= MAX_QUEUED
    ensures Runs.Allowed(INITIAL, run, Step, CanHappenKept) && s == After(run, |run|)
    ensures s.ledger.taken[FIRST] == n && s.ledger.discarded[FIRST] == n && s.ledger.unsaid == n
    ensures s.queue == [] && Store(s) == [] && Carried(s) == [] && Aloft(s.flights, FIRST) == 0
    ensures s.ledger.delivered == multiset{} && s.ledger.lost == multiset{} && s.ledger.counted == 0
  {
    hide Step, INITIAL, CanHappenKept, Runs.At, Runs.Within, Runs.Allowed, Repeat, Refused;
    run := RefusedRun(n);
    Hoarded(run, n);
    var s0 := Hoard(n);
    s := RefusedAt(s0, n);
    RefusedEnds(run, n, s0, s);
    RepeatCounts(FIRST, n);
    NoneAloft(s.flights, FIRST);
  }

  lemma {:induction false} RefusedEnds(run: seq<Input>, n: nat, s: State, t: State)
    requires |run| == n + 4 && s == After(run, n) && Runs.Within(INITIAL, run, 0, n, Step, CanHappenKept)
    requires
      var s1 := Step(s, run[n]);
      var s2 := Step(s1, run[n + 1]);
      var s3 := Step(s2, run[n + 2]);
      && CanHappenKept(s, run[n]) && CanHappenKept(s1, run[n + 1]) && CanHappenKept(s2, run[n + 2])
      && CanHappenKept(s3, run[n + 3]) && t == Step(s3, run[n + 3])
    ensures t == After(run, |run|) && Runs.Allowed(INITIAL, run, Step, CanHappenKept)
  {
    hide Step, CanHappenKept, Runs.At, Runs.Within, Runs.Allowed, INITIAL;
    var s1 := Step(s, run[n]);
    var s2 := Step(s1, run[n + 1]);
    var s3 := Step(s2, run[n + 2]);
    Runs.Four(INITIAL, run, n, Step, CanHappenKept, s1, s2, s3, t);
    Runs.Joined(INITIAL, run, n, n, Step, CanHappenKept);
  }

  lemma {:induction false} RepeatCounts(e: Event, n: nat)
    ensures multiset(Repeat(e, n))[e] == n
  {
    if n > 0 {
      RepeatCounts(e, n - 1);
      assert Repeat(e, n) == Repeat(e, n - 1) + [e];
    }
  }

  // ------------------------------------------------- hosts that do not keep what they say

  lemma {:induction false} PersistingRuns(s: State, i: nat, found: bool, took: bool, run: seq<Input>, k: nat)
    returns (t: State)
    requires k + 2 <= |run| && run[k] == Reads(i, found) && run[k + 1] == Writes(i, took) && After(run, k) == s
    requires At(s, i) && s.flights[i].phase.Opening? && NoWriter(s) && s.drain.Idle?
    requires |Store(s)| + |s.flights[i].events| <= MAX_PERSISTED
    ensures t == After(run, k + 2) && Calm(run, k, k + 2)
    ensures t == Ended(s, i).(stored := if took then Some((if found then Store(s) else []) + s.flights[i].events)
        else s.stored)
  {
    var s1 := Step(s, Reads(i, found));
    SmallPersist(s, i, found, took);
    SmallPersist(s1, i, found, took);
    t := Step(s1, Writes(i, took));
    hide Step, Runs.At, Runs.Within;
    Runs.Two(INITIAL, run, k, Step, CanHappen, s1, t);
  }

  lemma {:induction false} WholeRun(run: seq<Input>)
    requires Calm(run, 0, |run|)
    ensures Runs.Allowed(INITIAL, run, Step, CanHappen)
  {
    hide Step, CanHappen;
  }

  lemma {:induction false} SilentRun() returns (run: seq<Input>, k: nat)
    ensures k == 1 && k + 7 == |run| && run[0] == Start && run[k..k + 5] == Launching(FIRST, 0)
    ensures run[k + 5] == Reads(0, true) && run[k + 6] == Writes(0, false)
  {
    run := [Start] + Launching(FIRST, 0) + [Reads(0, true), Writes(0, false)];
    k := 1;
  }

  lemma {:induction false} SilentRunEnds(run: seq<Input>, k: nat) returns (s: State)
    requires k == 1 && k + 7 == |run| && run[0] == Start && run[k..k + 5] == Launching(FIRST, 0)
    requires run[k + 5] == Reads(0, true) && run[k + 6] == Writes(0, false)
    ensures Calm(run, 0, |run|) && s == After(run, |run|)
    ensures s.ledger == EMPTY_LEDGER.(taken := multiset{FIRST}) && s.queue == [] && s.stored == None && s.drain == Idle
    ensures s.flights == [Flight([], 0, Finished)]
  {
    Started(run, k);
    s := After(run, k);
    LaunchingRuns(s, FIRST, 0, run, k);
    var s1 := OutOfAttempts(s, FIRST);
    s := PersistingRuns(s1, 0, true, false, run, k + 5);
    CalmJoins(run, k, k + 5);
    CalmJoins(run, k + 5, k + 7);
  }

  /** A write that resolves without storing, as the browser's does over its quota and the
      mini program's does over 256 KiB: nobody overlaps, the event is nowhere, and no count
      says so. */
  lemma {:induction false} SilentWriteLoses() returns (run: seq<Input>, s: State)
    ensures Runs.Allowed(INITIAL, run, Step, CanHappen) && s == After(run, |run|)
    ensures s.ledger.taken[FIRST] == 1 && Gap(s, FIRST) == -1
    ensures s.queue == [] && Store(s) == [] && Carried(s) == [] && Aloft(s.flights, FIRST) == 0
    ensures s.ledger.delivered == multiset{} && s.ledger.discarded == multiset{} && s.ledger.lost == multiset{}
    ensures s.ledger.counted == 0
  {
    var k;
    run, k := SilentRun();
    s := SilentRunEnds(run, k);
    WholeRun(run);
    NoneAloft(s.flights, FIRST);
  }

  lemma {:induction false} RejectingRun() returns (run: seq<Input>, k: nat)
    ensures k == 1 && k + 6 == |run| && run[0] == Start && run[k..k + 5] == Launching(FIRST, 0)
    ensures run[k + 5] == StorageRejects(0)
  {
    run := [Start] + Launching(FIRST, 0) + [StorageRejects(0)];
    k := 1;
  }

  /** The promise of `storage()` rejects: the batch was sent and given up, and ends
      uncounted. */
  lemma {:induction false} RejectingStorageLoses() returns (run: seq<Input>, s: State)
    ensures Runs.Allowed(INITIAL, run, Step, CanHappen) && s == After(run, |run|)
    ensures s.ledger.taken[FIRST] == 1 && Gap(s, FIRST) == -1
    ensures s.queue == [] && Store(s) == [] && Carried(s) == [] && Aloft(s.flights, FIRST) == 0
    ensures s.ledger == EMPTY_LEDGER.(taken := multiset{FIRST})
  {
    var k;
    run, k := RejectingRun();
    Started(run, k);
    s := After(run, k);
    LaunchingRuns(s, FIRST, 0, run, k);
    var s1 := OutOfAttempts(s, FIRST);
    assert CanHappen(s1, StorageRejects(0));
    s := Step(s1, StorageRejects(0));
    CalmJoins(run, k, k + 5);
    assert Calm(run, k + 5, k + 6);
    CalmJoins(run, k + 5, k + 6);
    WholeRun(run);
    NoneAloft(s.flights, FIRST);
  }

  lemma {:induction false} BlindRun() returns (run: seq<Input>, k: nat)
    ensures k == 1 && k + 14 == |run| && run[0] == Start
    ensures run[k..k + 5] == Launching(FIRST, 0) && run[k + 5] == Reads(0, true) && run[k + 6] == Writes(0, true)
    ensures run[k + 7..k + 12] == Launching(SECOND, 1) && run[k + 12] == Reads(1, false)
        && run[k + 13] == Writes(1, true)
  {
    run := [Start] + Launching(FIRST, 0) + [Reads(0, true), Writes(0, true)]
         + Launching(SECOND, 1) + [Reads(1, false), Writes(1, true)];
    k := 1;
  }

  lemma {:induction false} FirstIsStored(run: seq<Input>, k: nat) returns (s: State)
    requires k == 1 && k + 7 <= |run| && run[0] == Start && run[k..k + 5] == Launching(FIRST, 0)
    requires run[k + 5] == Reads(0, true) && run[k + 6] == Writes(0, true)
    ensures Calm(run, 0, k + 7) && s == After(run, k + 7)
    ensures s == INITIAL.(started := true, flights := [Flight([], 0, Finished)], stored := Some([FIRST]),
                          ledger := s.ledger)
    ensures s.ledger == EMPTY_LEDGER.(taken := multiset{FIRST})
  {
    Started(run, k);
    s := After(run, k);
    LaunchingRuns(s, FIRST, 0, run, k);
    var s1 := OutOfAttempts(s, FIRST);
    s := PersistingRuns(s1, 0, true, true, run, k + 5);
    assert [] + [FIRST] == [FIRST] && s1.flights[0 := Flight([], 0, Finished)] == [Flight([], 0, Finished)];
    CalmJoins(run, k, k + 5);
    CalmJoins(run, k + 5, k + 7);
  }

  lemma {:induction false} SharedRun() returns (run: seq<Input>, k: nat)
    ensures k == 1 && k + 8 == |run| && run[0] == Start && run[k..k + 5] == Launching(FIRST, 0)
    ensures run[k + 5] == Reads(0, true) && run[k + 6] == Writes(0, true) && run[k + 7] == Elsewhere(Some([SECOND]))
  {
    run := [Start] + Launching(FIRST, 0) + [Reads(0, true), Writes(0, true), Elsewhere(Some([SECOND]))];
    k := 1;
  }

  /** Another page of the origin writes what it had read before, and its own batch: what this
      transport had stored is gone. */
  lemma {:induction false} SharedStoreLoses() returns (run: seq<Input>, s: State)
    ensures Runs.Allowed(INITIAL, run, Step, CanHappen) && s == After(run, |run|)
    ensures s.ledger.taken[FIRST] == 1 && Gap(s, FIRST) == -1
    ensures s.queue == [] && Store(s) == [SECOND] && Carried(s) == [] && Aloft(s.flights, FIRST) == 0
    ensures s.ledger == EMPTY_LEDGER.(taken := multiset{FIRST})
  {
    var k;
    run, k := SharedRun();
    s := FirstIsStored(run, k);
    assert CanHappen(s, Elsewhere(Some([SECOND])));
    s := Step(s, Elsewhere(Some([SECOND])));
    assert Calm(run, k + 7, k + 8);
    CalmJoins(run, k + 7, k + 8);
    WholeRun(run);
    NoneAloft(s.flights, FIRST);
  }

  lemma {:induction false} BlindRunEnds(run: seq<Input>, k: nat) returns (s: State)
    requires k == 1 && k + 14 == |run| && run[0] == Start
    requires run[k..k + 5] == Launching(FIRST, 0) && run[k + 5] == Reads(0, true) && run[k + 6] == Writes(0, true)
    requires run[k + 7..k + 12] == Launching(SECOND, 1) && run[k + 12] == Reads(1, false)
        && run[k + 13] == Writes(1, true)
    ensures Calm(run, 0, |run|) && s == After(run, |run|)
    ensures s.ledger == EMPTY_LEDGER.(taken := multiset{FIRST, SECOND}) && s.queue == [] && s.drain == Idle
    ensures s.stored == Some([SECOND]) && s.flights == [Flight([], 0, Finished), Flight([], 0, Finished)]
  {
    s := FirstIsStored(run, k);
    LaunchingRuns(s, SECOND, 1, run, k + 7);
    var s1 := OutOfAttempts(s, SECOND);
    s := PersistingRuns(s1, 1, false, true, run, k + 12);
    assert [] + [SECOND] == [SECOND];
    assert s1.flights[1 := Flight([], 0, Finished)] == [Flight([], 0, Finished), Flight([], 0, Finished)];
    CalmJoins(run, k + 7, k + 12);
    CalmJoins(run, k + 12, k + 14);
  }

  /** A read that answers nothing over a store that holds something, as both hosts' do
      when the platform throws: the next good write replaces what was there, uncounted. */
  lemma {:induction false} BlindReadLoses() returns (run: seq<Input>, s: State)
    ensures Runs.Allowed(INITIAL, run, Step, CanHappen) && s == After(run, |run|)
    ensures s.ledger.taken[FIRST] == 1 && Gap(s, FIRST) == -1
    ensures s.queue == [] && Store(s) == [SECOND] && Carried(s) == [] && Aloft(s.flights, FIRST) == 0
    ensures s.ledger.delivered == multiset{} && s.ledger.discarded == multiset{} && s.ledger.lost == multiset{}
    ensures s.ledger.counted == 0
  {
    var k;
    run, k := BlindRun();
    s := BlindRunEnds(run, k);
    WholeRun(run);
    NoneAloft(s.flights, FIRST);
  }
}
