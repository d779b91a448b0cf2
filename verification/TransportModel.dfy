/** `sdk/core/src/transport.ts` between its awaits: every stretch of code that runs without
    yielding is one step, and any number of flushes can be waiting. What the server keeps of
    a batch and what it says of it, what the storage does and what it answers, and what other
    pages do to the storage they share, is input. */
module TransportModel {
  import opened Prelude
  import Runs

  const BATCH_SIZE: nat := 10
  const MAX_RETRY: nat := 3
  const MAX_PERSISTED: nat := 1000
  const MAX_QUEUED: nat := 500

  /** A queued event; the empty id is an event without one. */
  datatype Event = Event(id: string, body: int)

  /** Where a flush is suspended. */
  datatype Phase =
    | Sending(failures: nat)            // waiting for a response, or between attempts
    | Landed(batch: seq<Event>)         // answered, about to release attachments
    | Opening                           // out of attempts, about to read the offline queue
    | Writing(prev: seq<Event>)         // has read `prev`, is writing it and the batch back
    | Finished

  /** One call of `flush` past its first await: the batch it answers for, and the
      loss count the batch carries. */
  datatype Flight = Flight(events: seq<Event>, lost: nat, phase: Phase)

  /** Where `drainOfflineQueue` is suspended, with what it read. */
  datatype Drain = Idle | Read(raw: seq<Event>) | Removed(raw: seq<Event>)

  /** Queued attachments, numbered in the order they came: `owners[n]` is the event
      the n-th belongs to. */
  datatype Desk = Desk(
    owners: seq<string>,
    pending: map<string, seq<nat>>,
    released: seq<nat>,
    answeredIds: set<string>)

  /** What became of every event and every loss count. Nothing reads it: it exists to
      state where things went. Of the events answered for, the server kept `delivered` and
      did not keep `discarded`. An event enters `lost` only where the code counts it;
      `counted` is all that was ever counted, `refused` the part of it that stands for
      outcomes with an error, and `excess` the part that turned out to stand for nothing.
      `unsaid` is how many events were discarded without an error, `spare` how many errors
      stood for no discarded event. */
  datatype Ledger = Ledger(
    taken: multiset<Event>,
    delivered: multiset<Event>,
    discarded: multiset<Event>,
    lost: multiset<Event>,
    counted: nat,
    refused: nat,
    excess: nat,
    unsaid: nat,
    spare: nat,
    reported: nat,
    forfeited: nat)

  datatype State = State(
    queue: seq<Event>,
    dropped: nat,
    started: bool,
    flights: seq<Flight>,
    stored: Option<seq<Event>>,
    drain: Drain,
    desk: Desk,
    ledger: Ledger)

  const EMPTY_LEDGER := Ledger(multiset{}, multiset{}, multiset{}, multiset{}, 0, 0, 0, 0, 0, 0, 0)
  const INITIAL := State([], 0, false, [], None, Idle, Desk([], map[], [], {}), EMPTY_LEDGER)

  // ------------------------------------------------------------------- pieces

  /** The last `n` elements, and what comes before them. */
  function Newest<T>(s: seq<T>, n: nat): seq<T> {
    if |s| > n then s[|s| - n..] else s
  }

  function Oldest<T>(s: seq<T>, n: nat): seq<T> {
    if |s| > n then s[..|s| - n] else []
  }

  function Count(s: State, n: nat): State {
    s.(dropped := s.dropped + n, ledger := s.ledger.(counted := s.ledger.counted + n))
  }

  function Lose(s: State, events: seq<Event>): State {
    s.(ledger := s.ledger.(lost := s.ledger.lost + multiset(events)))
  }

  /** `flush` up to its first await. */
  function Flushed(s: State, configured: bool, other: bool): State {
    if !s.started || !configured || (s.queue == [] && !other) then s
    else s.(queue := [], dropped := 0, flights := s.flights + [Flight(s.queue, s.dropped, Sending(0))])
  }

  /** `enqueue` up to its own call of `flush`. */
  function Queued(s: State, e: Event): State {
    var all := s.queue + [e];
    s.(
      queue := Newest(all, MAX_QUEUED),
      dropped := s.dropped + |Oldest(all, MAX_QUEUED)|,
      ledger := s.ledger.(
        taken := s.ledger.taken + multiset{e},
        lost := s.ledger.lost + multiset(Oldest(all, MAX_QUEUED)),
        counted := s.ledger.counted + |Oldest(all, MAX_QUEUED)|))
  }

  function Enqueued(s: State, e: Event, configured: bool, other: bool): State {
    var s1 := Queued(s, e);
    if |s1.queue| >= BATCH_SIZE then Flushed(s1, configured, other) else s1
  }

  function WithFlight(s: State, i: nat, f: Flight): State
    requires i < |s.flights|
  {
    s.(flights := s.flights[i := f])
  }

  /** The flight answers for nothing any more; the count it carried went down with it. */
  function Ended(s: State, i: nat): State
    requires i < |s.flights|
  {
    WithFlight(s, i, Flight([], 0, Finished)).(
      ledger := s.ledger.(forfeited := s.ledger.forfeited + s.flights[i].lost))
  }

  function IdsOf(events: seq<Event>): set<string> {
    set e | e in events :: e.id
  }

  /** What an answer means for one event: whether the server kept it, and whether its
      outcome carries an error. An answer without outcomes (a status of 4xx, or a body that
      does not parse) carries none. */
  datatype Fate = Fate(kept: bool, error: bool)

  const SILENTLY_DROPPED := Fate(false, false)

  /** The events the server kept, or did not. */
  function Where(events: seq<Event>, fates: seq<Fate>, kept: bool): multiset<Event>
    requires |events| == |fates|
  {
    if events == [] then multiset{}
    else
      var n := |events| - 1;
      Where(events[..n], fates[..n], kept) + if fates[n].kept == kept then multiset{events[n]} else multiset{}
  }

  function Tally(fates: seq<Fate>, fate: Fate): nat {
    if fates == [] then 0
    else Tally(fates[..|fates| - 1], fate) + if fates[|fates| - 1] == fate then 1 else 0
  }

  /** The outcomes with an error; `extra` ones stand for no event of the batch. */
  function Errors(fates: seq<Fate>, extra: nat): nat {
    Tally(fates, Fate(true, true)) + Tally(fates, Fate(false, true)) + extra
  }

  /** Where the events of an answered batch went, and the loss count of its envelope, which
      was `heard` or not. */
  function Booked(l: Ledger, f: Flight, fates: seq<Fate>, extra: nat, heard: bool): Ledger
    requires |fates| == |f.events|
  {
    l.(delivered := l.delivered + Where(f.events, fates, true),
       discarded := l.discarded + Where(f.events, fates, false),
       refused := l.refused + Errors(fates, extra),
       unsaid := l.unsaid + Tally(fates, SILENTLY_DROPPED),
       spare := l.spare + Tally(fates, Fate(true, true)) + extra,
       reported := l.reported + if heard then f.lost else 0,
       forfeited := l.forfeited + if heard then 0 else f.lost)
  }

  /** A response that is neither 429 nor 5xx: whatever it says, the batch is done. */
  function Answered(s: State, i: nat, fates: seq<Fate>, extra: nat, heard: bool): State
    requires i < |s.flights| && |fates| == |s.flights[i].events|
  {
    var f, counted := s.flights[i], Count(s, Errors(fates, extra));
    WithFlight(counted, i, Flight([], 0, Landed(f.events))).(
      desk := s.desk.(answeredIds := s.desk.answeredIds + IdsOf(f.events)),
      ledger := Booked(counted.ledger, f, fates, extra, heard))
  }

  /** `sendQueuedAttachments`: hand over the list and forget it. */
  function Released(d: Desk, id: string): Desk {
    if id in d.pending then d.(pending := d.pending - {id}, released := d.released + d.pending[id]) else d
  }

  /** The loop over a landed batch; events without an id are skipped. */
  function ReleasedAll(d: Desk, batch: seq<Event>): Desk
    decreases |batch|
  {
    if batch == [] then d
    else
      var init := ReleasedAll(d, batch[..|batch| - 1]);
      var id := batch[|batch| - 1].id;
      if id != "" then Released(init, id) else init
  }

  function Attached(d: Desk, id: string): Desk {
    var list := if id in d.pending then d.pending[id] else [];
    d.(owners := d.owners + [id], pending := d.pending[id := list + [|d.owners|]])
  }

  function SendFailed(s: State, i: nat, failures: nat): State
    requires i < |s.flights|
  {
    if failures + 1 < MAX_RETRY then WithFlight(s, i, s.flights[i].(phase := Sending(failures + 1)))
    else if s.flights[i].events == [] then Ended(s, i)
    else WithFlight(s, i, s.flights[i].(phase := Opening))
  }

  /** What a persist writes, and what it trims, having read `prev`. */
  function Merge(prev: seq<Event>, events: seq<Event>): seq<Event> {
    Newest(prev + events, MAX_PERSISTED)
  }

  function Cut(prev: seq<Event>, events: seq<Event>): seq<Event> {
    Oldest(prev + events, MAX_PERSISTED)
  }

  function Store(s: State): seq<Event> {
    s.stored.GetOr([])
  }

  /** The offline queue has been read: what the merge trims is counted before writing.
      A read that finds nothing is no different from an empty store. */
  function Merged(s: State, i: nat, found: bool): State
    requires i < |s.flights|
  {
    var prev := if found then Store(s) else [];
    WithFlight(Count(s, |Cut(prev, s.flights[i].events)|), i, s.flights[i].(phase := Writing(prev)))
  }

  /** The write takes effect: the store holds what was read and the batch, whatever it
      held until then. */
  function Kept(s: State, i: nat): State
    requires i < |s.flights| && s.flights[i].phase.Writing?
  {
    var f := s.flights[i];
    Lose(s, Cut(f.phase.prev, f.events)).(stored := Some(Merge(f.phase.prev, f.events)))
  }

  function Overcount(s: State, n: nat): State {
    s.(ledger := s.ledger.(excess := s.ledger.excess + n))
  }

  /** The write resolves, having taken effect or not: nobody is told which. */
  function Written(s: State, i: nat, took: bool): State
    requires i < |s.flights| && s.flights[i].phase.Writing?
  {
    var f := s.flights[i];
    Ended(if took then Kept(s, i) else Overcount(s, |Cut(f.phase.prev, f.events)|), i)
  }

  /** `persist` without storage, or in its catch: the batch is counted, even where a
      write that rejects took effect. */
  function Abandoned(s: State, i: nat, took: bool): State
    requires i < |s.flights| && (took ==> s.flights[i].phase.Writing?)
  {
    var f := s.flights[i];
    var counted := Count(s, |f.events|);
    Ended(if took then Overcount(Kept(counted, i), |f.events|)
          else if f.phase.Writing? then Overcount(Lose(counted, f.events), |Cut(f.phase.prev, f.events)|)
          else Lose(counted, f.events), i)
  }

  // -------------------------------------------------------------------- steps

  /** What the application does, and what the network and the storage answer. A read
      says whether it `found` what the store holds, or answers nothing; a write and a
      removal, resolving or rejecting, say whether they `took` effect. `StorageRejects` is
      `host.storage()` rejecting, and `Elsewhere` another page of the origin changing the
      store. */
  datatype Input =
    | Start
    | Enqueue(event: Event, configured: bool, other: bool)
    | Flush(configured: bool, other: bool)
    | Answer(i: nat, fates: seq<Fate>, extra: nat, heard: bool)
    | Resume(i: nat)
    | SendFails(i: nat)
    | StorageRejects(i: nat)
    | PersistFails(i: nat, took: bool)
    | Reads(i: nat, found: bool)
    | Writes(i: nat, took: bool)
    | DrainReads(found: bool)
    | DrainRemoves(took: bool)
    | DrainPushes(configured: bool, other: bool)
    | DrainFails(took: bool)
    | Elsewhere(stored: Option<seq<Event>>)
    | Attach(eventId: string)

  predicate At(s: State, i: nat) {
    i < |s.flights|
  }

  /** What program order allows next. No storage, a failed read and a failed write
      all end a batch the same way. */
  predicate Possible(s: State, x: Input) {
    match x
    case Answer(i, fates, _, _) => At(s, i) && s.flights[i].phase.Sending? && |fates| == |s.flights[i].events|
    case Resume(i) => At(s, i) && s.flights[i].phase.Landed?
    case SendFails(i) => At(s, i) && s.flights[i].phase.Sending?
    case StorageRejects(i) => At(s, i) && s.flights[i].phase.Opening?
    case PersistFails(i, took) =>
      At(s, i) && (s.flights[i].phase.Writing? || (s.flights[i].phase.Opening? && !took))
    case Reads(i, _) => At(s, i) && s.flights[i].phase.Opening?
    case Writes(i, _) => At(s, i) && s.flights[i].phase.Writing?
    case DrainReads(_) => s.drain.Idle?
    case DrainRemoves(_) => s.drain.Read?
    case DrainPushes(_, _) => s.drain.Removed?
    case DrainFails(_) => s.drain.Read?
    case Elsewhere(stored) => stored.Some? ==> 0 < |stored.value| <= MAX_PERSISTED
    case _ => true
  }

  predicate NoWriter(s: State) {
    forall i | 0 <= i < |s.flights| :: !s.flights[i].phase.Writing?
  }

  /** One party at a time: a read starts, and another page changes the store, with nobody
      between their read and their write. Nothing in the file keeps one persist, or one drain, out of another. */
  predicate Apart(s: State, x: Input) {
    x.Reads? || x.DrainReads? || x.Elsewhere? ==> NoWriter(s) && s.drain.Idle?
  }

  predicate CanHappen(s: State, x: Input) {
    Possible(s, x) && Apart(s, x)
  }

  /** One step; an input that is not possible changes nothing. */
  function Step(s: State, x: Input): State {
    if !Possible(s, x) then s else
    match x
    case Start => s.(started := true)
    case Enqueue(e, configured, other) => Enqueued(s, e, configured, other)
    case Flush(configured, other) => Flushed(s, configured, other)
    case Answer(i, fates, extra, heard) => Answered(s, i, fates, extra, heard)
    case Resume(i) => Ended(s, i).(desk := ReleasedAll(s.desk, s.flights[i].phase.batch))
    case SendFails(i) => SendFailed(s, i, s.flights[i].phase.failures)
    case StorageRejects(i) => Ended(s, i)
    case PersistFails(i, took) => Abandoned(s, i, took)
    case Reads(i, found) => Merged(s, i, found)
    case Writes(i, took) => Written(s, i, took)
    case DrainReads(found) => if found && s.stored.Some? then s.(drain := Read(s.stored.value)) else s
    case DrainRemoves(took) => s.(drain := Removed(s.drain.raw), stored := if took then None else s.stored)
    case DrainPushes(configured, other) =>
      Flushed(s.(drain := Idle, queue := s.queue + s.drain.raw), configured, other)
    case DrainFails(took) => s.(drain := Idle, stored := if took then None else s.stored)
    case Elsewhere(stored) => s.(stored := stored)
    case Attach(id) => s.(desk := Attached(s.desk, id))
  }

  // ------------------------------------------------------------------ the books

  /** How many copies of `x` the batches in flight answer for. */
  function Aloft(flights: seq<Flight>, x: Event): nat {
    if flights == [] then 0
    else Aloft(flights[..|flights| - 1], x) + multiset(flights[|flights| - 1].events)[x]
  }

  /** The sum of the loss counts riding batches. */
  function Riding(flights: seq<Flight>): nat {
    if flights == [] then 0 else Riding(flights[..|flights| - 1]) + flights[|flights| - 1].lost
  }

  /** How many events writes in progress have counted and not yet lost. */
  function Trimming(f: Flight): nat {
    if f.phase.Writing? then |Cut(f.phase.prev, f.events)| else 0
  }

  function Pending(flights: seq<Flight>): nat {
    if flights == [] then 0 else Pending(flights[..|flights| - 1]) + Trimming(flights[|flights| - 1])
  }

  /** What a drain has taken out of the store and not yet queued. */
  function Carried(s: State): seq<Event> {
    if s.drain.Removed? then s.drain.raw else []
  }

  function Copies(events: seq<Event>, x: Event): int {
    multiset(events)[x]
  }

  /** The copies of `x` in the queue, in batches in flight, in the store, in a drain,
      delivered, discarded, or counted lost, less those ever taken in. */
  function Gap(s: State, x: Event): int {
    Copies(s.queue, x) + Aloft(s.flights, x) + Copies(Store(s), x) + Copies(Carried(s), x)
      + s.ledger.delivered[x] + s.ledger.discarded[x] + s.ledger.lost[x] - s.ledger.taken[x]
  }

  /** Every copy of an event taken in is in one of these places, and in one only. */
  ghost predicate AllBalanced(s: State) {
    forall x :: Gap(s, x) == 0
  }

  /** Every copy is in one of these places at least. */
  ghost predicate NoneMissing(s: State) {
    forall x :: Gap(s, x) >= 0
  }

  /** What a step does to the gap: nothing, except where the store changes under a
      party that has read it, or does not change when it should. */
  function Drift(s: State, x: Input, e: Event): int {
    if !Possible(s, x) then 0 else
    match x
    case Writes(i, took) =>
      if took then Copies(s.flights[i].phase.prev, e) - Copies(Store(s), e) else -Copies(s.flights[i].events, e)
    case StorageRejects(i) => -Copies(s.flights[i].events, e)
    case PersistFails(i, took) => if took then Copies(s.flights[i].phase.prev, e) - Copies(Store(s), e) else 0
    case DrainRemoves(took) => Copies(s.drain.raw, e) - if took then Copies(Store(s), e) else 0
    case DrainFails(took) => if took then -Copies(Store(s), e) else 0
    case Elsewhere(stored) => Copies(stored.GetOr([]), e) - Copies(Store(s), e)
    case _ => 0
  }

  /** Nothing is lost or doubled: writes and removals that resolve take effect, the store
      still holds what was read, a removal that rejects leaves it alone, there is a storage
      to ask, and nobody else changes what it holds. */
  predicate Harmless(s: State, x: Input) {
    if !Possible(s, x) then true else
    match x
    case Writes(i, took) => took && multiset(s.flights[i].phase.prev) == multiset(Store(s))
    case StorageRejects(_) => false
    case PersistFails(i, took) => took ==> multiset(s.flights[i].phase.prev) == multiset(Store(s))
    case DrainRemoves(took) => took && multiset(s.drain.raw) == multiset(Store(s))
    case DrainFails(took) => took ==> Store(s) == []
    case Elsewhere(stored) => multiset(stored.GetOr([])) == multiset(Store(s))
    case _ => true
  }

  /** Nothing is lost: what replaces the store, or leaves it, includes what it held. */
  predicate Spares(s: State, x: Input) {
    if !Possible(s, x) then true else
    match x
    case Writes(i, took) => took && multiset(Store(s)) <= multiset(s.flights[i].phase.prev)
    case StorageRejects(_) => false
    case PersistFails(i, took) => took ==> multiset(Store(s)) <= multiset(s.flights[i].phase.prev)
    case DrainRemoves(took) => took ==> multiset(Store(s)) <= multiset(s.drain.raw)
    case DrainFails(took) => took ==> Store(s) == []
    case Elsewhere(stored) => multiset(Store(s)) <= multiset(stored.GetOr([]))
    case _ => true
  }

  /** What a host answers for when parties keep apart: writes and removals that resolve
      took effect, removals that reject did not, a store is not overwritten by a party
      whose read found nothing in it, asking for the storage does not reject, and no other
      page changes what is in it. */
  predicate HostKeeps(s: State, x: Input) {
    if !Possible(s, x) then true else
    match x
    case Writes(i, took) => took && (s.flights[i].phase.prev == [] ==> Store(s) == [])
    case StorageRejects(_) => false
    case PersistFails(i, took) => took && s.flights[i].phase.prev == [] ==> Store(s) == []
    case DrainRemoves(took) => took
    case DrainFails(took) => !took
    case Elsewhere(stored) => multiset(stored.GetOr([])) == multiset(Store(s))
    case _ => true
  }

  /** Every event an answer does not keep has an error in its outcomes. */
  predicate OwnsUp(s: State, x: Input) {
    x.Answer? && Possible(s, x) ==> Tally(x.fates, SILENTLY_DROPPED) == 0
  }

  /** Every error an answer lists stands for an event it does not keep. */
  predicate Frank(s: State, x: Input) {
    x.Answer? && Possible(s, x) ==> Tally(x.fates, Fate(true, true)) == 0 && x.extra == 0
  }

  predicate CanHappenKept(s: State, x: Input) {
    CanHappen(s, x) && HostKeeps(s, x)
  }

  // ---------------------------------------------------------------- invariants

  /** Every count is still to be sent, riding a batch, reported, or went down with a
      batch that never arrived: none is reported twice. */
  predicate CountsKept(s: State) {
    s.ledger.counted == s.dropped + Riding(s.flights) + s.ledger.reported + s.ledger.forfeited
  }

  /** Every count stands for an event lost, a refused outcome, an event a write in
      progress is going to lose, or for nothing. */
  predicate CountsStand(s: State) {
    s.ledger.counted == |s.ledger.lost| + s.ledger.refused + Pending(s.flights) + s.ledger.excess
  }

  /** Every discarded event had an error or went unsaid, and every error stood for one or
      was spare. */
  predicate RefusalsStand(s: State) {
    s.ledger.refused + s.ledger.unsaid == |s.ledger.discarded| + s.ledger.spare
  }

  /** Only a flight that is sending or persisting answers for anything. */
  predicate Lapsed(s: State) {
    forall i | 0 <= i < |s.flights| && (s.flights[i].phase.Landed? || s.flights[i].phase.Finished?) ::
      s.flights[i].events == [] && s.flights[i].lost == 0
  }

  /** Nobody persists, stores or drains an empty list. */
  predicate Stocked(s: State) {
    && (s.stored.Some? ==> s.stored.value != [])
    && (!s.drain.Idle? ==> s.drain.raw != [])
    && forall i | 0 <= i < |s.flights| && (s.flights[i].phase.Opening? || s.flights[i].phase.Writing?) ::
         s.flights[i].events != []
  }

  /** What holds in every run, whatever overlaps and whatever the host does. */
  predicate Ledgers(s: State) {
    CountsKept(s) && CountsStand(s) && RefusalsStand(s) && Lapsed(s) && Stocked(s)
  }

  /** One party between its read and its write: what it read is what the store holds,
      unless the host found nothing. */
  predicate OneAtATime(s: State) {
    && (forall i | 0 <= i < |s.flights| && s.flights[i].phase.Writing? ::
          (s.flights[i].phase.prev == Store(s) || s.flights[i].phase.prev == []) && s.drain.Idle?)
    && (forall i, j | 0 <= i < |s.flights| && 0 <= j < |s.flights|
          && s.flights[i].phase.Writing? && s.flights[j].phase.Writing? :: i == j)
    && (s.drain.Read? ==> s.stored == Some(s.drain.raw))
  }

  // ------------------------------------------------------------- attachments

  predicate Increasing(xs: seq<nat>) {
    forall j, k | 0 <= j < k < |xs| :: xs[j] < xs[k]
  }

  predicate Distinct(xs: seq<nat>) {
    forall j, k | 0 <= j < k < |xs| :: xs[j] != xs[k]
  }

  predicate Holding(d: Desk, id: string) {
    id in d.pending ==>
      Increasing(d.pending[id]) && forall n | n in d.pending[id] :: n < |d.owners| && d.owners[n] == id
  }

  predicate Waiting(d: Desk, n: nat)
    requires n < |d.owners|
  {
    d.owners[n] in d.pending && n in d.pending[d.owners[n]]
  }

  /** Every attachment ever queued is waiting or has been released, never both and
      never released twice; and those released belong to an answered event. */
  ghost predicate DeskKept(d: Desk) {
    && (forall id :: Holding(d, id))
    && Distinct(d.released)
    && (forall n | n in d.released :: n < |d.owners|)
    && (forall n: nat | n < |d.owners| :: n in d.released <==> !Waiting(d, n))
    && (forall n | n in d.released :: d.owners[n] in d.answeredIds)
  }

  /** A batch that has landed has been answered, so its attachments may go. */
  ghost predicate LandedAnswered(s: State) {
    forall i | 0 <= i < |s.flights| && s.flights[i].phase.Landed? ::
      IdsOf(s.flights[i].phase.batch) <= s.desk.answeredIds
  }

  ghost predicate Handover(s: State) {
    DeskKept(s.desk) && LandedAnswered(s)
  }
}
