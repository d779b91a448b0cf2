/** The closure `createTransport` returns: the source's variables, and a method for
    each stretch of code between two awaits, proved to be the step of that name. */
module TransportQueue {
  import opened Prelude
  import opened TransportModel

  lemma {:induction false} ReleasedOne(d: Desk, batch: seq<Event>, k: nat)
    requires k < |batch|
    ensures ReleasedAll(d, batch[..k + 1]) ==
            if batch[k].id != "" then Released(ReleasedAll(d, batch[..k]), batch[k].id) else ReleasedAll(d, batch[..k])
  {
    assert batch[..k + 1][..k] == batch[..k];
  }

  class Transport {
    var queue: seq<Event>
    var dropped: nat
    var started: bool
    var pendingAttachments: map<string, seq<nat>>
    // the host's storage, and the calls waiting for an await
    var stored: Option<seq<Event>>
    var flights: seq<Flight>
    var drain: Drain
    // numbers attachments, and those handed to the uploader
    var owners: seq<string>
    var released: seq<nat>
    ghost var answeredIds: set<string>
    ghost var ledger: Ledger

    ghost function Abs(): State
      reads this
    {
      State(queue, dropped, started, flights, stored, drain,
            Desk(owners, pendingAttachments, released, answeredIds), ledger)
    }

    constructor ()
      ensures Abs() == INITIAL
    {
      queue, dropped, started, pendingAttachments := [], 0, false, map[];
      stored, flights, drain, owners, released := None, [], Idle, [], [];
      answeredIds, ledger := {}, EMPTY_LEDGER;
    }

    method StartUp()
      modifies this
      ensures Abs() == Step(old(Abs()), Start)
    {
      started := true;
    }

    /** `countDropped`. */
    method CountDropped(n: nat)
      modifies this`dropped, this`ledger
      ensures Abs() == Count(old(Abs()), n)
    {
      if n > 0 { dropped := dropped + n; }
      ledger := ledger.(counted := ledger.counted + n);
    }

    /** `flush` up to its first await. */
    method FlushNow(configured: bool, other: bool)
      modifies this
      ensures Abs() == Flushed(old(Abs()), configured, other)
    {
      if !started { return; }
      if !configured { return; }
      var events := queue;
      queue := [];
      if events == [] && !other { return; }
      var lost := dropped;
      dropped := 0;
      flights := flights + [Flight(events, lost, Sending(0))];
    }

    method EnqueueEvent(event: Event, configured: bool, other: bool)
      modifies this
      ensures Abs() == Step(old(Abs()), Enqueue(event, configured, other))
    {
      queue := queue + [event];
      ghost var all := queue;
      ledger := ledger.(taken := ledger.taken + multiset{event},
                        lost := ledger.lost + multiset(Oldest(all, MAX_QUEUED)));
      if |queue| > MAX_QUEUED {
        CountDropped(|queue| - MAX_QUEUED);
        queue := queue[|queue| - MAX_QUEUED..];
      }
      assert Abs() == Queued(old(Abs()), event);
      if |queue| >= BATCH_SIZE { FlushNow(configured, other); }
    }

    /** The end of `sendOnce` on an answer: outcomes with an error are counted. */
    method AnswerFlight(i: nat, fates: seq<Fate>, extra: nat, heard: bool)
      requires Possible(Abs(), Answer(i, fates, extra, heard))
      modifies this
      ensures Abs() == Step(old(Abs()), Answer(i, fates, extra, heard))
    {
      hide Booked, Errors, IdsOf;
      var f := flights[i];
      CountDropped(Errors(fates, extra));
      flights := flights[i := Flight([], 0, Landed(f.events))];
      answeredIds := answeredIds + IdsOf(f.events);
      ledger := Booked(ledger, f, fates, extra, heard);
    }

    /** `sendQueuedAttachments` up to its first await. */
    method SendQueuedAttachments(eventId: string)
      modifies this`pendingAttachments, this`released
      ensures Abs() == old(Abs()).(desk := Released(old(Abs()).desk, eventId))
    {
      if eventId !in pendingAttachments { return; }
      var list := pendingAttachments[eventId];
      pendingAttachments := pendingAttachments - {eventId};
      released := released + list;
    }

    /** The rest of `flush` after its send succeeded. */
    method ResumeFlight(i: nat)
      requires Possible(Abs(), Resume(i))
      modifies this
      ensures Abs() == Step(old(Abs()), Resume(i))
    {
      ghost var before := Abs();
      var events := flights[i].phase.batch;
      var k := 0;
      while k < |events|
        invariant k <= |events|
        invariant Abs() == before.(desk := ReleasedAll(before.desk, events[..k]))
      {
        ReleasedOne(before.desk, events, k);
        if events[k].id != "" { SendQueuedAttachments(events[k].id); }
        k := k + 1;
      }
      assert events[..k] == events;
      ledger := ledger.(forfeited := ledger.forfeited + flights[i].lost);
      flights := flights[i := Flight([], 0, Finished)];
    }

    /** The catch of `sendWithRetry`, and what `flush` does when it rethrows. */
    method FailSend(i: nat)
      requires Possible(Abs(), SendFails(i))
      modifies this
      ensures Abs() == Step(old(Abs()), SendFails(i))
    {
      var f := flights[i];
      var attempt := f.phase.failures + 1;
      if attempt >= MAX_RETRY {
        if |f.events| == 0 {
          ledger := ledger.(forfeited := ledger.forfeited + f.lost);
          flights := flights[i := Flight([], 0, Finished)];
        } else {
          flights := flights[i := f.(phase := Opening)];
        }
      } else {
        flights := flights[i := f.(phase := Sending(attempt))];
      }
    }

    /** `persist` without storage, or in its catch. A rejecting `setItem` may have taken
        effect all the same. */
    method FailPersist(i: nat, took: bool)
      requires Possible(Abs(), PersistFails(i, took))
      modifies this
      ensures Abs() == Step(old(Abs()), PersistFails(i, took))
    {
      var f := flights[i];
      if took { SetItem(f.phase.prev, f.events); }
      CountDropped(|f.events|);
      ledger := if took then ledger.(excess := ledger.excess + |f.events|)
                else ledger.(lost := ledger.lost + multiset(f.events),
                             excess := ledger.excess + if f.phase.Writing? then |Cut(f.phase.prev, f.events)| else 0);
      EndFlight(i);
    }

    /** The flight answers for nothing any more. */
    method EndFlight(i: nat)
      requires At(Abs(), i)
      modifies this`flights, this`ledger
      ensures Abs() == Ended(old(Abs()), i)
    {
      ledger := ledger.(forfeited := ledger.forfeited + flights[i].lost);
      flights := flights[i := Flight([], 0, Finished)];
    }

    /** `storage()` rejects: that is before the `try` of `persist`, so the batch ends with
        the flush and is not counted. */
    method RejectStorage(i: nat)
      requires Possible(Abs(), StorageRejects(i))
      modifies this
      ensures Abs() == Step(old(Abs()), StorageRejects(i))
    {
      EndFlight(i);
    }

    /** `setItem` at the host, taking effect. */
    method SetItem(prev: seq<Event>, events: seq<Event>)
      modifies this`stored, this`ledger
      ensures stored == Some(Merge(prev, events))
      ensures ledger == old(ledger).(lost := old(ledger).lost + multiset(Cut(prev, events)))
    {
      var all := prev + events;
      stored := Some(if |all| > MAX_PERSISTED then all[|all| - MAX_PERSISTED..] else all);
      ledger := ledger.(lost := ledger.lost + multiset(Cut(prev, events)));
    }

    /** `persist` from its read to its write; the read may answer nothing over a store
        that holds something. */
    method MergePersisted(i: nat, found: bool)
      requires Possible(Abs(), Reads(i, found))
      modifies this
      ensures Abs() == Step(old(Abs()), Reads(i, found))
    {
      var prev := if found && stored.Some? then stored.value else [];
      var all := prev + flights[i].events;
      var merged := if |all| > MAX_PERSISTED then all[|all| - MAX_PERSISTED..] else all;
      CountDropped(|all| - |merged|);
      flights := flights[i := flights[i].(phase := Writing(prev))];
    }

    /** The write of `persist` resolves, having taken effect or not. */
    method WritePersisted(i: nat, took: bool)
      requires Possible(Abs(), Writes(i, took))
      modifies this
      ensures Abs() == Step(old(Abs()), Writes(i, took))
    {
      var f := flights[i];
      if took {
        SetItem(f.phase.prev, f.events);
      } else {
        ledger := ledger.(excess := ledger.excess + |Cut(f.phase.prev, f.events)|);
      }
      EndFlight(i);
    }

    /** `drainOfflineQueue` up to its removal, and the removal, which may not take effect. */
    method TakeDrained(found: bool)
      requires drain.Idle?
      modifies this`drain
      ensures Abs() == Step(old(Abs()), DrainReads(found))
    {
      if found && stored.Some? { drain := Read(stored.value); }
    }

    method RemoveDrained(took: bool)
      requires drain.Read?
      modifies this`drain, this`stored
      ensures Abs() == Step(old(Abs()), DrainRemoves(took))
    {
      if took { stored := None; }
      drain := Removed(drain.raw);
    }

    /** `drainOfflineQueue` after the item was removed: back into the queue, and flush. */
    method PushDrained(configured: bool, other: bool)
      requires Possible(Abs(), DrainPushes(configured, other))
      modifies this
      ensures Abs() == Step(old(Abs()), DrainPushes(configured, other))
    {
      ghost var before := Abs();
      var raw := drain.raw;
      var k := 0;
      while k < |raw|
        invariant k <= |raw|
        invariant Abs() == before.(queue := before.queue + raw[..k])
      {
        queue := queue + [raw[k]];
        k := k + 1;
      }
      assert raw[..k] == raw;
      drain := Idle;
      FlushNow(configured, other);
    }

    /** `queueAttachment`. */
    method QueueAttachment(eventId: string)
      modifies this
      ensures Abs() == Step(old(Abs()), Attach(eventId))
    {
      var list := if eventId in pendingAttachments then pendingAttachments[eventId] else [];
      pendingAttachments := pendingAttachments[eventId := list + [|owners|]];
      owners := owners + [eventId];
    }
  }
}
