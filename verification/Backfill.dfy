/** `run` in `self-hosted/server/src/backfill_split.rs`, statement by statement. */
module Backfill {
  import opened Prelude
  import opened BackfillTables
  import opened BackfillSplit

  lemma {:induction false} Overwritten<K, V>(m: map<K, V>, k: K, v: V, w: V)
    ensures m[k := v][k := w] == m[k := w]
  {
  }

  lemma {:induction false} NoneWithout(events: map<int, Event>, id: int)
    ensures EventsOf(events, id) == {} <==> CombosOf(events, id) == {}
  {
    if EventsOf(events, id) != {} {
      var e := NonEmpty(EventsOf(events, id));
      assert ComboOf(events[e]) in CombosOf(events, id);
    }
    if CombosOf(events, id) != {} {
      var c := NonEmpty(CombosOf(events, id));
      var e :| e in events && events[e].issue == id && ComboOf(events[e]) == c;
      assert e in EventsOf(events, id);
    }
  }

  lemma {:induction false} EveryCombo(events: map<int, Event>, id: int, combos: set<Combo>)
    requires combos == CombosOf(events, id)
    ensures forall e | e in events && events[e].issue == id :: ComboOf(events[e]) in combos
  {
  }

  /** Something is touched exactly when there were events. */
  lemma {:induction false} TouchedWhere(events: map<int, Event>, id: int, targets: map<Combo, int>)
    requires targets.Keys == CombosOf(events, id)
    ensures targets.Values != {} <==> EventsOf(events, id) != {}
  {
    NoneWithout(events, id);
    if c :| c in targets { assert targets[c] in targets.Values; }
    hide CombosOf, EventsOf;
  }

  /** A newest event of a combination whose turn has not come was one at first. */
  lemma {:induction false} KeyedAtFirst(t0: Tables, t: Tables, shell: int, targets: map<Combo, int>, c: Combo, e: int,
                                        g: Grouping)
    requires Housed(t0, t, shell, targets, g) && c !in targets && shell !in targets.Values
    requires Newest(t.events, shell, c, e)
    ensures Newest(t0.events, shell, c, e) && t0.events[e].payload == t.events[e].payload
    ensures shell in t0.issues && shell in t.issues && t.issues[shell] == t0.issues[shell]
  {
    assert forall d | d in targets :: targets[d] in targets.Values;
    assert forall d | d in t0.events && t0.events[d].issue == shell && ComboOf(t0.events[d]) == c ::
        t.events[d] == t0.events[d];
  }

  predicate Finds(issue: Issue, project: int, fingerprint: string) {
    issue.project == project && issue.fingerprint == fingerprint
  }

  class Database {
    var issues: map<int, Issue>
    var events: map<int, Event>
    var hits: map<int, map<string, Hit>>
    var probes: map<int, Option<int>>
    var nextId: int                       // Uuid::now_v7(): never an id seen before
    const g: Grouping

    ghost function Abs(): Tables
      reads this
    {
      Tables(issues, events, hits, probes)
    }

    ghost predicate Valid()
      reads this
    {
      Sound(Abs(), g) && Separates(g) && forall i | i in issues :: i < nextId
    }

    constructor (t: Tables, nextId: int, g: Grouping)
      ensures Abs() == t && this.nextId == nextId && this.g == g
    {
      issues, events, hits, probes := t.issues, t.events, t.hits, t.probes;
      this.nextId := nextId;
      this.g := g;
    }

    /** The payload of a newest event of the combination. */
    method Representative(shell: int, combo: Combo) returns (payload: int, ghost newest: int)
      requires combo in CombosOf(events, shell)
      ensures Newest(events, shell, combo, newest) && payload == events[newest].payload
    {
      var ids := set e | e in events && events[e].issue == shell && ComboOf(events[e]) == combo;
      var times := TimesOf(events, ids);
      assert ids != {} by {
        var e :| e in events && events[e].issue == shell && ComboOf(events[e]) == combo;
        assert e in ids;
      }
      var e := AnyOf(ids);
      assert events[e].at in times;
      var latest := set d | d in ids && events[d].at == Max(times);
      assert latest != {} by {
        var d :| d in ids && events[d].at == Max(times);
        assert d in latest;
      }
      var chosen := AnyOf(latest);
      payload, newest := events[chosen].payload, chosen;
      forall d | d in events && events[d].issue == shell && ComboOf(events[d]) == combo
        ensures events[d].at <= events[chosen].at
      {
        assert d in ids && events[d].at in times;
      }
    }

    /** SELECT id FROM issues WHERE project_id AND fingerprint. */
    method Existing(project: int, fingerprint: string) returns (r: Option<int>)
      ensures r.Some? ==> r.value in issues && Finds(issues[r.value], project, fingerprint)
      ensures r.None? ==> forall i | i in issues && issues[i].project == project :: issues[i].fingerprint != fingerprint
    {
      var found := set i | i in issues && Finds(issues[i], project, fingerprint);
      if found == {} {
        assert forall i | i in issues && Finds(issues[i], project, fingerprint) :: i in found;
        return None;
      }
      var i := AnyOf(found);
      return Some(i);
    }

    /** One turn of the inner loop: the issue of a combination, found or opened, takes
        its events. */
    method House(shell: int, row: Issue, combo: Combo, now: int, ghost t0: Tables, ghost targets: map<Combo, int>)
      returns (target: int)
      requires Valid() && row.environment.None? && shell in issues && issues[shell] == row
      requires combo in CombosOf(events, shell)
      requires Housed(t0, Abs(), shell, targets, g) && combo !in targets && shell !in targets.Values
      modifies this`issues, this`events, this`nextId
      ensures Valid() && Housed(t0, Abs(), shell, targets[combo := target], g)
      ensures target != shell && old(nextId) <= nextId && (target in old(issues) || target >= old(nextId))
      ensures target in issues && Keyed(t0, shell, combo, issues[target], g)
      ensures target !in old(issues) ==> LikeShell(row, issues[target])
    {
      hide Sound, Housed, MoveEvents, Separates, CombosOf;
      var payload, newest := Representative(shell, combo);
      KeyedAtFirst(t0, Abs(), shell, targets, combo, newest, g);
      var input := g.identity(row, payload);
      var fp := g.compute(combo.0, combo.1, input);
      var existing := Existing(row.project, fp);
      ghost var before := Abs();
      if existing.Some? {
        target := existing.value;
        FoundIsTagged(Abs(), g, target, combo, input);
      } else {
        target := nextId;
        nextId := nextId + 1;
        OpenedSound(Abs(), g, target, row, combo, input, now);
        issues := issues[target := Opened(row, fp, combo, now)];
      }
      HousedStep(t0, before, Abs(), shell, targets, combo, target, g);
      MovedSound(Abs(), shell, combo, target, g);
      events := MoveEvents(events, shell, combo, target);
    }

    /** The touched issue with the newest event of them all. */
    method Busiest(touched: set<int>) returns (i: int)
      requires touched != {}
      ensures BusiestOf(events, touched, i)
    {
      var ids := set e | e in events && events[e].issue in touched;
      if ids == {} {
        assert forall e | e in events && events[e].issue in touched :: e in ids;
        i := AnyOf(touched);
        return;
      }
      var times := TimesOf(events, ids);
      var e := AnyOf(ids);
      assert events[e].at in times;
      var newest := set d | d in ids && events[d].at == Max(times);
      assert newest != {} by {
        var d :| d in ids && events[d].at == Max(times);
        assert d in newest;
      }
      var d := AnyOf(newest);
      i := events[d].issue;
      assert forall e | e in events && events[e].issue in touched :: e in ids && events[e].at in times;
    }

    /** The inner loop: every combination of the shell's events gets its issue. */
    method HouseAll(shell: int, row: Issue, combos: set<Combo>, now: int)
      returns (touched: set<int>, ghost targets: map<Combo, int>)
      requires Valid() && row.environment.None? && shell in issues && issues[shell] == row
      requires combos == CombosOf(events, shell)
      modifies this`issues, this`events, this`nextId
      ensures Valid() && old(nextId) <= nextId
      ensures Housed(old(Abs()), Abs(), shell, targets, g) && targets.Keys == combos
      ensures touched == targets.Values && shell !in touched
      ensures forall i | i in touched :: i in old(issues) || i >= old(nextId)
    {
      ghost var t0 := Abs();
      touched, targets := {}, map[];
      HousedStart(t0, shell, g);
      assert Parts(combos, targets.Keys, combos);
      hide Valid, Housed, CombosOf, Parts;
      var left := combos;
      while left != {}
        invariant Valid() && old(nextId) <= nextId
        invariant Housed(t0, Abs(), shell, targets, g) && Parts(combos, targets.Keys, left)
        invariant touched == targets.Values && shell !in touched
        invariant forall i | i in touched :: i in t0.issues || i >= old(nextId)
        decreases |left|
      {
        var combo := AnyOf(left);
        PartsStep(combos, targets.Keys, left, combo);
        StillThere(t0, Abs(), shell, targets, combo, g);
        var target := House(shell, row, combo, now, t0, targets);
        ValuesGrow(targets, combo, target);
        targets := targets[combo := target];
        touched := touched + {target};
        left := left - {combo};
      }
      PartsEnd(combos, targets.Keys);
    }

    /** The probes of a probe issue move to the busiest touched one; the shell goes. */
    method RemoveShell(shell: int, row: Issue, touched: set<int>, ghost t0: Tables, ghost targets: map<Combo, int>)
      requires Valid() && Housed(t0, Abs(), shell, targets, g) && touched == targets.Values && shell !in touched
      requires targets.Keys == CombosOf(t0.events, shell) && shell in t0.issues && t0.issues[shell] == row
      modifies this`issues, this`events, this`hits, this`probes
      ensures Split(t0, Abs(), shell, touched, {}, g) && Valid()
    {
      hide Housed, Split, CombosOf, Sound, Separates;
      ghost var before, aim := Abs(), None;
      TouchedWhere(t0.events, shell, targets);
      if row.kind == "probe" && touched != {} {
        var target := Busiest(touched);
        probes := Repoint(probes, shell, target);
        aim := Some(target);
      }
      EveryCombo(t0.events, shell, targets.Keys);
      ShellGoes(t0, before, probes, shell, targets, aim, g);
      var left := DeleteIssue(Tables(issues, events, hits, probes), shell);
      issues, events, hits, probes := left.issues, left.events, left.hits, left.probes;
      SplitHas(t0, Abs(), shell, touched, {}, g);
    }

    /** The four statements of the last loop's body. */
    method Rebuild(id: int)
      requires Valid() && id in issues
      modifies this`issues, this`hits
      ensures Valid() && Abs() == Rebuilt(old(Abs()), id)
    {
      RebuiltSound(Abs(), id, g);
      hide Sound, StatsOf, Grouped, Separates;
      var grouped := Grouped(events, id);
      hits := hits[id := map[]];
      hits := hits[id := grouped];
      Overwritten(old(hits), id, map[], grouped);
      issues := issues[id := issues[id].(stats := StatsOf(events, grouped, id, issues[id].stats))];
    }

    /** The last loop: statistics from the events that are there now. */
    method RebuildAll(shell: int, touched: set<int>, ghost t0: Tables)
      requires Valid() && Split(t0, Abs(), shell, touched, {}, g)
      modifies this`issues, this`hits
      ensures Valid() && Split(t0, Abs(), shell, touched, touched, g)
    {
      hide Valid, Split, Rebuilt;
      var left := touched;
      ghost var exact: set<int> := {};
      while left != {}
        invariant Valid() && Split(t0, Abs(), shell, touched, exact, g)
        invariant left + exact == touched && left !! exact
        decreases |left|
      {
        var id := AnyOf(left);
        SplitHas(t0, Abs(), shell, touched, exact, g);
        RebuildStep(t0, Abs(), shell, touched, exact, id, g);
        Rebuild(id);
        exact := exact + {id};
        left := left - {id};
      }
      assert exact == touched;
    }

    /** The three parts of a transaction that goes through. */
    method Rehome(shell: int, row: Issue, combos: set<Combo>, now: int) returns (touched: set<int>)
      requires Valid() && row.environment.None? && shell in issues && issues[shell] == row
      requires combos == CombosOf(events, shell)
      modifies this`issues, this`events, this`hits, this`probes, this`nextId
      ensures Valid() && old(nextId) <= nextId
      ensures Split(old(Abs()), Abs(), shell, touched, touched, g)
      ensures forall i | i in touched :: i in old(issues) || i >= old(nextId)
    {
      hide Sound, Separates, Housed, Split, CombosOf;
      ghost var t0 := Abs();
      ghost var targets;
      touched, targets := HouseAll(shell, row, combos, now);
      RemoveShell(shell, row, touched, t0, targets);
      RebuildAll(shell, touched, t0);
    }

    /** One transaction: all of it, or none of it where the kind is unknown. */
    method SplitIssue(shell: int, now: int) returns (ok: bool, touched: set<int>)
      requires Valid() && shell in issues && issues[shell].environment.None?
      modifies this`issues, this`events, this`hits, this`probes, this`nextId
      ensures Valid() && old(nextId) <= nextId
      ensures ok <==> EventsOf(old(events), shell) == {} || g.known(old(issues)[shell].kind)
      ensures !ok ==> Abs() == old(Abs())
      ensures ok ==> Split(old(Abs()), Abs(), shell, touched, touched, g)
      ensures ok ==> forall i | i in touched :: i in old(issues) || i >= old(nextId)
    {
      hide *;
      var row := issues[shell];
      var combos := CombosOf(events, shell);
      NoneWithout(events, shell);
      if combos != {} && !g.known(row.kind) { return false, {}; }
      touched := Rehome(shell, row, combos, now);
      ok := true;
    }

    /** One turn of the outer loop. */
    method Turn(shell: int, now: int, ghost t0: Tables, ghost done: set<int>, ghost before: set<int>)
      returns (ok: bool, ghost touched: set<int>)
      requires Valid() && Ran(t0, Abs(), done, before, g) && shell in MixedOf(t0.issues) && shell !in done
      requires forall i | i in done :: i < nextId
      modifies this`issues, this`events, this`hits, this`probes, this`nextId
      ensures Valid() && old(nextId) <= nextId && shell < nextId
      ensures ok <==> EventsOf(t0.events, shell) == {} || g.known(t0.issues[shell].kind)
      ensures Ran(t0, Abs(), if ok then done + {shell} else done, touched, g)
    {
      ShellWaits(t0, Abs(), done, before, shell, g);
      ghost var t := Abs();
      var more;
      ok, more := SplitIssue(shell, now);
      touched := before;
      if ok {
        forall i | i in done ensures i !in more { assert i !in t.issues; }
        RanStep(t0, t, Abs(), done, before, shell, more, g);
        touched := before + more;
      }
    }

    /** The whole backfill. It stops at the first issue with events of unknown kind,
        and what it committed before that stands. */
    method Run(now: int) returns (ok: bool, ghost done: set<int>, ghost touched: set<int>)
      requires Valid()
      modifies this`issues, this`events, this`hits, this`probes, this`nextId
      ensures Valid()
      ensures ok <==> forall i | i in MixedOf(old(issues)) ::
          EventsOf(old(events), i) == {} || g.known(old(issues)[i].kind)
      ensures done <= MixedOf(old(issues)) && (ok ==> done == MixedOf(old(issues)))
      ensures Ran(old(Abs()), Abs(), done, touched, g)
    {
      ghost var t0 := Abs();
      var mixed := MixedOf(issues);
      var left := mixed;
      done, touched := {}, {};
      RanStart(t0, g);
      assert Parts(mixed, done, left);
      while left != {}
        invariant Valid() && Ran(t0, Abs(), done, touched, g) && Parts(mixed, done, left)
        invariant forall i | i in done :: i < nextId && (EventsOf(t0.events, i) == {} || g.known(t0.issues[i].kind))
        decreases |left|
      {
        hide Sound, Separates, Ran, Parts, Split;
        var shell := AnyOf(left);
        PartsStep(mixed, done, left, shell);
        ShellWaits(t0, Abs(), done, touched, shell, g);
        ghost var before := Abs();
        ok, touched := Turn(shell, now, t0, done, touched);
        if !ok { return; }
        done := done + {shell};
        left := left - {shell};
      }
      PartsEnd(mixed, done);
      ok := true;
    }
  }
}
