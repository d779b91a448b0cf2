/** What one split transaction, and a whole run of them, does to the tables. */
module BackfillSplit {
  import opened Prelude
  import opened BackfillTables

  predicate Mixed(i: Issue) {
    i.environment.None?
  }

  /** The fingerprint was computed with this environment and platform. */
  ghost predicate Spells(g: Grouping, fingerprint: string, environment: string, platform: string) {
    exists input :: fingerprint == g.compute(environment, platform, input)
  }

  /** Fingerprints tell environments and platforms apart. */
  ghost predicate Separates(g: Grouping) {
    forall e, p, x, f, q, y :: g.compute(e, p, x) == g.compute(f, q, y) ==> e == f && p == q
  }

  predicate Tagged(i: Issue, c: Combo) {
    i.environment == Some(c.0) && i.platform == Some(c.1)
  }

  ghost predicate Labelled(i: Issue, g: Grouping) {
    if Mixed(i) then forall c: Combo :: !Spells(g, i.fingerprint, c.0, c.1)
    else i.platform.Some? && Spells(g, i.fingerprint, i.environment.value, i.platform.value)
  }

  ghost predicate Unique(issues: map<int, Issue>) {
    forall i, j | i in issues && j in issues && issues[i].project == issues[j].project
      && issues[i].fingerprint == issues[j].fingerprint :: i == j
  }

  /** The schema's constraints, and: split issues carry a fingerprint of their own
      environment and platform, mixed ones a fingerprint from before there were any. */
  ghost predicate Sound(t: Tables, g: Grouping) {
    && (forall e | e in t.events :: t.events[e].issue in t.issues)
    && t.hits.Keys <= t.issues.Keys
    && (forall p | p in t.probes && t.probes[p].Some? :: t.probes[p].value in t.issues)
    && Unique(t.issues)
    && (forall i | i in t.issues :: Labelled(t.issues[i], g))
  }

  /** An event sits in an issue of its own environment and platform. */
  predicate Homed(t: Tables, e: int)
    requires e in t.events
  {
    t.events[e].issue in t.issues && Tagged(t.issues[t.events[e].issue], ComboOf(t.events[e]))
  }

  // -------------------------------------------------------------- what it belongs to

  /** One of the newest events of a combination. */
  ghost predicate Newest(events: map<int, Event>, shell: int, c: Combo, e: int) {
    && e in events && events[e].issue == shell && ComboOf(events[e]) == c
    && forall d | d in events && events[d].issue == shell && ComboOf(events[d]) == c :: events[d].at <= events[e].at
  }

  /** The issue has the shell's project, and the fingerprint of the combination and of the
      grouping input that the shell's identity and a newest event's payload give. */
  ghost predicate Keyed(t0: Tables, shell: int, c: Combo, i: Issue, g: Grouping) {
    && shell in t0.issues && i.project == t0.issues[shell].project
    && exists e :: Newest(t0.events, shell, c, e)
         && i.fingerprint == g.compute(c.0, c.1, g.identity(t0.issues[shell], t0.events[e].payload))
  }

  /** Opened for it: the same project, kind, title and surface. */
  predicate LikeShell(shell: Issue, i: Issue) {
    i.project == shell.project && i.kind == shell.kind && i.title == shell.title && i.surface == shell.surface
  }

  // ---------------------------------------------------------- finding the target

  /** A lookup by a computed fingerprint finds an issue of that environment and platform. */
  lemma {:induction false} FoundIsTagged(t: Tables, g: Grouping, i: int, c: Combo, input: string)
    requires Sound(t, g) && Separates(g)
    requires i in t.issues && t.issues[i].fingerprint == g.compute(c.0, c.1, input)
    ensures Tagged(t.issues[i], c)
  {
    assert Labelled(t.issues[i], g);
    assert Spells(g, t.issues[i].fingerprint, c.0, c.1);
  }

  function Opened(shell: Issue, fingerprint: string, c: Combo, now: int): Issue {
    Issue(shell.project, fingerprint, shell.kind, shell.title, shell.surface, Some(c.0), Some(c.1),
          Stats(0, 0, 0, now, now))
  }

  lemma {:induction false} OpenedSound(t: Tables, g: Grouping, id: int, shell: Issue, c: Combo, input: string, now: int)
    requires Sound(t, g) && id !in t.issues
    requires forall i | i in t.issues && t.issues[i].project == shell.project ::
               t.issues[i].fingerprint != g.compute(c.0, c.1, input)
    ensures Sound(t.(issues := t.issues[id := Opened(shell, g.compute(c.0, c.1, input), c, now)]), g)
  {
    var fp := g.compute(c.0, c.1, input);
    assert Spells(g, fp, c.0, c.1);
  }

  // ----------------------------------------------------------- housing the events

  ghost predicate Carried(before: map<int, Event>, after: map<int, Event>, shell: int, targets: map<Combo, int>) {
    && after.Keys == before.Keys
    && forall e | e in before ::
         after[e] == if before[e].issue == shell && ComboOf(before[e]) in targets
                     then before[e].(issue := targets[ComboOf(before[e])]) else before[e]
  }

  /** Half way through a transaction: the combinations done so far have a target of
      their own, and nothing but those events and new issues has changed. */
  ghost predicate Housed(t0: Tables, t: Tables, shell: int, targets: map<Combo, int>, g: Grouping) {
    && Sound(t, g)
    && t.hits == t0.hits && t.probes == t0.probes
    && Carried(t0.events, t.events, shell, targets)
    && (forall c | c in targets :: targets[c] in t.issues && Tagged(t.issues[targets[c]], c))
    && (forall i | i in t0.issues :: i in t.issues && t.issues[i] == t0.issues[i])
    && (forall i | i in t.issues :: i in t0.issues || i in targets.Values)
    && TargetsKeyed(t0, t, shell, targets, g) && NewLike(t0, t, shell)
  }

  ghost predicate TargetsKeyed(t0: Tables, t: Tables, shell: int, targets: map<Combo, int>, g: Grouping) {
    forall c | c in targets :: targets[c] in t.issues && Keyed(t0, shell, c, t.issues[targets[c]], g)
  }

  predicate NewLike(t0: Tables, t: Tables, shell: int) {
    shell in t0.issues && forall i | i in t.issues && i !in t0.issues :: LikeShell(t0.issues[shell], t.issues[i])
  }

  lemma {:induction false} CarriedStep(before: map<int, Event>, events: map<int, Event>, shell: int,
                                       targets: map<Combo, int>, c: Combo, target: int)
    requires Carried(before, events, shell, targets) && c !in targets && shell !in targets.Values
    ensures Carried(before, MoveEvents(events, shell, c, target), shell, targets[c := target])
  {
    assert forall d | d in targets :: targets[d] in targets.Values;
  }

  lemma {:induction false} MovedSound(t: Tables, shell: int, c: Combo, target: int, g: Grouping)
    requires Sound(t, g) && target in t.issues
    ensures Sound(t.(events := MoveEvents(t.events, shell, c, target)), g)
  {
  }

  /** `all` is what is done and what is left. */
  predicate Parts<T>(all: set<T>, done: set<T>, left: set<T>) {
    all == done + left && done !! left
  }

  lemma {:induction false} PartsStep<T>(all: set<T>, done: set<T>, left: set<T>, x: T)
    requires Parts(all, done, left) && x in left
    ensures Parts(all, done + {x}, left - {x}) && x in all && x !in done
  {
  }

  lemma {:induction false} PartsEnd<T>(all: set<T>, done: set<T>)
    requires Parts(all, done, {})
    ensures all == done
  {
  }

  lemma {:induction false} ValuesGrow<K, V>(m: map<K, V>, k: K, v: V)
    requires k !in m
    ensures m[k := v].Values == m.Values + {v} && m[k := v].Keys == m.Keys + {k}
  {
    var n := m[k := v];
    assert n[k] == v;
    forall x | x in m.Values ensures x in n.Values {
      var d :| d in m && m[d] == x;
      assert n[d] == x;
    }
  }

  lemma {:induction false} HousedStep(t0: Tables, t: Tables, t1: Tables, shell: int, targets: map<Combo, int>, c: Combo,
                                      target: int, g: Grouping)
    requires Housed(t0, t, shell, targets, g) && c !in targets && shell !in targets.Values
    requires Sound(t1, g) && t1.(issues := t.issues) == t
    requires target in t1.issues && Tagged(t1.issues[target], c)
    requires forall i | i in t.issues :: i in t1.issues && t1.issues[i] == t.issues[i]
    requires forall i | i in t1.issues :: i in t.issues || i == target
    requires Keyed(t0, shell, c, t1.issues[target], g)
    requires target !in t.issues ==> LikeShell(t0.issues[shell], t1.issues[target])
    ensures Housed(t0, t1.(events := MoveEvents(t1.events, shell, c, target)), shell, targets[c := target], g)
  {
    hide Sound, Carried, MoveEvents, Keyed, LikeShell;
    MovedSound(t1, shell, c, target, g);
    CarriedStep(t0.events, t.events, shell, targets, c, target);
    ValuesGrow(targets, c, target);
    var t2, more := t1.(events := MoveEvents(t1.events, shell, c, target)), targets[c := target];
    forall d | d in more
      ensures more[d] in t2.issues && Tagged(t2.issues[more[d]], d) && Keyed(t0, shell, d, t2.issues[more[d]], g)
    {
      if d != c { assert more[d] == targets[d] && targets[d] in t.issues; }
    }
    forall i | i in t2.issues && i !in t0.issues ensures LikeShell(t0.issues[shell], t2.issues[i]) {
      if i in t.issues { assert LikeShell(t0.issues[shell], t.issues[i]); }
    }
  }

  lemma {:induction false} HousedStart(t: Tables, shell: int, g: Grouping)
    requires Sound(t, g) && shell in t.issues
    ensures Housed(t, t, shell, map[], g)
  {
  }

  /** Until its turn comes a combination has its events in the shell. */
  lemma {:induction false} StillThere(t0: Tables, t: Tables, shell: int, targets: map<Combo, int>, c: Combo,
                                      g: Grouping)
    requires Housed(t0, t, shell, targets, g) && c !in targets && shell in t0.issues
    requires c in CombosOf(t0.events, shell)
    ensures c in CombosOf(t.events, shell)
    ensures shell in t.issues && t.issues[shell] == t0.issues[shell]
  {
    var e :| e in t0.events && t0.events[e].issue == shell && ComboOf(t0.events[e]) == c;
    assert t.events[e] == t0.events[e];
  }

  // ---------------------------------------------------------- one transaction

  /** What one transaction did: the shell is gone, its events sit in the touched
      issues, and every issue in `exact` says what its events say. */
  ghost predicate Split(t0: Tables, t: Tables, shell: int, touched: set<int>, exact: set<int>, g: Grouping) {
    && Sound(t, g)
    && shell !in t.issues
    && EventsSplit(t0, t, shell, touched)
    && IssuesSplit(t0, t, shell, touched)
    && ProbesSplit(t0, t, shell, touched)
    && EventsKeyed(t0, t, shell, g) && NewLike(t0, t, shell)
    && exact <= touched && (forall i | i in exact :: Exact(t, i))
  }

  ghost predicate EventsSplit(t0: Tables, t: Tables, shell: int, touched: set<int>) {
    && t.events.Keys == t0.events.Keys
    && forall e | e in t0.events ::
         if t0.events[e].issue == shell
         then t.events[e] == t0.events[e].(issue := t.events[e].issue) && t.events[e].issue in touched && Homed(t, e)
         else t.events[e] == t0.events[e]
  }

  /** Each event of the shell is in an issue keyed by its combination. */
  ghost predicate EventsKeyed(t0: Tables, t: Tables, shell: int, g: Grouping) {
    forall e | e in t0.events && t0.events[e].issue == shell ::
      && e in t.events && t.events[e].issue in t.issues
      && Keyed(t0, shell, ComboOf(t0.events[e]), t.issues[t.events[e].issue], g)
  }

  /** Issues neither gone nor touched are as they were, rows and hits; a touched one
      keeps everything but its statistics, or is new. */
  ghost predicate IssuesSplit(t0: Tables, t: Tables, shell: int, touched: set<int>) {
    && (forall i | i in touched :: i in t.issues && !Mixed(t.issues[i]))
    && (forall i | i in t.issues && i !in touched :: i in t0.issues && t.issues[i] == t0.issues[i])
    && (forall i | i in t0.issues && i != shell ::
        i in t.issues && t.issues[i] == t0.issues[i].(stats := t.issues[i].stats))
    && (forall i | i in t0.hits && i != shell && i !in touched :: i in t.hits && t.hits[i] == t0.hits[i])
    && (forall i | i in t.hits && i !in touched :: i in t0.hits)
  }

  /** It holds an event at least as new as any in the touched issues. */
  ghost predicate BusiestOf(events: map<int, Event>, touched: set<int>, i: int) {
    && i in touched
    && forall e | e in events && events[e].issue in touched ::
         exists d :: d in events && events[d].issue == i && events[d].at >= events[e].at
  }

  /** A probe issue with events: its probes outlive it. */
  predicate Moving(t: Tables, shell: int) {
    shell in t.issues && t.issues[shell].kind == "probe" && EventsOf(t.events, shell) != {}
  }

  /** Where the probes of the shell go: to the busiest touched issue, or nowhere. */
  ghost predicate Aimed(t0: Tables, events: map<int, Event>, shell: int, touched: set<int>, aim: Option<int>) {
    if Moving(t0, shell) then aim.Some? && BusiestOf(events, touched, aim.value) else aim.None?
  }

  function Aiming(probes: map<int, Option<int>>, shell: int, aim: Option<int>): map<int, Option<int>> {
    map p | p in probes :: if probes[p] == Some(shell) then aim else probes[p]
  }

  /** The probes of the shell all go to that issue, or none of them has an issue any more. */
  ghost predicate ProbesSplit(t0: Tables, t: Tables, shell: int, touched: set<int>) {
    exists aim :: Aimed(t0, t.events, shell, touched, aim) && t.probes == Aiming(t0.probes, shell, aim)
  }

  lemma {:induction false} Emptied(t0: Tables, t: Tables, shell: int, targets: map<Combo, int>)
    requires Carried(t0.events, t.events, shell, targets) && shell !in targets.Values
    requires forall e | e in t0.events && t0.events[e].issue == shell :: ComboOf(t0.events[e]) in targets
    ensures forall e | e in t.events :: t.events[e].issue != shell
  {
    assert forall d | d in targets :: targets[d] in targets.Values;
  }

  lemma {:induction false} DeletedEvents(t: Tables, shell: int)
    requires forall e | e in t.events :: t.events[e].issue != shell
    ensures DeleteIssue(t, shell).events == t.events
  {
    var left := DeleteIssue(t, shell).events;
    assert forall e :: e in left <==> e in t.events;
  }

  /** Re-pointed where there is an aim, left alone otherwise. */
  predicate Repointed(before: map<int, Option<int>>, after: map<int, Option<int>>, shell: int, aim: Option<int>) {
    after == if aim.Some? then Repoint(before, shell, aim.value) else before
  }

  lemma {:induction false} DeletedSound(t: Tables, shell: int, g: Grouping)
    requires Sound(t, g) && forall e | e in t.events :: t.events[e].issue != shell
    ensures Sound(DeleteIssue(t, shell), g)
  {
  }

  lemma {:induction false} DeletedIssues(t0: Tables, t: Tables, shell: int, targets: map<Combo, int>)
    requires t.hits == t0.hits && shell !in targets.Values
    requires forall c | c in targets :: targets[c] in t.issues && Tagged(t.issues[targets[c]], c)
    requires forall i | i in t0.issues :: i in t.issues && t.issues[i] == t0.issues[i]
    requires forall i | i in t.issues :: i in t0.issues || i in targets.Values
    ensures IssuesSplit(t0, DeleteIssue(t, shell), shell, targets.Values)
  {
    var u := DeleteIssue(t, shell);
    forall i | i in targets.Values ensures i in u.issues && !Mixed(u.issues[i]) {
      var d :| d in targets && targets[d] == i;
    }
  }

  lemma {:induction false} RepointedSound(t: Tables, probes: map<int, Option<int>>, shell: int, aim: Option<int>,
                                          g: Grouping)
    requires Sound(t, g) && Repointed(t.probes, probes, shell, aim) && (aim.Some? ==> aim.value in t.issues)
    ensures Sound(t.(probes := probes), g)
  {
  }

  lemma {:induction false} DeletedProbes(t: Tables, probes: map<int, Option<int>>, shell: int, aim: Option<int>)
    requires Repointed(t.probes, probes, shell, aim) && aim != Some(shell)
    ensures shell !in DeleteIssue(t.(probes := probes), shell).issues
    ensures DeleteIssue(t.(probes := probes), shell).probes == Aiming(t.probes, shell, aim)
  {
  }

  lemma {:induction false} CarriedSplit(t0: Tables, t: Tables, shell: int, targets: map<Combo, int>)
    requires Carried(t0.events, t.events, shell, targets) && shell !in targets.Values
    requires forall c | c in targets :: targets[c] in t.issues && Tagged(t.issues[targets[c]], c)
    requires forall e | e in t0.events && t0.events[e].issue == shell :: ComboOf(t0.events[e]) in targets
    ensures EventsSplit(t0, DeleteIssue(t, shell), shell, targets.Values)
  {
    Emptied(t0, t, shell, targets);
    DeletedEvents(t, shell);
    assert forall d | d in targets :: targets[d] in targets.Values;
  }

  lemma {:induction false} CarriedKeyed(t0: Tables, t: Tables, shell: int, targets: map<Combo, int>, g: Grouping)
    requires Carried(t0.events, t.events, shell, targets) && shell !in targets.Values
    requires TargetsKeyed(t0, t, shell, targets, g) && NewLike(t0, t, shell)
    requires forall e | e in t0.events && t0.events[e].issue == shell :: ComboOf(t0.events[e]) in targets
    ensures EventsKeyed(t0, DeleteIssue(t, shell), shell, g) && NewLike(t0, DeleteIssue(t, shell), shell)
  {
    hide Keyed, LikeShell;
    Emptied(t0, t, shell, targets);
    DeletedEvents(t, shell);
    assert forall d | d in targets :: targets[d] in targets.Values;
  }

  /** With its events housed the shell can go: nothing cascades but its hits. */
  lemma {:induction false} ShellGoes(t0: Tables, t: Tables, probes: map<int, Option<int>>, shell: int,
                                     targets: map<Combo, int>, aim: Option<int>, g: Grouping)
    requires Housed(t0, t, shell, targets, g) && shell !in targets.Values
    requires forall e | e in t0.events && t0.events[e].issue == shell :: ComboOf(t0.events[e]) in targets
    requires Repointed(t.probes, probes, shell, aim) && Aimed(t0, t.events, shell, targets.Values, aim)
    ensures Split(t0, DeleteIssue(t.(probes := probes), shell), shell, targets.Values, {}, g)
  {
    hide Sound, Carried, DeleteIssue, EventsSplit, IssuesSplit, Aiming, Repointed, Moving, EventsKeyed, Keyed,
        LikeShell;
    var u := t.(probes := probes);
    Emptied(t0, t, shell, targets);
    if aim.Some? { var d :| d in targets && targets[d] == aim.value; }
    RepointedSound(t, probes, shell, aim, g);
    DeletedEvents(u, shell);
    DeletedSound(u, shell, g);
    CarriedSplit(t0, u, shell, targets);
    CarriedKeyed(t0, u, shell, targets, g);
    DeletedIssues(t0, u, shell, targets);
    DeletedProbes(t, probes, shell, aim);
    assert Aimed(t0, DeleteIssue(u, shell).events, shell, targets.Values, aim);
  }

  lemma {:induction false} RebuiltSound(t: Tables, id: int, g: Grouping)
    requires Sound(t, g) && id in t.issues
    ensures Sound(Rebuilt(t, id), g)
  {
    hide StatsOf, Grouped;
    var u := Rebuilt(t, id);
    assert forall i | i in u.issues :: u.issues[i] == t.issues[i].(stats := u.issues[i].stats);
  }

  lemma {:induction false} RebuiltIssues(t0: Tables, t: Tables, shell: int, touched: set<int>, id: int)
    requires IssuesSplit(t0, t, shell, touched) && id in touched
    ensures IssuesSplit(t0, Rebuilt(t, id), shell, touched)
  {
    hide StatsOf, Grouped;
  }

  lemma {:induction false} RebuiltEvents(t0: Tables, t: Tables, shell: int, touched: set<int>, id: int)
    requires EventsSplit(t0, t, shell, touched) && id in t.issues
    ensures EventsSplit(t0, Rebuilt(t, id), shell, touched)
  {
    hide StatsOf, Grouped;
    var u := Rebuilt(t, id);
    forall e | e in t.events ensures Homed(t, e) ==> Homed(u, e) {}
  }

  lemma {:induction false} RebuiltKeyed(t0: Tables, t: Tables, shell: int, id: int, g: Grouping)
    requires EventsKeyed(t0, t, shell, g) && NewLike(t0, t, shell) && id in t.issues
    ensures EventsKeyed(t0, Rebuilt(t, id), shell, g) && NewLike(t0, Rebuilt(t, id), shell)
  {
    hide StatsOf, Grouped, Newest;
    var u := Rebuilt(t, id);
    assert forall i | i in u.issues :: u.issues[i] == t.issues[i].(stats := u.issues[i].stats);
    forall e | e in t0.events && t0.events[e].issue == shell
      ensures e in u.events && u.events[e].issue in u.issues
              && Keyed(t0, shell, ComboOf(t0.events[e]), u.issues[u.events[e].issue], g)
    {
      assert Keyed(t0, shell, ComboOf(t0.events[e]), t.issues[t.events[e].issue], g);
    }
  }

  lemma {:induction false} RebuiltProbes(t0: Tables, t: Tables, shell: int, touched: set<int>, id: int)
    requires ProbesSplit(t0, t, shell, touched) && id in t.issues
    ensures ProbesSplit(t0, Rebuilt(t, id), shell, touched)
  {
    hide Aimed, Aiming, StatsOf, Grouped;
    var aim :| Aimed(t0, t.events, shell, touched, aim) && t.probes == Aiming(t0.probes, shell, aim);
    assert Aimed(t0, Rebuilt(t, id).events, shell, touched, aim);
  }

  lemma {:induction false} RebuildStep(t0: Tables, t: Tables, shell: int, touched: set<int>, exact: set<int>, id: int,
                                       g: Grouping)
    requires Split(t0, t, shell, touched, exact, g) && id in touched && id !in exact
    ensures Split(t0, Rebuilt(t, id), shell, touched, exact + {id}, g)
  {
    hide Sound, Exact, EventsSplit, ProbesSplit, StatsOf, Grouped, EventsKeyed, NewLike;
    var u := Rebuilt(t, id);
    RebuiltExact(t, id);
    forall i | i in exact ensures Exact(u, i) { RebuiltKeeps(t, id, i); }
    RebuiltSound(t, id, g);
    RebuiltEvents(t0, t, shell, touched, id);
    RebuiltIssues(t0, t, shell, touched, id);
    RebuiltProbes(t0, t, shell, touched, id);
    RebuiltKeyed(t0, t, shell, id, g);
  }

  lemma {:induction false} SplitHas(t0: Tables, t: Tables, shell: int, touched: set<int>, exact: set<int>, g: Grouping)
    requires Split(t0, t, shell, touched, exact, g)
    ensures touched <= t.issues.Keys && Sound(t, g)
  {
    assert forall i | i in touched :: i in t.issues;
  }

  // ------------------------------------------------------------------ whole runs

  ghost predicate EventsRan(t0: Tables, t: Tables, done: set<int>, touched: set<int>) {
    && t.events.Keys == t0.events.Keys
    && forall e | e in t0.events ::
         if t0.events[e].issue in done
         then t.events[e] == t0.events[e].(issue := t.events[e].issue) && t.events[e].issue in touched && Homed(t, e)
         else t.events[e] == t0.events[e]
  }

  ghost predicate IssuesRan(t0: Tables, t: Tables, done: set<int>, touched: set<int>) {
    && (forall i | i in done :: i !in t.issues)
    && (forall i | i in touched :: i in t.issues && !Mixed(t.issues[i]))
    && (forall i | i in t.issues && i !in touched :: i in t0.issues && t.issues[i] == t0.issues[i])
    && (forall i | i in t0.issues && i !in done ::
        i in t.issues && t.issues[i] == t0.issues[i].(stats := t.issues[i].stats))
    && (forall i | i in t0.hits && i !in done && i !in touched :: i in t.hits && t.hits[i] == t0.hits[i])
    && (forall i | i in t.hits && i !in touched :: i in t0.hits)
  }

  /** The probes of a done probe issue that had events moved to a touched issue, all of them
      to the same; those of another done issue have none; all others are as they were. */
  ghost predicate ProbesRan(t0: Tables, t: Tables, done: set<int>, touched: set<int>) {
    && t.probes.Keys == t0.probes.Keys
    && (forall p | p in t0.probes ::
          if t0.probes[p].Some? && t0.probes[p].value in done
          then if Moving(t0, t0.probes[p].value) then t.probes[p].Some? && t.probes[p].value in touched
               else t.probes[p].None?
          else t.probes[p] == t0.probes[p])
    && forall p, q | p in t0.probes && q in t0.probes && t0.probes[p] == t0.probes[q] :: t.probes[p] == t.probes[q]
  }

  /** Each event of a done issue is in an issue keyed by its combination there. */
  ghost predicate KeyedRan(t0: Tables, t: Tables, done: set<int>, g: Grouping) {
    forall e | e in t0.events && t0.events[e].issue in done ::
      && e in t.events && t.events[e].issue in t.issues
      && Keyed(t0, t0.events[e].issue, ComboOf(t0.events[e]), t.issues[t.events[e].issue], g)
  }

  /** Each new issue was opened for a done one. */
  predicate NewRan(t0: Tables, t: Tables, done: set<int>) {
    forall i | i in t.issues && i !in t0.issues ::
      exists s :: s in done && s in t0.issues && LikeShell(t0.issues[s], t.issues[i])
  }

  /** What a run that got through the mixed issues `done` did to the tables. */
  ghost predicate Ran(t0: Tables, t: Tables, done: set<int>, touched: set<int>, g: Grouping) {
    && Sound(t, g)
    && (forall i | i in done :: i in t0.issues && Mixed(t0.issues[i]))
    && (done == {} ==> touched == {})
    && EventsRan(t0, t, done, touched)
    && IssuesRan(t0, t, done, touched)
    && ProbesRan(t0, t, done, touched)
    && KeyedRan(t0, t, done, g) && NewRan(t0, t, done)
    && forall i | i in touched :: Exact(t, i)
  }

  lemma {:induction false} EventsCompose(t0: Tables, t: Tables, t1: Tables, done: set<int>, touched: set<int>,
                                         shell: int, more: set<int>)
    requires EventsRan(t0, t, done, touched) && IssuesRan(t0, t, done, touched)
    requires EventsSplit(t, t1, shell, more) && IssuesSplit(t, t1, shell, more)
    requires shell !in done && shell !in touched
    ensures EventsRan(t0, t1, done + {shell}, touched + more)
  {
    forall e | e in t0.events
      ensures if t0.events[e].issue in done + {shell}
              then t1.events[e] == t0.events[e].(issue := t1.events[e].issue) && t1.events[e].issue in touched + more
                  && Homed(t1, e)
              else t1.events[e] == t0.events[e]
    {
      if t0.events[e].issue in done { assert Homed(t, e); }
    }
  }

  lemma {:induction false} IssuesCompose(t0: Tables, t: Tables, t1: Tables, done: set<int>, touched: set<int>,
                                         shell: int, more: set<int>)
    requires IssuesRan(t0, t, done, touched) && IssuesSplit(t, t1, shell, more) && shell !in t1.issues
    requires shell !in done && shell !in touched && done !! more
    ensures IssuesRan(t0, t1, done + {shell}, touched + more)
  {
    forall i | i in t0.issues && i !in done && i != shell
      ensures t1.issues[i] == t0.issues[i].(stats := t1.issues[i].stats) {
      assert t.issues[i] == t0.issues[i].(stats := t.issues[i].stats);
    }
  }

  /** The same events are filed under the issue in both. */
  ghost predicate SameOf(events: map<int, Event>, later: map<int, Event>, id: int) {
    && (forall e | e in events && events[e].issue == id :: e in later && later[e] == events[e])
    && forall e | e in later && later[e].issue == id :: e in events && events[e] == later[e]
  }

  lemma {:induction false} SetsCarry(events: map<int, Event>, later: map<int, Event>, id: int)
    requires SameOf(events, later, id)
    ensures EventsOf(later, id) == EventsOf(events, id)
    ensures UsersOf(later, id) == UsersOf(events, id)
    ensures forall u :: EventsBy(later, id, u) == EventsBy(events, id, u)
    ensures forall e | e in EventsOf(events, id) :: e in later && later[e] == events[e]
  {
    assert forall e :: e in EventsOf(later, id) <==> e in EventsOf(events, id);
    forall u ensures EventsBy(later, id, u) == EventsBy(events, id, u) {
      assert forall e :: e in EventsBy(later, id, u) <==> e in EventsBy(events, id, u);
    }
  }

  lemma {:induction false} SaysCarries(events: map<int, Event>, later: map<int, Event>, s: Stats,
                                       hits: map<string, Hit>, id: int)
    requires SameOf(events, later, id) && Says(events, s, hits, id)
    ensures Says(later, s, hits, id)
  {
    hide CountsSay, SpanSays, LastsSay, SameOf;
    CountsCarry(events, later, s, hits, id);
    SpanCarries(events, later, s, id);
    LastsCarry(events, later, hits, id);
  }

  lemma {:induction false} CountsCarry(events: map<int, Event>, later: map<int, Event>, s: Stats,
                                       hits: map<string, Hit>, id: int)
    requires SameOf(events, later, id) && CountsSay(events, s, hits, id)
    ensures CountsSay(later, s, hits, id)
  {
    SetsCarry(events, later, id);
    hide EventsOf, UsersOf, EventsBy, SameOf;
  }

  lemma {:induction false} SpanCarries(events: map<int, Event>, later: map<int, Event>, s: Stats, id: int)
    requires SameOf(events, later, id) && SpanSays(events, s, id)
    ensures SpanSays(later, s, id)
  {
    SetsCarry(events, later, id);
    hide SameOf;
  }

  lemma {:induction false} LastsCarry(events: map<int, Event>, later: map<int, Event>, hits: map<string, Hit>, id: int)
    requires SameOf(events, later, id) && LastsSay(events, hits, id)
    ensures LastsSay(later, hits, id)
  {
    forall u | u in hits ensures Latest(later, EventsBy(later, id, u), hits[u].last) {
      SetsCarry(events, later, id);
      assert Latest(events, EventsBy(events, id, u), hits[u].last);
      assert forall e | e in EventsBy(events, id, u) :: later[e] == events[e];
    }
  }

  lemma {:induction false} ExactCarries(t: Tables, t1: Tables, shell: int, more: set<int>, i: int)
    requires EventsSplit(t, t1, shell, more) && IssuesSplit(t, t1, shell, more)
    requires i in t.issues && i != shell && i !in more && Exact(t, i)
    ensures Exact(t1, i)
  {
    SaysCarries(t.events, t1.events, t.issues[i].stats, t.hits[i], i);
  }

  lemma {:induction false} ProbesCompose(t0: Tables, t: Tables, t1: Tables, done: set<int>, touched: set<int>,
                                         shell: int, more: set<int>)
    requires ProbesRan(t0, t, done, touched) && ProbesSplit(t, t1, shell, more) && shell !in touched && shell !in done
    requires Moving(t, shell) == Moving(t0, shell)
    ensures ProbesRan(t0, t1, done + {shell}, touched + more)
  {
    hide Moving, BusiestOf;
    var aim :| Aimed(t, t1.events, shell, more, aim) && t1.probes == Aiming(t.probes, shell, aim);
    assert aim.Some? ==> aim.value in more by { AimIn(t, t1.events, shell, more, aim); }
  }

  lemma {:induction false} AimIn(t0: Tables, events: map<int, Event>, shell: int, touched: set<int>, aim: Option<int>)
    requires Aimed(t0, events, shell, touched, aim)
    ensures aim.Some? ==> aim.value in touched
  {
  }

  /** Until its turn comes the newest events of an issue are those it had at first. */
  lemma {:induction false} SameKey(t0: Tables, t: Tables, shell: int, c: Combo, i: Issue, g: Grouping)
    requires shell in t0.issues && shell in t.issues && t.issues[shell] == t0.issues[shell]
    requires EventsOf(t.events, shell) == EventsOf(t0.events, shell)
    requires forall e | e in EventsOf(t0.events, shell) :: t.events[e] == t0.events[e]
    requires Keyed(t, shell, c, i, g)
    ensures Keyed(t0, shell, c, i, g)
  {
    var e :| Newest(t.events, shell, c, e)
      && i.fingerprint == g.compute(c.0, c.1, g.identity(t.issues[shell], t.events[e].payload));
    assert e in EventsOf(t.events, shell);
    forall d | d in t0.events && t0.events[d].issue == shell && ComboOf(t0.events[d]) == c
      ensures t0.events[d].at <= t0.events[e].at
    {
      assert d in EventsOf(t0.events, shell);
    }
    assert Newest(t0.events, shell, c, e);
  }

  lemma {:induction false} KeysCompose(t0: Tables, t: Tables, t1: Tables, done: set<int>, shell: int, more: set<int>,
                                       g: Grouping)
    requires KeyedRan(t0, t, done, g) && EventsKeyed(t, t1, shell, g)
    requires EventsSplit(t, t1, shell, more) && IssuesSplit(t, t1, shell, more)
    requires shell in t0.issues && shell in t.issues && t.issues[shell] == t0.issues[shell] && shell !in done
    requires EventsOf(t.events, shell) == EventsOf(t0.events, shell)
    requires forall e | e in EventsOf(t0.events, shell) :: t.events[e] == t0.events[e]
    requires forall e | e in t0.events && t0.events[e].issue in done :: t.events[e].issue != shell
    ensures KeyedRan(t0, t1, done + {shell}, g)
  {
    hide Newest, Homed;
    forall e | e in t0.events && t0.events[e].issue in done + {shell}
      ensures e in t1.events && t1.events[e].issue in t1.issues
      ensures Keyed(t0, t0.events[e].issue, ComboOf(t0.events[e]), t1.issues[t1.events[e].issue], g)
    {
      if t0.events[e].issue == shell {
        assert e in EventsOf(t0.events, shell);
        SameKey(t0, t, shell, ComboOf(t0.events[e]), t1.issues[t1.events[e].issue], g);
      } else {
        assert Keyed(t0, t0.events[e].issue, ComboOf(t0.events[e]), t.issues[t.events[e].issue], g);
      }
    }
  }

  lemma {:induction false} NewCompose(t0: Tables, t: Tables, t1: Tables, done: set<int>, shell: int, more: set<int>)
    requires NewRan(t0, t, done) && NewLike(t, t1, shell) && IssuesSplit(t, t1, shell, more)
    requires shell in t0.issues && t.issues[shell] == t0.issues[shell] && shell !in t1.issues
    ensures NewRan(t0, t1, done + {shell})
  {
    forall i | i in t1.issues && i !in t0.issues
      ensures exists s :: s in done + {shell} && s in t0.issues && LikeShell(t0.issues[s], t1.issues[i])
    {
      if i !in t.issues {
        assert shell in done + {shell} && LikeShell(t0.issues[shell], t1.issues[i]);
      } else {
        var s :| s in done && s in t0.issues && LikeShell(t0.issues[s], t.issues[i]);
        assert s in done + {shell} && LikeShell(t0.issues[s], t1.issues[i]);
      }
    }
  }

  /** One more transaction. */
  lemma {:induction false} RanStep(t0: Tables, t: Tables, t1: Tables, done: set<int>, touched: set<int>, shell: int,
                                   more: set<int>, g: Grouping)
    requires Ran(t0, t, done, touched, g) && Split(t, t1, shell, more, more, g)
    requires shell in t0.issues && Mixed(t0.issues[shell]) && shell !in done && done !! more
    ensures Ran(t0, t1, done + {shell}, touched + more, g)
  {
    hide EventsRan, IssuesRan, ProbesRan, KeyedRan, NewRan, EventsSplit, IssuesSplit, ProbesSplit, EventsKeyed, NewLike,
         Moving, Sound, Exact, EventsOf, Mixed;
    WaitingIsUntouched(t0, t, done, touched, shell);
    EventsCompose(t0, t, t1, done, touched, shell, more);
    IssuesCompose(t0, t, t1, done, touched, shell, more);
    ShellWaits(t0, t, done, touched, shell, g);
    MovingStill(t0, t, shell);
    ProbesCompose(t0, t, t1, done, touched, shell, more);
    StayedThere(t0, t, done, touched, shell);
    KeysCompose(t0, t, t1, done, shell, more, g);
    NewCompose(t0, t, t1, done, shell, more);
    forall i | i in touched && i !in more ensures Exact(t1, i) {
      ExactIsThere(t, i);
      ExactCarries(t, t1, shell, more, i);
    }
  }

  lemma {:induction false} MovingStill(t0: Tables, t: Tables, shell: int)
    requires shell in t0.issues && shell in t.issues && t.issues[shell] == t0.issues[shell]
    requires EventsOf(t.events, shell) == EventsOf(t0.events, shell)
    ensures Moving(t, shell) == Moving(t0, shell)
  {
    hide EventsOf;
  }

  lemma {:induction false} ExactIsThere(t: Tables, i: int)
    requires Exact(t, i)
    ensures i in t.issues
  {
  }

  lemma {:induction false} WaitingIsUntouched(t0: Tables, t: Tables, done: set<int>, touched: set<int>, shell: int)
    requires IssuesRan(t0, t, done, touched) && shell in t0.issues && Mixed(t0.issues[shell]) && shell !in done
    ensures shell !in touched
  {
  }

  lemma {:induction false} StayedThere(t0: Tables, t: Tables, done: set<int>, touched: set<int>, shell: int)
    requires EventsRan(t0, t, done, touched) && shell !in done && shell !in touched
    ensures forall e | e in EventsOf(t0.events, shell) :: t.events[e] == t0.events[e]
    ensures forall e | e in t0.events && t0.events[e].issue in done :: t.events[e].issue != shell
  {
  }

  lemma {:induction false} RanStart(t: Tables, g: Grouping)
    requires Sound(t, g)
    ensures Ran(t, t, {}, {}, g)
  {
  }

  /** Until its turn comes a mixed issue, and whether it has events, stay as they were. */
  lemma {:induction false} ShellWaits(t0: Tables, t: Tables, done: set<int>, touched: set<int>, shell: int, g: Grouping)
    requires Ran(t0, t, done, touched, g) && shell in t0.issues && Mixed(t0.issues[shell]) && shell !in done
    ensures shell in t.issues && t.issues[shell] == t0.issues[shell]
    ensures EventsOf(t.events, shell) == EventsOf(t0.events, shell)
  {
    assert forall e :: e in EventsOf(t.events, shell) <==> e in EventsOf(t0.events, shell);
  }

  function MixedOf(issues: map<int, Issue>): set<int> {
    set i | i in issues && Mixed(issues[i])
  }

  /** Events outside mixed issues are where they belong. */
  ghost predicate UnmixedHomed(t: Tables) {
    forall e | e in t.events && t.events[e].issue in t.issues && !Mixed(t.issues[t.events[e].issue]) :: Homed(t, e)
  }

  /** A finished run conserves every event, leaves no mixed issue, and files each event
      that had none under an issue of its own environment and platform. A probe keeps having
      an issue exactly where its mixed issue was of that kind and had events. */
  lemma {:induction false} RunSplits(t0: Tables, t: Tables, touched: set<int>, g: Grouping)
    requires Ran(t0, t, MixedOf(t0.issues), touched, g)
    ensures t.events.Keys == t0.events.Keys
    ensures forall e | e in t0.events :: t.events[e] == t0.events[e].(issue := t.events[e].issue)
    ensures MixedOf(t.issues) == {}
    ensures Sound(t0, g) && UnmixedHomed(t0) ==> forall e | e in t.events :: Homed(t, e)
    ensures forall i | i in touched :: Exact(t, i)
    ensures forall e | e in t0.events && t0.events[e].issue in MixedOf(t0.issues) ::
      e in t.events && t.events[e].issue in t.issues
      && Keyed(t0, t0.events[e].issue, ComboOf(t0.events[e]), t.issues[t.events[e].issue], g)
    ensures forall i | i in t.issues && i !in t0.issues ::
      exists s :: s in MixedOf(t0.issues) && LikeShell(t0.issues[s], t.issues[i])
    ensures forall p | p in t0.probes && t0.probes[p].Some? ::
      if t0.probes[p].value in MixedOf(t0.issues)
      then t.probes[p].Some? <==> Moving(t0, t0.probes[p].value) else t.probes[p] == t0.probes[p]
  {
    hide Moving;
    forall i | i in t.issues ensures !Mixed(t.issues[i]) {
      assert i in t0.issues && Mixed(t0.issues[i]) ==> i in MixedOf(t0.issues);
    }
    forall e | e in t0.events && t0.events[e].issue in t0.issues && !Mixed(t0.issues[t0.events[e].issue])
        && Homed(t0, e)
      ensures Homed(t, e)
    {
      assert t0.events[e].issue !in MixedOf(t0.issues);
    }
  }

  /** So two events of mixed issues end in one issue exactly where their projects and the
      fingerprints they are keyed by agree. */
  lemma {:induction false} OneIssueIff(t0: Tables, t: Tables, touched: set<int>, g: Grouping, e: int, f: int)
    requires Ran(t0, t, MixedOf(t0.issues), touched, g) && e in t0.events && f in t0.events
    requires t0.events[e].issue in MixedOf(t0.issues) && t0.events[f].issue in MixedOf(t0.issues)
    ensures e in t.events && f in t.events && t.events[e].issue in t.issues && t.events[f].issue in t.issues
    ensures var i, j := t.issues[t.events[e].issue], t.issues[t.events[f].issue];
      && Keyed(t0, t0.events[e].issue, ComboOf(t0.events[e]), i, g)
      && Keyed(t0, t0.events[f].issue, ComboOf(t0.events[f]), j, g)
      && (t.events[e].issue == t.events[f].issue <==>
            t0.issues[t0.events[e].issue].project == t0.issues[t0.events[f].issue].project
            && i.fingerprint == j.fingerprint)
  {
    hide Newest, Ran, MixedOf, Keyed, Sound, Exact, UnmixedHomed, LikeShell;
    RunSplits(t0, t, touched, g);
    KeyedInProject(t0, t0.events[e].issue, ComboOf(t0.events[e]), t.issues[t.events[e].issue], g);
    KeyedInProject(t0, t0.events[f].issue, ComboOf(t0.events[f]), t.issues[t.events[f].issue], g);
    SameIssueIff(t0, t, touched, g, t.events[e].issue, t.events[f].issue);
  }

  lemma {:induction false} KeyedInProject(t0: Tables, shell: int, c: Combo, i: Issue, g: Grouping)
    requires Keyed(t0, shell, c, i, g)
    ensures shell in t0.issues && i.project == t0.issues[shell].project
  {
  }

  lemma {:induction false} SameIssueIff(t0: Tables, t: Tables, touched: set<int>, g: Grouping, i: int, j: int)
    requires Ran(t0, t, MixedOf(t0.issues), touched, g) && i in t.issues && j in t.issues
    ensures i == j <==>
            t.issues[i].project == t.issues[j].project && t.issues[i].fingerprint == t.issues[j].fingerprint
  {
    hide EventsRan, IssuesRan, ProbesRan, KeyedRan, NewRan, MixedOf, Exact, Labelled;
    assert Unique(t.issues);
  }

  /** A run on tables without mixed issues changes nothing. */
  lemma {:induction false} NothingToSplit(t0: Tables, t: Tables, touched: set<int>, g: Grouping)
    requires Ran(t0, t, {}, touched, g)
    ensures t == t0
  {
    IdleIssues(t0, t);
    IdleEvents(t0, t);
  }

  lemma {:induction false} IdleIssues(t0: Tables, t: Tables)
    requires IssuesRan(t0, t, {}, {})
    ensures t.issues == t0.issues && t.hits == t0.hits
  {
    var none: set<int> := {};
    assert IssuesRan(t0, t, none, none);
    forall i ensures i in t.issues <==> i in t0.issues { assert i !in none; }
    forall i | i in t.issues ensures t.issues[i] == t0.issues[i] { assert i !in none; }
    forall i ensures i in t.hits <==> i in t0.hits { assert i !in none; }
    forall i | i in t.hits ensures t.hits[i] == t0.hits[i] { assert i !in none; }
    SameMaps(t.issues, t0.issues);
    SameMaps(t.hits, t0.hits);
  }

  lemma {:induction false} IdleEvents(t0: Tables, t: Tables)
    requires EventsRan(t0, t, {}, {}) && ProbesRan(t0, t, {}, {})
    ensures t.events == t0.events && t.probes == t0.probes
  {
    forall e | e in t.events ensures t.events[e] == t0.events[e] {}
    forall p | p in t.probes ensures t.probes[p] == t0.probes[p] {}
    SameMaps(t.events, t0.events);
    SameMaps(t.probes, t0.probes);
  }

  lemma {:induction false} SameMaps<K, V>(a: map<K, V>, b: map<K, V>)
    requires a.Keys == b.Keys && forall k | k in a :: a[k] == b[k]
    ensures a == b
  {
  }

  /** A second run changes nothing. */
  lemma {:induction false} SecondRunIsIdle(t0: Tables, t1: Tables, t2: Tables, touched: set<int>, again: set<int>,
                                           g: Grouping)
    requires Ran(t0, t1, MixedOf(t0.issues), touched, g) && Ran(t1, t2, MixedOf(t1.issues), again, g)
    ensures t2 == t1
  {
    RunSplits(t0, t1, touched, g);
    NothingToSplit(t1, t2, again, g);
  }

  /** Why the fingerprints must tell mixed issues apart: where a lookup finds the shell
      itself, its events go with it. */
  lemma {:induction false} MovedEventsSurviveIff(t: Tables, shell: int, c: Combo, target: int)
    requires exists e :: e in t.events && t.events[e].issue == shell
    requires forall e | e in t.events && t.events[e].issue == shell :: ComboOf(t.events[e]) == c
    ensures target != shell <==>
              DeleteIssue(t.(events := MoveEvents(t.events, shell, c, target)), shell).events.Keys == t.events.Keys
  {
    var e :| e in t.events && t.events[e].issue == shell;
    var left := DeleteIssue(t.(events := MoveEvents(t.events, shell, c, target)), shell).events;
    if target != shell {
      assert forall d :: d in left <==> d in t.events;
    } else {
      assert e !in left;
    }
  }
}
