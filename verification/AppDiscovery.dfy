/** `apps.rs`: what every observation keeps, over any sequence of them. */
module AppDiscovery {
  import opened Prelude
  import opened Json
  import opened AppTables
  import Runs

  ghost predicate Fresh(db: Db, o: Observation) {
    o.newApp !in db.apps && o.newRelease !in db.releases
  }

  ghost predicate NotAfter(a: Option<int>, b: Option<int>) {
    a.None? || (b.Some? && a.value <= b.value)
  }

  predicate Sticks<T(==)>(before: Option<T>, after: Option<T>) {
    before.Some? ==> after == before
  }

  /** Times of sight only advance, the time of creation only recedes, and what an
      operator has filled in stays. */
  ghost predicate Advances(before: App, after: App) {
    && NotAfter(before.lastEventAt, after.lastEventAt) && NotAfter(before.lastSessionAt, after.lastSessionAt)
    && after.createdAt <= before.createdAt && before.version <= after.version
    && Sticks(before.name, after.name) && Sticks(before.repository, after.repository)
    && Sticks(KnownKind(before.kind), KnownKind(after.kind))
  }

  /** Explicit applications survive under the same name, and lose nothing. */
  ghost predicate KeepsExplicit(before: map<int, App>, after: map<int, App>) {
    forall a | a in before && before[a].isExplicit ::
      && a in after && after[a].isExplicit
      && after[a].project == before[a].project && after[a].platform == before[a].platform
      && after[a].identifier == before[a].identifier && Advances(before[a], after[a])
  }

  lemma {:induction false} ExplicitComposes(a: map<int, App>, b: map<int, App>, c: map<int, App>)
    requires KeepsExplicit(a, b) && KeepsExplicit(b, c)
    ensures KeepsExplicit(a, c)
  {
  }

  lemma RuleIsCandidate(apps: map<int, App>, candidates: set<int>)
    requires candidates <= apps.Keys && Rule(apps, candidates).Known?
    ensures Rule(apps, candidates).id in candidates
  {
    if |candidates| == 1 {
      assert Only(candidates) in candidates;
    } else {
      assert |Explicit(apps, candidates)| != 0;
      assert Only(Explicit(apps, candidates)) in Explicit(apps, candidates);
    }
  }

  lemma ReleaseKept(db: Db, o: Observation)
    requires Sound(db) && Fresh(db, o)
    ensures var (db', r) := WithRelease(db, o);
      && Sound(db') && db' == db.(releases := db'.releases)
      && (r.Some? <==> o.release != "")
      && (r.Some? ==> r.value in db'.releases && db'.releases[r.value] == Release(o.project, o.release))
  {
  }

  lemma {:induction false} RenameSound(db: Db, a: int, project: int, platform: string, name: string)
    requires Sound(db) && a in db.apps && db.apps[a].project == project && db.apps[a].platform == platform
    requires forall b :: !IsNamed(db, project, platform, name, b)
    ensures Sound(db.(apps := db.apps[a := db.apps[a].(identifier := name)]))
  {
    forall b | b in db.apps && db.apps[b].project == project && db.apps[b].platform == platform
      ensures db.apps[b].identifier != name
    {
      assert !IsNamed(db, project, platform, name, b);
    }
  }

  lemma {:induction false} ResolveKeeps(db: Db, o: Observation, release: Option<int>, identify: Identify)
    requires Sound(db)
    ensures var r := Resolve(db, o, release, identify);
      var isExplicit := identify("", o.payload) != "";
      && Sound(r.db) && KeepsExplicit(db.apps, r.db.apps)
      && r.db == db.(apps := r.db.apps) && r.db.apps.Keys == db.apps.Keys
      && (isExplicit ==> r.identifier == identify(o.release, o.payload))
      && (r.app.Some? ==>
            && r.app.value in r.db.apps
            && r.db.apps[r.app.value].project == o.project && r.db.apps[r.app.value].platform == o.platform
            && (isExplicit ==> r.db.apps[r.app.value].identifier == r.identifier))
      && (r.app.None? ==> r.db == db && forall a :: !IsNamed(db, o.project, o.platform, r.identifier, a))
  {
    var isExplicit := identify("", o.payload) != "";
    var fallback := identify(o.release, JNull);
    if !isExplicit {
      var inferred := Inferred(db, o.project, o.platform, release, fallback, identify);
      if inferred.Known? {
        if Linked(db, o.project, o.platform, release) != {} {
          RuleIsCandidate(db.apps, Linked(db, o.project, o.platform, release));
        } else {
          RuleIsCandidate(db.apps, Related(db, o.project, o.platform, fallback, identify));
        }
      }
    } else {
      var name := identify(o.release, o.payload);
      var prior := Named(db, o.project, o.platform, fallback);
      if Named(db, o.project, o.platform, name).None? && prior.Some? {
        RenameSound(db, prior.value, o.project, o.platform, name);
      }
    }
  }

  lemma {:induction false} InsertSound(db: Db, a: int, app: App)
    requires Sound(db) && a !in db.apps
    requires forall b :: !IsNamed(db, app.project, app.platform, app.identifier, b)
    ensures Sound(db.(apps := db.apps[a := app]))
  {
    forall b | b in db.apps && db.apps[b].project == app.project && db.apps[b].platform == app.platform
      ensures db.apps[b].identifier != app.identifier
    {
      assert !IsNamed(db, app.project, app.platform, app.identifier, b);
    }
  }

  // -------------------------------------------------------------------- merge

  /** A merge loses no event and no session: they are the same rows, each moved
      from the alias to the survivor and otherwise untouched; the survivor's
      releases are the union of both, first seen at the earlier and last seen at
      the later time; the alias and its links are gone, all others as before.
      `MergeDropsWeb` says what it does to the web tables. */
  lemma {:induction false} MergeConserves(db: Db, t: int, a: int)
    requires Sound(db) && t in db.apps && a in db.apps && t != a
    ensures var m := Merged(db, t, a);
      && m.apps.Keys == db.apps.Keys - {a} && m.releases == db.releases
      && m.events.Keys == db.events.Keys && m.sessions.Keys == db.sessions.Keys
      && (forall e | e in db.events ::
            m.events[e] == if db.events[e].app == Some(a) then db.events[e].(app := Some(t)) else db.events[e])
      && (forall e | e in db.sessions ::
            m.sessions[e] == if db.sessions[e].app == Some(a) then db.sessions[e].(app := Some(t)) else db.sessions[e])
      && LinksOf(m, t) == LinksOf(db, t) + LinksOf(db, a) && LinksOf(m, a) == {}
      && (forall x | x != t && x != a :: LinksOf(m, x) == LinksOf(db, x))
      && (forall k | k in m.links && k.0 != t :: m.links[k] == db.links[k])
      && (forall r | r in LinksOf(m, t) ::
            && ((t, r) in db.links ==> m.links[(t, r)].firstSeen <= db.links[(t, r)].firstSeen)
            && ((a, r) in db.links ==> m.links[(t, r)].firstSeen <= db.links[(a, r)].firstSeen)
            && (m.links[(t, r)].firstSeen == db.links[(if (t, r) in db.links then t else a, r)].firstSeen
                || ((a, r) in db.links && m.links[(t, r)].firstSeen == db.links[(a, r)].firstSeen))
            && ((t, r) in db.links ==> NotAfter(db.links[(t, r)].lastSeen, m.links[(t, r)].lastSeen))
            && ((a, r) in db.links ==> NotAfter(db.links[(a, r)].lastSeen, m.links[(t, r)].lastSeen))
            && (m.links[(t, r)].lastSeen == db.links[(if (t, r) in db.links then t else a, r)].lastSeen
                || ((a, r) in db.links && m.links[(t, r)].lastSeen == db.links[(a, r)].lastSeen)))
  {
    var m := Merged(db, t, a);
    LinkKeys(db, t, a);
  }

  /** The web tables are not moved: the delete takes the alias's rows, and the runs of its
      checks, and a merge leaves them all exactly when none is the alias's. */
  lemma {:induction false} MergeDropsWeb(db: Db, t: int, a: int)
    requires t in db.apps && a in db.apps && t != a
    ensures var m := Merged(db, t, a);
      && (forall w :: w in m.web <==> w in db.web && !FallsWith(db.web, a, w))
      && (forall w | w in m.web :: m.web[w] == db.web[w])
      && (m.web == db.web <==> forall w | w in db.web :: db.web[w].app != a)
  {
    var m := Remaining(db.web, a);
    if w :| w in db.web && db.web[w].app == a {
      assert FallsWith(db.web, a, w) && w !in m;
    }
  }

  lemma {:induction false} LinkKeys(db: Db, t: int, a: int)
    requires t in db.apps && a in db.apps && t != a
    ensures var m := Merged(db, t, a);
      && (forall x, r :: (x, r) in m.links <==>
            x != a && ((x, r) in db.links || (x == t && (a, r) in db.links)))
      && LinksOf(m, t) == LinksOf(db, t) + LinksOf(db, a) && LinksOf(m, a) == {}
      && (forall x | x != t && x != a :: LinksOf(m, x) == LinksOf(db, x))
  {
    var m := Merged(db, t, a);
    var moved := set l | l in db.links && l.0 == a :: (t, l.1);
    forall x, r ensures (x, r) in m.links <==> x != a && ((x, r) in db.links || (x == t && (a, r) in db.links)) {
      assert (x, r) in moved <==> x == t && (a, r) in db.links by {
        if (x, r) in moved {
          var l :| l in db.links && l.0 == a && (t, l.1) == (x, r);
          assert l == (a, r);
        }
        if x == t && (a, r) in db.links { assert (a, r).0 == a; }
      }
    }
    forall x, r ensures r in LinksOf(m, x) <==> (x, r) in m.links { InLinks(m, x, r); }
    forall x, r ensures r in LinksOf(db, x) <==> (x, r) in db.links { InLinks(db, x, r); }
  }

  lemma InLinks(db: Db, x: int, r: int)
    ensures r in LinksOf(db, x) <==> (x, r) in db.links
  {
    if (x, r) in db.links { assert (x, r).0 == x && (x, r).1 == r; }
  }

  lemma {:induction false} MergeSound(db: Db, t: int, a: int)
    requires Sound(db) && t in db.apps && a in db.apps && t != a
    requires db.apps[t].project == db.apps[a].project && db.apps[t].platform == db.apps[a].platform
    ensures Sound(Merged(db, t, a))
  {
    var m := Merged(db, t, a);
    LinkKeys(db, t, a);
    forall k | k in m.links
      ensures k.0 in m.apps && k.1 in m.releases && m.apps[k.0].project == m.releases[k.1].project
    {
      var (x, r) := k;
      assert (x, r) in db.links || (x == t && (a, r) in db.links);
    }
  }

  /** The merge step as `observe` takes it: sound, and explicit identities kept. */
  lemma {:induction false} MergeStepKeeps(db: Db, project: int, platform: string, fallback: string, release: int,
                                          t: int, identify: Identify)
    requires Sound(db) && t in db.apps && db.apps[t].project == project && db.apps[t].platform == platform
    ensures var m := MergeInferred(db, project, platform, fallback, release, t, identify);
      && Sound(m) && KeepsExplicit(db.apps, m.apps)
      && t in m.apps && m.apps[t].project == project && m.apps[t].platform == platform
      && m.apps[t].identifier == db.apps[t].identifier && m.apps[t].isExplicit == db.apps[t].isExplicit
  {
    var a := Named(db, project, platform, fallback);
    if a.Some? && Mergeable(db, project, platform, fallback, release, a.value, t, identify) {
      MergeableSays(db, project, platform, fallback, release, a.value, t, identify);
      MergeSound(db, t, a.value);
      MergeKeepsExplicit(db, t, a.value);
    }
    hide Sound, KeepsExplicit, Named, Mergeable, Merged;
  }

  lemma {:induction false} MergeableSays(db: Db, project: int, platform: string, fallback: string, release: int, a: int,
                                         t: int, identify: Identify)
    requires Mergeable(db, project, platform, fallback, release, a, t, identify)
    ensures IsNamed(db, project, platform, fallback, a) && !db.apps[a].isExplicit && t in db.apps && a != t
  {
  }

  lemma {:induction false} MergeKeepsExplicit(db: Db, t: int, a: int)
    requires t in db.apps && a in db.apps && t != a && !db.apps[a].isExplicit
    ensures var m := Merged(db, t, a);
      && KeepsExplicit(db.apps, m.apps) && t in m.apps
      && m.apps[t].project == db.apps[t].project && m.apps[t].platform == db.apps[t].platform
      && m.apps[t].identifier == db.apps[t].identifier && m.apps[t].isExplicit == db.apps[t].isExplicit
  {
    hide MergedLinks, Repointed;
  }

  // -------------------------------------------------------------- observations

  /** One observation: constraints kept, explicit identities neither renamed nor
      deleted, and an application of the right project and platform returned,
      carrying the identifier when that was explicit. */
  lemma {:induction false} ObserveKeeps(db: Db, o: Observation, identify: Identify)
    requires Sound(db) && Fresh(db, o)
    ensures var r := Observe(db, o, identify);
      && Sound(r.db) && KeepsExplicit(db.apps, r.db.apps)
      && r.app in r.db.apps && r.db.apps[r.app].project == o.project && r.db.apps[r.app].platform == o.platform
      && (identify("", o.payload) != "" ==>
            r.db.apps[r.app].isExplicit && r.db.apps[r.app].identifier == identify(o.release, o.payload))
  {
    hide Sound, Resolve, KeepsExplicit, Accepted, WithRelease, Placeholder, Attached;
    var (db1, release) := WithRelease(db, o);
    ReleaseKept(db, o);
    var identifying := if Placeholder(o.release) then None else release;
    var isExplicit := identify("", o.payload) != "";
    ResolveKeeps(db1, o, identifying, identify);
    var r := Resolve(db1, o, identifying, identify);
    var (db2, app) := Accepted(r, o, isExplicit);
    AcceptedKeeps(r, o, isExplicit);
    ExplicitComposes(db.apps, r.db.apps, db2.apps);
    AttachedKeeps(db2, o, app, release, isExplicit && identifying.Some?, identify);
    ExplicitComposes(db.apps, db2.apps, Attached(db2, o, app, release, isExplicit && identifying.Some?, identify).apps);
  }

  lemma {:induction false} AttachedKeeps(db: Db, o: Observation, app: int, release: Option<int>, merge: bool,
                                         identify: Identify)
    requires Sound(db) && app in db.apps && db.apps[app].project == o.project && db.apps[app].platform == o.platform
    requires release.Some? ==> release.value in db.releases && db.releases[release.value].project == o.project
    ensures var r := Attached(db, o, app, release, merge, identify);
      && Sound(r) && KeepsExplicit(db.apps, r.apps)
      && app in r.apps && r.apps[app].project == o.project && r.apps[app].platform == o.platform
      && r.apps[app].identifier == db.apps[app].identifier && r.apps[app].isExplicit == db.apps[app].isExplicit
  {
    KeepsItself(db.apps);
    hide Sound, MergeInferred, WithLink, KeepsExplicit;
    if release.Some? {
      LinkKeeps(db, app, release.value, o.now, !o.source.Artifact?);
      var linked := db.(links := WithLink(db.links, app, release.value, o.now, !o.source.Artifact?));
      MergeStepKeeps(linked, o.project, o.platform, identify(o.release, JNull), release.value, app, identify);
    }
  }

  lemma {:induction false} KeepsItself(apps: map<int, App>)
    ensures KeepsExplicit(apps, apps)
  {
  }

  lemma {:induction false} AcceptedKeeps(r: Resolved, o: Observation, isExplicit: bool)
    requires Sound(r.db)
    requires r.app.Some? ==>
      && r.app.value in r.db.apps
      && r.db.apps[r.app.value].project == o.project && r.db.apps[r.app.value].platform == o.platform
      && (isExplicit ==> r.db.apps[r.app.value].identifier == r.identifier)
    requires r.app.None? ==> o.newApp !in r.db.apps && forall a ::
        !IsNamed(r.db, o.project, o.platform, r.identifier, a)
    ensures var (db, app) := Accepted(r, o, isExplicit);
      && Sound(db) && KeepsExplicit(r.db.apps, db.apps) && db == r.db.(apps := db.apps)
      && app in db.apps && db.apps[app].project == o.project && db.apps[app].platform == o.platform
      && (isExplicit ==> db.apps[app].isExplicit && db.apps[app].identifier == r.identifier)
  {
    if r.app.None? {
      InsertSound(r.db, o.newApp, NewApp(o, r.identifier, isExplicit));
    }
  }

  lemma {:induction false} LinkKeeps(db: Db, app: int, release: int, now: int, telemetry: bool)
    requires Sound(db) && app in db.apps && release in db.releases
        && db.apps[app].project == db.releases[release].project
    ensures Sound(db.(links := WithLink(db.links, app, release, now, telemetry)))
  {
  }

  ghost predicate IsExplicit(o: Observation, identify: Identify) {
    identify("", o.payload) != ""
  }

  ghost predicate Carries(apps: map<int, App>, a: int, project: int, platform: string, identifier: string) {
    && a in apps && apps[a].isExplicit
    && apps[a].project == project && apps[a].platform == platform && apps[a].identifier == identifier
  }

  lemma {:induction false} FiledKeeps(db: Db, o: Observation, identify: Identify)
    requires Sound(db) && Fresh(db, o)
    ensures var r := Observe(db, o, identify);
      && Sound(Filed(db, o, identify)) && KeepsExplicit(db.apps, Filed(db, o, identify).apps)
      && (IsExplicit(o, identify) ==>
            Carries(Filed(db, o, identify).apps, r.app, o.project, o.platform, identify(o.release, o.payload)))
  {
    hide Observe, Sound, KeepsExplicit;
    ObserveKeeps(db, o, identify);
    RowKeeps(Observe(db, o, identify), o);
  }

  lemma {:induction false} RowKeeps(r: Outcome, o: Observation)
    requires Sound(r.db)
    requires r.app in r.db.apps && r.db.apps[r.app].project == o.project && r.db.apps[r.app].platform == o.platform
    ensures var row := Row(o.project, o.platform, Some(r.app));
      && Sound(r.db.(events := r.db.events[o.row := row]))
      && Sound(r.db.(sessions := r.db.sessions[o.row := row]))
  {
  }

  // ---------------------------------------------------------------- filed rows

  /** No row is dropped or moved to another project or platform, nor loses its application. */
  ghost predicate RowsKept(before: map<int, Row>, after: map<int, Row>) {
    forall e | e in before ::
      && e in after && after[e].project == before[e].project && after[e].platform == before[e].platform
      && (before[e].app.Some? ==> after[e].app.Some?)
  }

  ghost predicate AllRowsKept(before: Db, after: Db) {
    RowsKept(before.events, after.events) && RowsKept(before.sessions, after.sessions)
  }

  /** The row of an observation is the one its transaction has just inserted. */
  ghost predicate NewRow(db: Db, o: Observation) {
    (o.source.Event? ==> o.row !in db.events) && (o.source.Session? ==> o.row !in db.sessions)
  }

  predicate SameRows(a: Db, b: Db) {
    a.events == b.events && a.sessions == b.sessions
  }

  lemma {:induction false} ReleaseSameRows(db: Db, o: Observation)
    ensures SameRows(db, WithRelease(db, o).0)
  {
  }

  lemma {:induction false} ResolveSameRows(db: Db, o: Observation, release: Option<int>, identify: Identify)
    ensures SameRows(db, Resolve(db, o, release, identify).db)
  {
    hide Inferred, Named, Refinable, Claimed;
  }

  lemma {:induction false} AcceptedSameRows(r: Resolved, o: Observation, isExplicit: bool)
    ensures SameRows(r.db, Accepted(r, o, isExplicit).0)
  {
  }

  lemma {:induction false} AttachedRows(db: Db, o: Observation, app: int, release: Option<int>, merge: bool,
                                        identify: Identify)
    ensures AllRowsKept(db, Attached(db, o, app, release, merge, identify))
  {
    hide WithLink, Named, Mergeable;
  }

  /** Filing keeps every row filed before, and the new one is under its application. */
  lemma {:induction false} FiledRows(db: Db, o: Observation, identify: Identify)
    requires NewRow(db, o)
    ensures var f := Filed(db, o, identify); var row := Row(o.project, o.platform, Some(Observe(db, o, identify).app));
      && AllRowsKept(db, f)
      && (o.source.Event? ==> o.row in f.events && f.events[o.row] == row)
      && (o.source.Session? ==> o.row in f.sessions && f.sessions[o.row] == row)
  {
    ObservedRows(db, o, identify);
    hide Observe;
  }

  lemma {:induction false} ObservedRows(db: Db, o: Observation, identify: Identify)
    ensures AllRowsKept(db, Observe(db, o, identify).db)
  {
    hide WithRelease, Resolve, Accepted, Attached, RowsKept, Placeholder;
    var (db1, release) := WithRelease(db, o);
    var identifying := if Placeholder(o.release) then None else release;
    var isExplicit := identify("", o.payload) != "";
    var r := Resolve(db1, o, identifying, identify);
    var (db2, app) := Accepted(r, o, isExplicit);
    ReleaseSameRows(db, o);
    ResolveSameRows(db1, o, identifying, identify);
    AcceptedSameRows(r, o, isExplicit);
    AttachedRows(db2, o, app, release, isExplicit && identifying.Some?, identify);
  }

  // ------------------------------------------------------------ administrators

  /** What changes the tables: an observation filed, and the two administration
      requests of `handlers/admin/apps.rs`. */
  datatype Act =
    | Seen(o: Observation)
    | Created(project: int, platform: string, identifier: string, name: string, kind: string, now: int, newApp: int)
    | Edited(app: int, project: int, expected: int,
             setName: Option<string>, setRepository: Option<string>, setKind: Option<string>)

  /** An empty text clears, no text leaves as it is. */
  function Filled(text: Option<string>, was: Option<string>): Option<string> {
    if text.None? then was else if text.value == "" then None else text
  }

  function EditedApp(app: App, x: Act): App
    requires x.Edited?
  {
    app.(name := Filled(x.setName, app.name), repository := Filled(x.setRepository, app.repository),
         kind := Or(x.setKind, app.kind), version := app.version + 1)
  }

  ghost function Acted(db: Db, x: Act, identify: Identify): Db {
    match x
    case Seen(o) => Filed(db, o, identify)
    case Created(project, platform, identifier, name, kind, now, newApp) =>
      if Named(db, project, platform, identifier).Some? then db
      else db.(apps := db.apps[newApp :=
                 App(project, platform, identifier, true, Some(name), None, Some(kind), 1, now, None, None)])
    case Edited(app, project, expected, _, _, _) =>
      if app in db.apps && db.apps[app].project == project && db.apps[app].version == expected
      then db.(apps := db.apps[app := EditedApp(db.apps[app], x)])
      else db
  }

  /** Generated ids are new. */
  ghost predicate FreshAct(db: Db, x: Act) {
    match x
    case Seen(o) => Fresh(db, o) && NewRow(db, o)
    case Created(_, _, _, _, _, _, newApp) => newApp !in db.apps
    case Edited(_, _, _, _, _, _) => true
  }

  ghost predicate FreshSeen(db: Db, x: Act) {
    x.Seen? && FreshAct(db, x)
  }

  /** Explicit applications survive under the same name, and are seen ever later. */
  ghost predicate KeepsIdentities(before: map<int, App>, after: map<int, App>) {
    forall a | a in before && before[a].isExplicit ::
      && a in after && after[a].isExplicit
      && after[a].project == before[a].project && after[a].platform == before[a].platform
      && after[a].identifier == before[a].identifier
      && NotAfter(before[a].lastEventAt, after[a].lastEventAt)
      && NotAfter(before[a].lastSessionAt, after[a].lastSessionAt)
      && after[a].createdAt <= before[a].createdAt && before[a].version <= after[a].version
  }

  /** What every act respects, and what observations respect besides. */
  ghost predicate Continues(before: Db, after: Db) {
    KeepsIdentities(before.apps, after.apps) && AllRowsKept(before, after)
  }

  ghost predicate ContinuesSeen(before: Db, after: Db) {
    KeepsExplicit(before.apps, after.apps) && AllRowsKept(before, after)
  }

  lemma {:induction false} ExplicitIsIdentity(before: map<int, App>, after: map<int, App>)
    requires KeepsExplicit(before, after)
    ensures KeepsIdentities(before, after)
  {
  }

  lemma {:induction false} EditIsSound(db: Db, x: Act)
    requires Sound(db) && x.Edited? && x.app in db.apps
    ensures Sound(db.(apps := db.apps[x.app := EditedApp(db.apps[x.app], x)]))
  {
    hide Filled;
  }

  lemma {:induction false} EditKeeps(db: Db, x: Act, identify: Identify)
    requires Sound(db) && x.Edited?
    ensures Sound(Acted(db, x, identify)) && Continues(db, Acted(db, x, identify))
  {
    if x.app in db.apps { EditIsSound(db, x); }
    hide Sound, Filled;
  }

  lemma {:induction false} CreateKeeps(db: Db, x: Act, identify: Identify)
    requires Sound(db) && x.Created? && FreshAct(db, x)
    ensures Sound(Acted(db, x, identify)) && Continues(db, Acted(db, x, identify))
  {
    if Named(db, x.project, x.platform, x.identifier).None? {
      InsertSound(db, x.newApp, App(x.project, x.platform, x.identifier, true, Some(x.name), None, Some(x.kind), 1,
                                    x.now, None, None));
    }
  }

  predicate Sets(text: Option<string>, was: Option<string>, now: Option<string>) {
    match text
    case None => now == was
    case Some(t) => if t == "" then now.None? else now == Some(t)
  }

  /** Of two edits made from the same version of an application only the first applies; it
      sets what it says and nothing else. */
  lemma {:induction false} EditsExclude(db: Db, x: Act, y: Act, identify: Identify)
    requires x.Edited? && y.Edited? && x.app == y.app && x.expected == y.expected
    requires x.app in db.apps && db.apps[x.app].project == x.project && db.apps[x.app].version == x.expected
    ensures var t := Acted(db, x, identify);
      && Acted(t, y, identify) == t && t == db.(apps := db.apps[x.app := t.apps[x.app]])
      && var was, now := db.apps[x.app], t.apps[x.app];
         && Sets(x.setName, was.name, now.name) && Sets(x.setRepository, was.repository, now.repository)
         && now.kind == (if x.setKind.Some? then x.setKind else was.kind) && now.version == was.version + 1
         && now == was.(name := now.name, repository := now.repository, kind := now.kind, version := now.version)
  {
  }

  /** Every act keeps the constraints, explicit identities and filed rows; an observation
      also keeps what had been filled in. */
  lemma {:induction false} ActKeeps(db: Db, x: Act, identify: Identify)
    requires Sound(db) && FreshAct(db, x)
    ensures Sound(Acted(db, x, identify)) && Continues(db, Acted(db, x, identify))
    ensures x.Seen? ==> ContinuesSeen(db, Acted(db, x, identify))
  {
    match x
    case Seen(o) =>
      FiledKeeps(db, o, identify);
      FiledRows(db, o, identify);
      hide Sound, Filed, Fresh, NewRow, KeepsExplicit, KeepsIdentities, AllRowsKept;
      ExplicitIsIdentity(db.apps, Filed(db, o, identify).apps);
    case Created(_, _, _, _, _, _, _) => CreateKeeps(db, x, identify);
    case Edited(_, _, _, _, _, _) => EditKeeps(db, x, identify);
  }

  // ------------------------------------------------------------------- web rows

  ghost predicate Explicitly(apps: map<int, App>, a: int) {
    a in apps && apps[a].isExplicit
  }

  /** The row, and the check it ran, belong to explicit applications. */
  ghost predicate Anchored(db: Db, w: int) {
    && w in db.web && Explicitly(db.apps, db.web[w].app)
    && (db.web[w].check.Some? && db.web[w].check.value in db.web ==>
          Explicitly(db.apps, db.web[db.web[w].check.value].app))
  }

  /** Rows go, or stay as they are; those of explicit applications stay. */
  ghost predicate WebKept(before: Db, after: Db) {
    && (forall w | w in after.web :: w in before.web && after.web[w] == before.web[w])
    && forall w | Anchored(before, w) :: w in after.web
  }

  ghost predicate WebContinues(before: Db, after: Db) {
    KeepsIdentities(before.apps, after.apps) && WebKept(before, after)
  }

  /** At most the rows of one application that is not explicit are gone. */
  ghost predicate OnlyInferredGone(before: Db, after: Db) {
    after.web == before.web || exists a :: !Explicitly(before.apps, a) && after.web == Remaining(before.web, a)
  }

  lemma {:induction false} GoneIsWebKept(before: Db, after: Db)
    requires OnlyInferredGone(before, after)
    ensures WebKept(before, after)
  {
    if after.web != before.web {
      var a :| !Explicitly(before.apps, a) && after.web == Remaining(before.web, a);
      forall w | Anchored(before, w) ensures w in after.web {
        assert !FallsWith(before.web, a, w);
      }
    }
  }

  lemma {:induction false} SameRow(before: Db, after: Db, w: int)
    requires WebKept(before, after) && w in after.web
    ensures w in before.web && after.web[w] == before.web[w]
  {
  }

  lemma {:induction false} WebComposes(a: Db, b: Db, c: Db)
    requires WebContinues(a, b) && WebContinues(b, c)
    ensures WebKept(a, c)
  {
    forall w | Anchored(a, w) ensures w in c.web {
      SameRow(a, b, w);
      if b.web[w].check.Some? && b.web[w].check.value in b.web { SameRow(a, b, b.web[w].check.value); }
      assert Anchored(b, w);
    }
  }

  lemma {:induction false} MergeWeb(before: Db, db: Db, project: int, platform: string, fallback: string, release: int,
                                    t: int, identify: Identify)
    requires KeepsExplicit(before.apps, db.apps) && db.web == before.web
    ensures OnlyInferredGone(before, MergeInferred(db, project, platform, fallback, release, t, identify))
  {
    var a := Named(db, project, platform, fallback);
    if a.Some? && Mergeable(db, project, platform, fallback, release, a.value, t, identify) {
      MergeableSays(db, project, platform, fallback, release, a.value, t, identify);
      assert !Explicitly(before.apps, a.value);
    }
    hide Named, Mergeable, Remaining, IsNamed;
  }

  /** Only its merge touches the web tables in an observation. */
  lemma {:induction false} ObserveWeb(db: Db, o: Observation, identify: Identify)
    requires Sound(db) && Fresh(db, o)
    ensures OnlyInferredGone(db, Observe(db, o, identify).db)
  {
    hide Sound, Resolve, MergeInferred, WithLink, KeepsExplicit, Accepted, WithRelease, Placeholder;
    var (db1, release) := WithRelease(db, o);
    ReleaseKept(db, o);
    var identifying := if Placeholder(o.release) then None else release;
    var isExplicit := identify("", o.payload) != "";
    ResolveKeeps(db1, o, identifying, identify);
    var r := Resolve(db1, o, identifying, identify);
    var (db2, app) := Accepted(r, o, isExplicit);
    AcceptedKeeps(r, o, isExplicit);
    ExplicitComposes(db.apps, r.db.apps, db2.apps);
    if release.Some? && isExplicit && identifying.Some? {
      var db3 := db2.(links := WithLink(db2.links, app, release.value, o.now, !o.source.Artifact?));
      MergeWeb(db, db3, o.project, o.platform, identify(o.release, JNull), release.value, app, identify);
    }
  }

  lemma {:induction false} ActWeb(db: Db, x: Act, identify: Identify)
    requires Sound(db) && FreshAct(db, x)
    ensures WebContinues(db, Acted(db, x, identify))
  {
    ActKeeps(db, x, identify);
    if x.Seen? { ObserveWeb(db, x.o, identify); }
    hide Sound, Observe, KeepsIdentities, WebKept, Filled;
    GoneIsWebKept(db, Acted(db, x, identify));
  }

  // ---------------------------------------------------------------------- runs

  ghost function Acting(identify: Identify): (Db, Act) -> Db {
    (db, x) => Acted(db, x, identify)
  }

  ghost function Filing(identify: Identify): (Db, Act) -> int {
    (db: Db, x: Act) => if x.Seen? then Observe(db, x.o, identify).app else 0
  }

  ghost predicate FreshRun(db: Db, run: seq<Act>, identify: Identify) {
    Runs.Allowed(db, run, Acting(identify), FreshAct)
  }

  /** A run of observations alone. */
  ghost predicate SeenRun(db: Db, run: seq<Act>, identify: Identify) {
    Runs.Allowed(db, run, Acting(identify), FreshSeen)
  }

  /** The state before the `k`-th act of a run, in the order their transactions held the
      lock. */
  ghost function StateAt(db: Db, run: seq<Act>, k: nat, identify: Identify): Db
    requires k <= |run|
  {
    Runs.At(db, run, k, Acting(identify))
  }

  /** The application the `k`-th act, an observation, was filed under. */
  ghost function AppAt(db: Db, run: seq<Act>, k: nat, identify: Identify): int
    requires k < |run|
  {
    Filing(identify)(StateAt(db, run, k, identify), run[k])
  }

  lemma {:induction false} IdentitiesCompose(a: map<int, App>, b: map<int, App>, c: map<int, App>)
    requires KeepsIdentities(a, b) && KeepsIdentities(b, c)
    ensures KeepsIdentities(a, c)
  {
  }

  lemma {:induction false} RowsCompose(a: map<int, Row>, b: map<int, Row>, c: map<int, Row>)
    requires RowsKept(a, b) && RowsKept(b, c)
    ensures RowsKept(a, c)
  {
  }

  lemma {:induction false} ContinuingComposes()
    ensures Runs.Preorder(Continues) && Runs.Preorder(ContinuesSeen)
  {
    forall a: Db, b: Db, c: Db
      ensures Continues(a, a) && ContinuesSeen(a, a)
      ensures Continues(a, b) && Continues(b, c) ==> Continues(a, c)
      ensures ContinuesSeen(a, b) && ContinuesSeen(b, c) ==> ContinuesSeen(a, c)
    {
      Reflects(a);
      hide KeepsIdentities, RowsKept, KeepsExplicit;
      if KeepsIdentities(a.apps, b.apps) && KeepsIdentities(b.apps, c.apps) {
        IdentitiesCompose(a.apps, b.apps, c.apps);
      }
      if KeepsExplicit(a.apps, b.apps) && KeepsExplicit(b.apps, c.apps) { ExplicitComposes(a.apps, b.apps, c.apps); }
      if AllRowsKept(a, b) && AllRowsKept(b, c) {
        RowsCompose(a.events, b.events, c.events);
        RowsCompose(a.sessions, b.sessions, c.sessions);
      }
    }
  }

  lemma {:induction false} Reflects(a: Db)
    ensures Continues(a, a) && ContinuesSeen(a, a)
  {
  }

  lemma {:induction false} ActingKeeps(identify: Identify)
    ensures Runs.Keeps(Acting(identify), FreshAct, Sound) && Runs.Keeps(Acting(identify), FreshSeen, Sound)
    ensures Runs.Moves(Acting(identify), FreshAct, Sound, Continues)
    ensures Runs.Moves(Acting(identify), FreshSeen, Sound, ContinuesSeen)
  {
    hide Sound, FreshAct, Continues, ContinuesSeen, Acted;
    forall db: Db, x: Act | Sound(db) && FreshAct(db, x)
      ensures Sound(Acting(identify)(db, x)) && Continues(db, Acting(identify)(db, x))
      ensures x.Seen? ==> ContinuesSeen(db, Acting(identify)(db, x))
    {
      ActKeeps(db, x, identify);
    }
  }

  /** Every run keeps the constraints: identifiers unique per project and platform, links
      and rows attached to applications of their own. */
  lemma {:induction false} RunSound(db: Db, run: seq<Act>, k: nat, identify: Identify)
    requires Sound(db) && FreshRun(db, run, identify) && k <= |run|
    ensures Sound(StateAt(db, run, k, identify))
  {
    ActingKeeps(identify);
    Runs.Invariant(db, run, k, Acting(identify), FreshAct, Sound);
  }

  /** An application that has become explicit is never renamed or deleted again, nor made
      inferred, whatever is observed, created and edited; and no filed row is dropped. */
  lemma {:induction false} IdentitiesArePermanent(db: Db, run: seq<Act>, j: nat, k: nat, identify: Identify)
    requires Sound(db) && FreshRun(db, run, identify) && j <= k <= |run|
    ensures KeepsIdentities(StateAt(db, run, j, identify).apps, StateAt(db, run, k, identify).apps)
    ensures AllRowsKept(StateAt(db, run, j, identify), StateAt(db, run, k, identify))
  {
    ActingKeeps(identify);
    ContinuingComposes();
    hide Sound, FreshAct, KeepsIdentities, AllRowsKept;
    Runs.Progress(db, run, j, k, Acting(identify), FreshAct, Sound, Continues);
  }

  lemma {:induction false} ActingKeepsWeb(identify: Identify)
    ensures Runs.Moves(Acting(identify), FreshAct, Sound, WebContinues) && Runs.Preorder(WebContinues)
  {
    forall db: Db, x: Act | Sound(db) && FreshAct(db, x) ensures WebContinues(db, Acting(identify)(db, x)) {
      ActWeb(db, x, identify);
    }
    forall a: Db ensures WebContinues(a, a) {
      Reflects(a);
    }
    forall a: Db, b: Db, c: Db | WebContinues(a, b) && WebContinues(b, c) ensures WebContinues(a, c) {
      WebComposes(a, b, c);
      IdentitiesCompose(a.apps, b.apps, c.apps);
    }
  }

  /** Over every run no merge drops a visit, a check or a check's run that belongs to explicit
      applications; those of an inferred one go with it when it is merged away. */
  lemma {:induction false} ExplicitWebStays(db: Db, run: seq<Act>, j: nat, k: nat, identify: Identify)
    requires Sound(db) && FreshRun(db, run, identify) && j <= k <= |run|
    ensures WebKept(StateAt(db, run, j, identify), StateAt(db, run, k, identify))
  {
    ActingKeeps(identify);
    ActingKeepsWeb(identify);
    hide Sound, FreshAct, KeepsIdentities, WebKept, Runs.Moves, Runs.Preorder, Runs.Keeps;
    Runs.Progress(db, run, j, k, Acting(identify), FreshAct, Sound, WebContinues);
  }

  /** Where nobody edits, what had been filled in stays as well. */
  lemma {:induction false} ExplicitIsPermanent(db: Db, run: seq<Act>, j: nat, k: nat, identify: Identify)
    requires Sound(db) && SeenRun(db, run, identify) && j <= k <= |run|
    ensures KeepsExplicit(StateAt(db, run, j, identify).apps, StateAt(db, run, k, identify).apps)
  {
    ActingKeeps(identify);
    ContinuingComposes();
    hide Sound, FreshSeen, KeepsExplicit, AllRowsKept;
    Runs.Progress(db, run, j, k, Acting(identify), FreshSeen, Sound, ContinuesSeen);
  }

  lemma {:induction false} SameOrDifferent(early: map<int, App>, late: map<int, App>, a: int, b: int,
                                           p: int, f: string, n: string, q: int, g: string, m: string)
    requires UniqueApps(late) && KeepsIdentities(early, late)
    requires Carries(early, a, p, f, n) && Carries(late, b, q, g, m)
    ensures a == b <==> p == q && f == g && n == m
  {
  }

  ghost predicate SeenExplicit(x: Act, identify: Identify) {
    x.Seen? && IsExplicit(x.o, identify)
  }

  /** The application is explicit, and the one the observation names. */
  ghost predicate CarriesSeen(apps: map<int, App>, a: int, x: Act, identify: Identify)
    requires x.Seen?
  {
    Carries(apps, a, x.o.project, x.o.platform, identify(x.o.release, x.o.payload))
  }

  ghost predicate Names(step: (Db, Act) -> Db, filing: (Db, Act) -> int, inv: Db -> bool, identify: Identify) {
    forall d, x :: inv(d) && FreshAct(d, x) && SeenExplicit(x, identify) ==>
      CarriesSeen(step(d, x).apps, filing(d, x), x, identify)
  }

  lemma {:induction false} ActingNames(identify: Identify)
    ensures Names(Acting(identify), Filing(identify), Sound, identify)
  {
    forall d: Db, x: Act | Sound(d) && FreshAct(d, x) && SeenExplicit(x, identify)
      ensures CarriesSeen(Acting(identify)(d, x).apps, Filing(identify)(d, x), x, identify)
    {
      FiledKeeps(d, x.o, identify);
    }
  }

  lemma {:induction false} BothFiled(
    db: Db, run: seq<Act>, i: nat, j: nat, identify: Identify,
    step: (Db, Act) -> Db, filing: (Db, Act) -> int, inv: Db -> bool, rel: (Db, Db) -> bool)
    returns (early: Db, late: Db)
    requires inv(db) && Runs.Allowed(db, run, step, FreshAct) && Runs.Keeps(step, FreshAct, inv)
    requires Runs.Moves(step, FreshAct, inv, rel) && Runs.Preorder(rel)
    requires Names(step, filing, inv, identify)
    requires i < j < |run| && SeenExplicit(run[i], identify) && SeenExplicit(run[j], identify)
    ensures inv(late) && rel(early, late)
    ensures CarriesSeen(early.apps, filing(Runs.At(db, run, i, step), run[i]), run[i], identify)
    ensures CarriesSeen(late.apps, filing(Runs.At(db, run, j, step), run[j]), run[j], identify)
  {
    hide FreshAct, SeenExplicit, CarriesSeen, Names, Runs.Keeps, Runs.Moves, Runs.Preorder, Runs.Allowed, Runs.At;
    early := FiledOnce(db, run, i, identify, step, filing, inv);
    late := FiledOnce(db, run, j, identify, step, filing, inv);
    Runs.Progress(db, run, i + 1, j + 1, step, FreshAct, inv, rel);
  }

  lemma {:induction false} FiledOnce(
    db: Db, run: seq<Act>, i: nat, identify: Identify, step: (Db, Act) -> Db, filing: (Db, Act) -> int, inv: Db -> bool)
    returns (s: Db)
    requires inv(db) && Runs.Allowed(db, run, step, FreshAct) && Runs.Keeps(step, FreshAct, inv)
    requires Names(step, filing, inv, identify)
    requires i < |run| && SeenExplicit(run[i], identify)
    ensures s == Runs.At(db, run, i + 1, step) && inv(s) && run[i].Seen?
    ensures CarriesSeen(s.apps, filing(Runs.At(db, run, i, step), run[i]), run[i], identify)
  {
    assert run[i].Seen?;
    hide FreshAct, SeenExplicit, CarriesSeen, Runs.Keeps;
    s := Runs.At(db, run, i + 1, step);
    Runs.Invariant(db, run, i, step, FreshAct, inv);
    Runs.Invariant(db, run, i + 1, step, FreshAct, inv);
    assert FreshAct(Runs.At(db, run, i, step), run[i]);
  }

  /** Explicit identity is exact: two explicit observations of a run are filed under the
      same application exactly when project, platform and identifier are the same,
      whatever was observed, created and edited before and in between. */
  lemma {:induction false} ExplicitIdentityIsExact(db: Db, run: seq<Act>, i: nat, j: nat, identify: Identify)
    requires Sound(db) && FreshRun(db, run, identify)
    requires i < j < |run| && SeenExplicit(run[i], identify) && SeenExplicit(run[j], identify)
    ensures AppAt(db, run, i, identify) == AppAt(db, run, j, identify)
       <==> && run[i].o.project == run[j].o.project && run[i].o.platform == run[j].o.platform
            && identify(run[i].o.release, run[i].o.payload) == identify(run[j].o.release, run[j].o.payload)
  {
    ActingKeeps(identify);
    ContinuingComposes();
    ActingNames(identify);
    var early, late := BothFiled(db, run, i, j, identify, Acting(identify), Filing(identify), Sound, Continues);
    hide KeepsIdentities, AllRowsKept, Runs.Keeps, Runs.Moves, Runs.Preorder, Runs.Allowed, Names, Runs.At;
    SameOrDifferent(early.apps, late.apps, AppAt(db, run, i, identify), AppAt(db, run, j, identify),
                    run[i].o.project, run[i].o.platform, identify(run[i].o.release, run[i].o.payload),
                    run[j].o.project, run[j].o.platform, identify(run[j].o.release, run[j].o.payload));
  }
}
