/** `apps.rs` as it runs: one transaction's statements against the tables. */
module AppRegistry {
  import opened Prelude
  import opened Json
  import opened AppTables
  import opened AppDiscovery

  class Registry {
    var apps: map<int, App>
    var releases: map<int, Release>
    var links: map<(int, int), Link>
    var events: map<int, Row>
    var sessions: map<int, Row>
    var web: map<int, WebRow>
    const identify: Identify

    function Current(): Db
      reads this
    {
      Db(apps, releases, links, events, sessions, web)
    }

    constructor (identify: Identify)
      ensures Current() == Db(map[], map[], map[], map[], map[], map[]) && Sound(Current()) && this.identify == identify
    {
      apps, releases, links, events, sessions, web := map[], map[], map[], map[], map[], map[];
      this.identify := identify;
    }

    method ReleaseId(o: Observation) returns (id: Option<int>)
      requires Sound(Current())
      modifies this`releases
      ensures (Current(), id) == WithRelease(old(Current()), o)
    {
      if o.release == "" { return None; }
      if r :| r in releases && releases[r] == Release(o.project, o.release) { return Some(r); }
      releases := releases[o.newRelease := Release(o.project, o.release)];
      id := Some(o.newRelease);
    }

    /** `... ORDER BY has_explicit_identifier DESC LIMIT 2`. */
    method SelectTwo(candidates: set<int>) returns (rows: seq<(int, bool)>)
      requires candidates <= apps.Keys
      ensures TopTwo(rows, apps, candidates)
    {
      rows := [];
      var left := candidates;
      while left != {} && |rows| < 2
        invariant left <= candidates && |candidates| == |left| + |rows| && |rows| <= 2
        invariant forall i | 0 <= i < |rows| ::
          rows[i].0 in candidates && rows[i].0 !in left && rows[i].1 == apps[rows[i].0].isExplicit
        invariant |rows| == 2 ==> rows[0].0 != rows[1].0 && (rows[1].1 ==> rows[0].1)
        invariant forall a | a in candidates ::
            a in left || (|rows| > 0 && rows[0].0 == a) || (|rows| > 1 && rows[1].0 == a)
        invariant forall i, a | 0 <= i < |rows| && !rows[i].1 && a in left :: !apps[a].isExplicit
      {
        var a := FirstOf(left);
        rows, left := rows + [(a, apps[a].isExplicit)], left - {a};
      }
      forall i, a | 0 <= i < |rows| && !rows[i].1 && a in candidates && apps[a].isExplicit
        ensures exists j | 0 <= j < |rows| :: rows[j].0 == a
      {
        assert a !in left;
      }
    }

    /** The first row in the order: an explicit application if there is one. */
    method FirstOf(left: set<int>) returns (a: int)
      requires left != {} && left <= apps.Keys
      ensures a in left && (!apps[a].isExplicit ==> forall b | b in left :: !apps[b].isExplicit)
    {
      if b :| b in left && apps[b].isExplicit { a := b; } else { a := AnyOf(left); }
    }

    method InferredApp(project: int, platform: string, release: Option<int>, namespace: string) returns (r: Inference)
      ensures r == Inferred(Current(), project, platform, release, namespace, identify)
    {
      var linked := Linked(Current(), project, platform, release);
      var exact := SelectTwo(linked);
      LimitTwoIsRule(exact, apps, linked);
      if exact != [] { return Unambiguous(exact); }
      if namespace == "" { return Missing; }
      var related := Related(Current(), project, platform, namespace, identify);
      var rows := SelectTwo(related);
      LimitTwoIsRule(rows, apps, related);
      r := Unambiguous(rows);
    }

    method FindNamed(project: int, platform: string, identifier: string) returns (r: Option<int>)
      requires UniqueApps(apps)
      ensures r == Named(Current(), project, platform, identifier)
    {
      var db := Current();
      if a :| a in apps && IsNamed(db, project, platform, identifier, a) { return Some(a); }
      r := None;
    }

    method ResolveApp(o: Observation, release: Option<int>) returns (app: Option<int>, identifier: string)
      requires Sound(Current())
      modifies this`apps
      ensures Resolved(Current(), app, identifier) == Resolve(old(Current()), o, release, identify)
    {
      var isExplicit, fallback := identify("", o.payload) != "", identify(o.release, JNull);
      identifier := identify(o.release, o.payload);
      if !isExplicit {
        var inferred := InferredApp(o.project, o.platform, release, fallback);
        match inferred
        case Known(id) => return Some(id), identifier;
        case Ambiguous => identifier := "";
        case Missing =>
      }
      app := FindNamed(o.project, o.platform, identifier);
      if app.Some? || !isExplicit { return; }
      var prior := FindNamed(o.project, o.platform, fallback);
      if prior.Some? && release.Some?
         && Refinable(Current(), o.project, o.platform, fallback, release.value, prior.value)
         && !Claimed(Current(), o.project, o.platform, fallback, release.value, None, identify)
      {
        apps := apps[prior.value := apps[prior.value].(identifier := identifier)];
        app := prior;
      }
    }

    /** `link_release`: insert, or raise the last sight of what is there. An upload is no
        sight: it links without a time. */
    method LinkRelease(app: int, release: int, now: int, telemetry: bool)
      modifies this`links
      ensures links.Keys == old(links).Keys + {(app, release)}
      ensures forall k | k in old(links) && k != (app, release) :: links[k] == old(links)[k]
      ensures (app, release) !in old(links) ==>
        links[(app, release)].firstSeen == now
            && (links[(app, release)].lastSeen == if telemetry then Some(now) else None)
      ensures (app, release) in old(links) ==>
        var was, kept := old(links)[(app, release)], links[(app, release)];
        && kept.firstSeen == was.firstSeen && NotAfter(was.lastSeen, kept.lastSeen)
        && (telemetry ==> NotAfter(Some(now), kept.lastSeen))
        && (kept.lastSeen == was.lastSeen || (telemetry && kept.lastSeen == Some(now)))
      ensures links == WithLink(old(links), app, release, now, telemetry)
    {
      var key, seen := (app, release), if telemetry then Some(now) else None;
      if key !in links {
        links := links[key := Link(now, seen)];
      } else {
        links := links[key := links[key].(lastSeen := Later(seen, links[key].lastSeen))];
      }
    }

    method MergeInferredApp(project: int, platform: string, fallback: string, release: int, app: int)
      requires Sound(Current()) && app in apps
      modifies this
      ensures Current() == MergeInferred(old(Current()), project, platform, fallback, release, app, identify)
    {
      var found := FindNamed(project, platform, fallback);
      if found.None? || !Mergeable(Current(), project, platform, fallback, release, found.value, app, identify) {
        return;
      }
      Absorb(app, found.value);
    }

    /** The five statements of a merge. */
    method Absorb(app: int, alias: int)
      requires app in apps && alias in apps && app != alias
      modifies this
      ensures Current() == Merged(old(Current()), app, alias)
    {
      TakeOverLinks(links, app, alias);
      TakeOverApps(apps, app, alias);
      apps := apps[app := MergedApp(apps[app], apps[alias])];
      links := TakenOver(links, app, alias);
      events := Repointed(events, app, alias);
      sessions := Repointed(sessions, app, alias);
      // the delete, with the links and the web rows that reference the row
      apps := apps - {alias};
      web := Remaining(web, alias);
      links := map k | k in links && k.0 != alias :: links[k];
    }

    method Accept(o: Observation, existing: Option<int>, identifier: string, isExplicit: bool) returns (app: int)
      requires existing.Some? ==> existing.value in apps
      modifies this`apps
      ensures (Current(), app) == Accepted(Resolved(old(Current()), existing, identifier), o, isExplicit)
    {
      if existing.Some? {
        app := existing.value;
        apps := apps[app := Touched(apps[app], o, isExplicit)];
      } else {
        app := o.newApp;
        apps := apps[app := NewApp(o, identifier, isExplicit)];
      }
    }

    method ObserveOne(o: Observation) returns (app: int)
      requires Sound(Current()) && Fresh(Current(), o)
      modifies this
      ensures Outcome(Current(), app) == Observe(old(Current()), o, identify)
    {
      ghost var before := Current();
      hide Sound, Resolve, Attached, KeepsExplicit, Placeholder, Accepted, WithRelease, IsNamed;
      ReleaseKept(before, o);
      var version := ReleaseId(o);
      var identifying := if Placeholder(o.release) then None else version;
      var isExplicit := identify("", o.payload) != "";
      app := ResolveOrInsert(o, identifying, isExplicit);
      Attach(o, app, version, isExplicit && identifying.Some?);
    }

    /** The application of an observation, touched or inserted. */
    method ResolveOrInsert(o: Observation, release: Option<int>, isExplicit: bool) returns (app: int)
      requires Sound(Current()) && o.newApp !in apps && isExplicit == (identify("", o.payload) != "")
      modifies this`apps
      ensures (Current(), app) == Accepted(Resolve(old(Current()), o, release, identify), o, isExplicit)
      ensures Sound(Current()) && app in apps && apps[app].project == o.project && apps[app].platform == o.platform
    {
      hide Sound, Resolve, KeepsExplicit, Accepted, IsNamed;
      ResolveKeeps(Current(), o, release, identify);
      ghost var r := Resolve(Current(), o, release, identify);
      var existing, identifier := ResolveApp(o, release);
      app := Accept(o, existing, identifier, isExplicit);
      AcceptedKeeps(r, o, isExplicit);
    }

    method Attach(o: Observation, app: int, version: Option<int>, merge: bool)
      requires Sound(Current()) && app in apps && apps[app].project == o.project && apps[app].platform == o.platform
      requires version.Some? ==> version.value in releases && releases[version.value].project == o.project
      modifies this
      ensures Current() == Attached(old(Current()), o, app, version, merge, identify)
    {
      if version.None? { return; }
      LinkKeeps(Current(), app, version.value, o.now, !o.source.Artifact?);
      LinkRelease(app, version.value, o.now, !o.source.Artifact?);
      if merge { MergeInferredApp(o.project, o.platform, identify(o.release, JNull), version.value, app); }
    }

    /** `observe_artifact`: a native format names its platform, and is an
        observation only when the build has no application there yet. */
    method ObserveArtifact(release: int, kind: string, now: int, newApp: int, newRelease: int)
      requires Sound(Current()) && release in releases
      requires newApp !in apps && newRelease !in releases
      modifies this
      ensures Sound(Current()) && KeepsExplicit(old(apps), apps)
      ensures kind != "dsym" && kind != "proguard" ==> Current() == old(Current())
      ensures kind == "dsym" || kind == "proguard" ==>
        var platform := if kind == "dsym" then "ios" else "android";
        var known := exists k | k in old(links) ::
            k.1 == release && k.0 in old(apps) && old(apps)[k.0].platform == platform;
        Current() == if known then old(Current())
          else Observe(old(Current()), ArtifactOf(old(releases)[release], platform, now, newApp, newRelease),
                       identify).db
    {
      if kind != "dsym" && kind != "proguard" { return; }
      var platform := if kind == "dsym" then "ios" else "android";
      if exists k | k in links :: k.1 == release && k.0 in apps && apps[k.0].platform == platform { return; }
      ObserveKeeps(Current(), ArtifactOf(releases[release], platform, now, newApp, newRelease), identify);
      var _ := ObserveOne(ArtifactOf(releases[release], platform, now, newApp, newRelease));
    }
  }

  function ArtifactOf(r: Release, platform: string, now: int, newApp: int, newRelease: int): Observation {
    Observation(r.project, platform, r.name, JNull, Artifact, now, newApp, newRelease, 0)
  }

  /** `INSERT ... SELECT ... ON CONFLICT DO UPDATE`: the alias's links under the survivor. */
  function TakenOver(links: map<(int, int), Link>, t: int, a: int): map<(int, int), Link>
  {
    var moved := set l | l in links && l.0 == a :: (t, l.1);
    map k | k in links.Keys + moved ::
        if k in moved && (a, k.1) in links then MergedLink(links, t, a, k.1) else links[k]
  }

  lemma {:induction false} TakeOverApps(apps: map<int, App>, t: int, a: int)
    requires t in apps && a in apps && t != a
    ensures apps[t := MergedApp(apps[t], apps[a])] - {a}
         == map x | x in apps && x != a :: if x == t then MergedApp(apps[t], apps[a]) else apps[x]
  {
  }

  lemma {:induction false} TakeOverLinks(links: map<(int, int), Link>, t: int, a: int)
    requires t != a
    ensures var taken := TakenOver(links, t, a);
      (map k | k in taken && k.0 != a :: taken[k]) == MergedLinks(links, t, a)
  {
    var moved := set l | l in links && l.0 == a :: (t, l.1);
    forall r: int ensures (t, r) in moved <==> (a, r) in links {
      if (a, r) in links { assert (a, r).0 == a; }
    }
    var taken := TakenOver(links, t, a);
    var want := MergedLinks(links, t, a);
    forall k | k in want ensures k in taken && taken[k] == want[k] {
      var (x, r) := k;
      assert k == (x, r);
    }
  }
}
