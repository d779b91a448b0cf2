/** What an observation that names its application does: which one it is filed under, which
    inferred one that absorbs, and what of the two is kept. */
module AppAbsorption {
  import opened Prelude
  import opened Json
  import opened AppTables
  import opened AppDiscovery
  import opened AppInference

  /** The release can tell builds apart. */
  predicate RealRelease(o: Observation) {
    o.release != "" && !Placeholder(o.release)
  }

  /** Seen in this build, under the name its release alone gives it, and nobody has named it:
      a nameless one only where this is its only build. */
  ghost predicate SameBuild(db: Db, o: Observation, a: int, identify: Identify) {
    && OnSide(db, a, o.project, o.platform) && !db.apps[a].isExplicit
    && db.apps[a].identifier == identify(o.release, JNull)
    && SeenIn(db, a, o.project, o.release)
    && (db.apps[a].identifier == "" ==> forall r, s | (a, r) in db.links && (a, s) in db.links :: r == s)
  }

  /** Some other named application has this build, or a build of the same name. */
  ghost predicate BuildTaken(db: Db, o: Observation, except: Option<int>, identify: Identify) {
    var name := identify(o.release, JNull);
    exists b :: && OnSide(db, b, o.project, o.platform) && db.apps[b].isExplicit && except != Some(b)
                && (SeenIn(db, b, o.project, o.release) || (name != "" && SeenAs(db, b, name, identify)))
  }

  ghost predicate SameMetadata(db: Db, a: int, app: int) {
    a in db.apps && app in db.apps ==>
      && Agree(db.apps[a].name, db.apps[app].name) && Agree(db.apps[a].repository, db.apps[app].repository)
      && Agree(KnownKind(db.apps[a].kind), KnownKind(db.apps[app].kind))
  }

  lemma {:induction false} OnlyOneLink(db: Db, a: int, r: int)
    requires (a, r) in db.links
    ensures |LinksOf(db, a)| == 1 <==> forall s | (a, s) in db.links :: s == r
  {
    var links := LinksOf(db, a);
    forall s ensures s in links <==> (a, s) in db.links { InLinks(db, a, s); }
    Singleton(links, r);
    hide LinksOf;
    if |links| == 1 { assert links == {r}; }
    if forall s | (a, s) in db.links :: s == r { assert links == {r}; }
  }

  lemma {:induction false} RefinableIff(db: Db, o: Observation, a: int, identify: Identify)
    requires Sound(db) && Fresh(db, o) && o.release != ""
    ensures var (db1, release) := WithRelease(db, o);
      (Refinable(db1, o.project, o.platform, identify(o.release, JNull), release.value, a) <==>
       SameBuild(db, o, a, identify))
  {
    var (db1, release) := WithRelease(db, o);
    ReleaseKept(db, o);
    ReleaseIsBare(db, o);
    LinksAt(db);
    hide WithRelease, Sound, LinksOf;
    if (a, release.value) in db.links { OnlyOneLink(db1, a, release.value); }
    assert SeenIn(db, a, o.project, o.release) <==> (a, release.value) in db.links;
  }

  lemma {:induction false} ClaimedIff(db: Db, o: Observation, except: Option<int>, identify: Identify)
    requires Sound(db) && Fresh(db, o) && o.release != ""
    ensures var (db1, release) := WithRelease(db, o);
      Claimed(db1, o.project, o.platform, identify(o.release, JNull), release.value, except, identify)
      <==> BuildTaken(db, o, except, identify)
  {
    var (db1, release) := WithRelease(db, o);
    var name := identify(o.release, JNull);
    ReleaseKept(db, o);
    ReleaseIsBare(db, o);
    LinksAt(db);
    hide WithRelease, Sound;
    if Claimed(db1, o.project, o.platform, name, release.value, except, identify) {
      var k :| k in db1.links && k.0 in db1.apps && k.1 in db1.releases
        && db1.apps[k.0].project == o.project && db1.apps[k.0].platform == o.platform && db1.apps[k.0].isExplicit
        && except != Some(k.0) && (k.1 == release.value
            || (name != "" && identify(db1.releases[k.1].name, JNull) == name));
      var (b, r) := k;
      assert (b, r) in db.links && r in db.releases;
      assert OnSide(db, b, o.project, o.platform);
    }
    if BuildTaken(db, o, except, identify) {
      var b :| OnSide(db, b, o.project, o.platform) && db.apps[b].isExplicit && except != Some(b)
        && (SeenIn(db, b, o.project, o.release) || (name != "" && SeenAs(db, b, name, identify)));
      if SeenIn(db, b, o.project, o.release) {
        var r :| r in db.releases && (b, r) in db.links && db.releases[r] == Release(o.project, o.release);
        assert (b, r) in db1.links && (b, r).0 == b && (b, r).1 == release.value;
      } else {
        var r :| r in db.releases && (b, r) in db.links && identify(db.releases[r].name, JNull) == name;
        assert (b, r) in db1.links && (b, r).0 == b && (b, r).1 == r;
      }
    }
  }

  /** An observation that names its application is filed under the application of that name;
      where there is none, under the inferred one of the same build, if nobody else has that
      build, which takes the name; and else under a new one. */
  lemma {:induction false} LabelledGoesThere(db: Db, o: Observation, identify: Identify)
    requires Sound(db) && Fresh(db, o) && identify("", o.payload) != ""
    ensures var app := Observe(db, o, identify).app; var name := identify(o.release, o.payload);
      && (forall a | IsNamed(db, o.project, o.platform, name, a) :: app == a)
      && ((forall a :: !IsNamed(db, o.project, o.platform, name, a)) ==>
            if RealRelease(o) && !BuildTaken(db, o, None, identify) && exists a :: SameBuild(db, o, a, identify)
            then SameBuild(db, o, app, identify) else app == o.newApp)
  {
    var (db1, release) := WithRelease(db, o);
    var identifying := if Placeholder(o.release) then None else release;
    var name := identify(o.release, o.payload);
    ReleaseKept(db, o);
    ReleaseIsBare(db, o);
    ResolveKeeps(db1, o, identifying, identify);
    LabelledResolves(db1, o, identifying, identify);
    hide WithRelease, Sound, Resolve, SameBuild, BuildTaken, Claimed, Refinable, Placeholder, Accepted, Attached;
    var r := Resolve(db1, o, identifying, identify);
    AcceptedWhere(r, o, true);
    assert Observe(db, o, identify).app == if r.app.Some? then r.app.value else o.newApp;
    assert forall a :: IsNamed(db1, o.project, o.platform, name, a) <==> IsNamed(db, o.project, o.platform, name, a);
    if a :| IsNamed(db, o.project, o.platform, name, a) {
      OneOfAName(db, o, name, a);
    } else if RealRelease(o) {
      ClaimedIff(db, o, None, identify);
      forall a ensures
        Refinable(db1, o.project, o.platform, identify(o.release, JNull), release.value, a) <==>
        SameBuild(db, o, a, identify) {
        RefinableIff(db, o, a, identify);
      }
      RefinableIsNamed(db1, o, release.value, identify);
    }
  }

  lemma {:induction false} AcceptedWhere(r: Resolved, o: Observation, isExplicit: bool)
    requires r.app.Some? ==> r.app.value in r.db.apps
    ensures Accepted(r, o, isExplicit).1 == if r.app.Some? then r.app.value else o.newApp
  {
  }

  lemma {:induction false} RefinableIsNamed(db: Db, o: Observation, release: int, identify: Identify)
    requires Sound(db)
    ensures forall a | Refinable(db, o.project, o.platform, identify(o.release, JNull), release, a) ::
      Named(db, o.project, o.platform, identify(o.release, JNull)) == Some(a)
  {
    forall a | Refinable(db, o.project, o.platform, identify(o.release, JNull), release, a)
      ensures Named(db, o.project, o.platform, identify(o.release, JNull)) == Some(a)
    {
      OneOfAName(db, o, identify(o.release, JNull), a);
    }
  }

  lemma {:induction false} LabelledResolves(db1: Db, o: Observation, release: Option<int>, identify: Identify)
    requires identify("", o.payload) != ""
    ensures var name, fallback := identify(o.release, o.payload), identify(o.release, JNull);
      var existing, prior := Named(db1, o.project, o.platform, name), Named(db1, o.project, o.platform, fallback);
      Resolve(db1, o, release, identify).app ==
      if existing.Some? then existing
      else if prior.Some? && release.Some?
          && Refinable(db1, o.project, o.platform, fallback, release.value, prior.value)
              && !Claimed(db1, o.project, o.platform, fallback, release.value, None, identify)
      then prior else None
  {
    hide Named, Refinable, Claimed, Inferred;
  }

  // ------------------------------------------------------------------------ absorbing

  /** Apart from the application filed under and what it is linked to, the tables an
      observation merges over are those it found. */
  ghost predicate SameButFor(db: Db, t: Db, app: int) {
    && (forall b | b != app :: b in t.apps <==> b in db.apps)
    && (forall b | b != app && b in db.apps :: t.apps[b] == db.apps[b])
    && (forall b, r | b != app :: (b, r) in t.links <==> (b, r) in db.links)
    && (forall k | k in db.links :: k in t.links)
    && t.events == db.events && t.sessions == db.sessions && app in t.apps
    && (if app in db.apps
        then t.apps[app].name == db.apps[app].name && t.apps[app].repository == db.apps[app].repository
             && t.apps[app].kind == db.apps[app].kind
        else t.apps[app].name.None? && t.apps[app].repository.None? && t.apps[app].kind.None?)
  }

  /** The inferred application of this build, if it agrees with the named one and no third has
      the build. */
  ghost predicate Absorbed(db: Db, o: Observation, a: int, app: int, identify: Identify) {
    && identify("", o.payload) != "" && RealRelease(o) && a != app
    && SameBuild(db, o, a, identify) && SameMetadata(db, a, app) && !BuildTaken(db, o, Some(app), identify)
  }

  lemma {:induction false} ResolvedFrame(r: Resolved, db1: Db, o: Observation, isExplicit: bool)
    requires r.app.Some? ==> r.app.value in r.db.apps
    requires r.db == db1.(apps := r.db.apps) && r.db.apps.Keys == db1.apps.Keys
    requires forall b | b in db1.apps && r.app != Some(b) :: r.db.apps[b] == db1.apps[b]
    requires r.app.Some? ==> var b := r.app.value;
               r.db.apps[b].name == db1.apps[b].name && r.db.apps[b].repository == db1.apps[b].repository
               && r.db.apps[b].kind == db1.apps[b].kind
    requires r.app.None? ==> o.newApp !in db1.apps
    ensures var (t, app) := Accepted(r, o, isExplicit); SameButFor(db1, t, app) && t.releases == db1.releases
  {
  }

  /** Resolving renames at most what it finds. */
  lemma {:induction false} ResolveFrame(db1: Db, o: Observation, release: Option<int>, identify: Identify)
    requires Sound(db1)
    ensures var r := Resolve(db1, o, release, identify);
      && (forall b | b in db1.apps && r.app != Some(b) :: b in r.db.apps && r.db.apps[b] == db1.apps[b])
      && (r.app.Some? && r.app.value in db1.apps ==> var b := r.app.value;
            && b in r.db.apps && r.db.apps[b].name == db1.apps[b].name
            && r.db.apps[b].repository == db1.apps[b].repository && r.db.apps[b].kind == db1.apps[b].kind
            && r.db.apps[b].lastEventAt == db1.apps[b].lastEventAt && r.db.apps[b].createdAt == db1.apps[b].createdAt
            && r.db.apps[b].lastSessionAt == db1.apps[b].lastSessionAt)
  {
    hide Inferred, Refinable, Claimed, Named, Rule;
  }

  lemma {:induction false} LinkedFrame(db: Db, t: Db, app: int, r: int, now: int, telemetry: bool)
    requires SameButFor(db, t, app)
    ensures SameButFor(db, t.(links := WithLink(t.links, app, r, now, telemetry)), app)
  {
    var links := WithLink(t.links, app, r, now, telemetry);
    forall b, s ensures (b, s) in links <==> (b, s) in t.links || (b == app && s == r) {}
  }

  lemma {:induction false} MergeableIff(db: Db, t: Db, o: Observation, release: int, a: int, app: int,
                                        identify: Identify)
    requires Sound(db) && Fresh(db, o) && RealRelease(o) && identify("", o.payload) != ""
    requires var (db1, r) := WithRelease(db, o);
      SameButFor(db1, t, app) && t.releases == db1.releases && r == Some(release)
    requires app in db.apps || app == o.newApp
    ensures Mergeable(t, o.project, o.platform, identify(o.release, JNull), release, a, app, identify) <==>
            Absorbed(db, o, a, app, identify)
  {
    var (db1, r) := WithRelease(db, o);
    var name := identify(o.release, JNull);
    ReleaseIsBare(db, o);
    RefinableIff(db, o, a, identify);
    ClaimedIff(db, o, Some(app), identify);
    hide WithRelease, Sound, SameBuild, BuildTaken, Placeholder;
    if a != app {
      SameLinks(db1, t, a, app);
      SameRefinable(db1, t, o, release, a, app, identify);
    }
    SameClaimed(db1, t, o, release, app, identify);
    hide Refinable, Claimed;
  }

  lemma {:induction false} SameLinks(db: Db, t: Db, a: int, app: int)
    requires SameButFor(db, t, app) && a != app
    ensures LinksOf(t, a) == LinksOf(db, a)
  {
    forall r ensures r in LinksOf(t, a) <==> r in LinksOf(db, a) {
      InLinks(t, a, r);
      InLinks(db, a, r);
    }
  }

  lemma {:induction false} SameRefinable(db: Db, t: Db, o: Observation, release: int, a: int, app: int,
                                         identify: Identify)
    requires SameButFor(db, t, app) && a != app && LinksOf(t, a) == LinksOf(db, a)
    ensures Refinable(t, o.project, o.platform, identify(o.release, JNull), release, a) <==>
            Refinable(db, o.project, o.platform, identify(o.release, JNull), release, a)
  {
    hide LinksOf;
  }

  lemma {:induction false} SameClaimed(db: Db, t: Db, o: Observation, release: int, app: int, identify: Identify)
    requires SameButFor(db, t, app) && t.releases == db.releases
    ensures Claimed(t, o.project, o.platform, identify(o.release, JNull), release, Some(app), identify) <==>
            Claimed(db, o.project, o.platform, identify(o.release, JNull), release, Some(app), identify)
  {
    forall k: (int, int) | k.0 != app ensures k in t.links <==> k in db.links {
      var (b, r) := k;
      assert (b, r) in t.links <==> (b, r) in db.links;
    }
    forall k: (int, int) | k.0 != app ensures k.0 in t.apps <==> k.0 in db.apps {}
    forall k ensures Claims(t, o, release, app, k, identify) <==> Claims(db, o, release, app, k, identify) {}
    ClaimedBy(t, o, release, app, identify);
    ClaimedBy(db, o, release, app, identify);
  }

  /** This link is the reason. */
  predicate Claims(db: Db, o: Observation, release: int, app: int, k: (int, int), identify: Identify) {
    && k in db.links && k.0 in db.apps && k.1 in db.releases
    && db.apps[k.0].project == o.project && db.apps[k.0].platform == o.platform && db.apps[k.0].isExplicit
    && app != k.0
    && (k.1 == release
        || (identify(o.release, JNull) != "" && identify(db.releases[k.1].name, JNull) == identify(o.release, JNull)))
  }

  lemma {:induction false} ClaimedBy(db: Db, o: Observation, release: int, app: int, identify: Identify)
    ensures Claimed(db, o.project, o.platform, identify(o.release, JNull), release, Some(app), identify) <==>
            exists k :: Claims(db, o, release, app, k, identify)
  {
    var name := identify(o.release, JNull);
    if k :| Claims(db, o, release, app, k, identify) { assert k in db.links; }
    if Claimed(db, o.project, o.platform, name, release, Some(app), identify) {
      var k :| && k in db.links && k.0 in db.apps && k.1 in db.releases
               && db.apps[k.0].project == o.project && db.apps[k.0].platform == o.platform && db.apps[k.0].isExplicit
               && Some(app) != Some(k.0)
               && (k.1 == release || (name != "" && identify(db.releases[k.1].name, JNull) == name));
      assert Claims(db, o, release, app, k, identify);
    }
  }

  /** What the merge of an observation does to the applications and to the filed rows. */
  ghost predicate Absorbs(db: Db, t: Db, o: Observation, app: int, identify: Identify) {
    && (forall a | a in db.apps && a != app :: a !in t.apps <==> Absorbed(db, o, a, app, identify))
    && RowsFollow(db, db.events, t.events, o, app, identify)
        && RowsFollow(db, db.sessions, t.sessions, o, app, identify)
  }

  ghost predicate RowsFollow(db: Db, before: map<int, Row>, after: map<int, Row>, o: Observation, app: int,
                             identify: Identify)
  {
    && after.Keys == before.Keys
    && forall e | e in before ::
         after[e] == if before[e].app.Some? && Absorbed(db, o, before[e].app.value, app, identify)
                     then before[e].(app := Some(app)) else before[e]
  }

  lemma {:induction false} NothingAbsorbed(db: Db, t: Db, o: Observation, app: int, identify: Identify)
    requires t.events == db.events && t.sessions == db.sessions && (forall a | a in db.apps :: a in t.apps)
    requires forall a :: !Absorbed(db, o, a, app, identify)
    ensures Absorbs(db, t, o, app, identify)
  {
    hide Absorbed;
  }

  lemma {:induction false} OneAbsorbed(db: Db, t: Db, o: Observation, x: int, app: int, identify: Identify)
    requires x in t.apps && app in t.apps && x != app
    requires t.events == db.events && t.sessions == db.sessions && (forall a | a in db.apps :: a in t.apps)
    requires forall a :: Absorbed(db, o, a, app, identify) <==> a == x
    ensures Absorbs(db, Merged(t, app, x), o, app, identify)
  {
    hide Absorbed, MergedLinks, MergedApp, Remaining;
  }

  /** An observation absorbs exactly the inferred application of its build that agrees with the
      one it names: that row is gone and what was filed under it is filed under the other. */
  lemma {:induction false} ObserveAbsorbs(db: Db, o: Observation, identify: Identify)
    requires Sound(db) && Fresh(db, o)
    ensures var r := Observe(db, o, identify); Absorbs(db, r.db, o, r.app, identify)
  {
    var release := WithRelease(db, o).1;
    var merge := identify("", o.payload) != "" && RealRelease(o);
    ReleaseKept(db, o);
    ReleaseIsBare(db, o);
    hide WithRelease, Sound, Attached, Absorbs, SameButFor, Observe, Fresh;
    var t, app := BeforeAttaching(db, o, identify);
    AttachedAbsorbs(db, t, o, app, release, merge, identify);
  }

  /** The application, touched or new: seen now by what was observed. */
  ghost predicate Sighted(db: Db, t: Db, o: Observation, app: int) {
    var known := app in db.apps;
    && app in t.apps
    && (t.apps[app].lastEventAt ==
        if o.source.Event? then Later(Some(o.now), if known then db.apps[app].lastEventAt else None)
        else if known then db.apps[app].lastEventAt else None)
    && (t.apps[app].lastSessionAt ==
        if o.source.Session? then Later(Some(o.now), if known then db.apps[app].lastSessionAt else None)
        else if known then db.apps[app].lastSessionAt else None)
    && t.apps[app].createdAt == if known then db.apps[app].createdAt else o.now
  }

  lemma {:induction false} AcceptedSees(db: Db, r: Resolved, o: Observation, isExplicit: bool)
    requires r.app.Some? ==>
      && r.app.value in r.db.apps && r.app.value in db.apps
      && r.db.apps[r.app.value].lastEventAt == db.apps[r.app.value].lastEventAt
      && r.db.apps[r.app.value].lastSessionAt == db.apps[r.app.value].lastSessionAt
      && r.db.apps[r.app.value].createdAt == db.apps[r.app.value].createdAt
    requires r.app.None? ==> o.newApp !in db.apps
    ensures var (t, app) := Accepted(r, o, isExplicit); Sighted(db, t, o, app)
  {
  }

  /** An observation up to its link: the application is found and touched, or new. */
  lemma {:induction false} BeforeAttaching(db: Db, o: Observation, identify: Identify) returns (t: Db, app: int)
    requires Sound(db) && Fresh(db, o)
    ensures var (db1, release) := WithRelease(db, o);
      && SameButFor(db1, t, app) && t.releases == db1.releases && UniqueApps(t.apps)
      && (app in db.apps || app == o.newApp) && Sighted(db, t, o, app)
      && Observe(db, o, identify) ==
         Outcome(Attached(t, o, app, release, identify("", o.payload) != "" && RealRelease(o), identify), app)
  {
    var (db1, release) := WithRelease(db, o);
    var identifying := if Placeholder(o.release) then None else release;
    var isExplicit := identify("", o.payload) != "";
    ReleaseKept(db, o);
    ReleaseIsBare(db, o);
    var r := Resolve(db1, o, identifying, identify);
    ResolveKeeps(db1, o, identifying, identify);
    ResolveFrame(db1, o, identifying, identify);
    hide WithRelease, Sound, Resolve, Placeholder, Accepted, Attached, SameButFor, IsNamed, KeepsExplicit;
    ResolvedFrame(r, db1, o, isExplicit);
    AcceptedWhere(r, o, isExplicit);
    AcceptedKeeps(r, o, isExplicit);
    AcceptedSees(db, r, o, isExplicit);
    t, app := Accepted(r, o, isExplicit).0, Accepted(r, o, isExplicit).1;
    HasUnique(t);
  }

  lemma {:induction false} HasUnique(db: Db)
    requires Sound(db)
    ensures UniqueApps(db.apps)
  {
  }

  lemma {:induction false} AttachedAbsorbs(db: Db, t: Db, o: Observation, app: int, release: Option<int>, merge: bool,
                                           identify: Identify)
    requires Sound(db) && Fresh(db, o) && (app in db.apps || app == o.newApp)
    requires var (db1, r) := WithRelease(db, o);
      SameButFor(db1, t, app) && t.releases == db1.releases && r == release && db1.apps == db.apps
      && db1.events == db.events && db1.sessions == db.sessions
    requires UniqueApps(t.apps)
    requires release.Some? <==> o.release != ""
    requires merge <==> identify("", o.payload) != "" && RealRelease(o)
    ensures Absorbs(db, Attached(t, o, app, release, merge, identify), o, app, identify)
  {
    var (db1, _) := WithRelease(db, o);
    FrameHas(db1, t, app);
    hide WithRelease, Sound, SameButFor, SameBuild, SameMetadata, BuildTaken, Absorbs, MergeInferred, WithLink,
        Placeholder;
    if release.Some? {
      var linked := t.(links := WithLink(t.links, app, release.value, o.now, !o.source.Artifact?));
      LinkedFrame(db1, t, app, release.value, o.now, !o.source.Artifact?);
      if merge {
        MergeAbsorbs(db, linked, o, app, release.value, identify);
      } else {
        NothingAbsorbed(db, linked, o, app, identify);
      }
    } else {
      NothingAbsorbed(db, t, o, app, identify);
    }
  }

  lemma {:induction false} FrameHas(db: Db, t: Db, app: int)
    requires SameButFor(db, t, app)
    ensures t.events == db.events && t.sessions == db.sessions && app in t.apps && forall a | a in db.apps ::
        a in t.apps
  {
  }

  lemma {:induction false} MergeAbsorbs(db: Db, t: Db, o: Observation, app: int, release: int, identify: Identify)
    requires Sound(db) && Fresh(db, o) && (app in db.apps || app == o.newApp)
    requires UniqueApps(t.apps)
    requires RealRelease(o) && identify("", o.payload) != ""
    requires var (db1, r) := WithRelease(db, o);
      SameButFor(db1, t, app) && t.releases == db1.releases && r == Some(release) && db1.apps == db.apps
      && db1.events == db.events && db1.sessions == db.sessions
    ensures Absorbs(db, MergeInferred(t, o.project, o.platform, identify(o.release, JNull), release, app, identify), o,
                    app,
                    identify)
  {
    var (db1, _) := WithRelease(db, o);
    var name := identify(o.release, JNull);
    var found := Named(t, o.project, o.platform, name);
    FrameHas(db1, t, app);
    forall a ensures Mergeable(t, o.project, o.platform, name, release, a, app, identify) <==>
                     Absorbed(db, o, a, app, identify) {
      MergeableIff(db, t, o, release, a, app, identify);
    }
    OneMergeable(t, o, release, app, identify);
    hide WithRelease, Sound, Absorbed, Mergeable, Absorbs, SameButFor, Merged, Named;
    if found.Some? && Mergeable(t, o.project, o.platform, name, release, found.value, app, identify) {
      OneAbsorbed(db, t, o, found.value, app, identify);
    } else {
      NothingAbsorbed(db, t, o, app, identify);
    }
  }

  /** Only the application of that name can be merged away. */
  lemma {:induction false} OneMergeable(t: Db, o: Observation, release: int, app: int, identify: Identify)
    requires UniqueApps(t.apps)
    ensures var name := identify(o.release, JNull);
      forall a | Mergeable(t, o.project, o.platform, name, release, a, app, identify) ::
        a in t.apps && a != app && Named(t, o.project, o.platform, name) == Some(a)
  {
    hide Claimed;
  }

  // ----------------------------------------------------------------- what is kept of both

  /** It was this application, or was absorbed into it. */
  ghost predicate WentInto(db: Db, o: Observation, b: int, app: int, identify: Identify) {
    b in db.apps && (b == app || Absorbed(db, o, b, app, identify))
  }

  /** Nothing a predecessor was given or was seen as is lost. */
  predicate Inherits(before: App, after: App) {
    && Sticks(before.name, after.name) && Sticks(before.repository, after.repository)
    && Sticks(KnownKind(before.kind), KnownKind(after.kind))
    && (before.lastEventAt.Some? ==> after.lastEventAt.Some? && before.lastEventAt.value <= after.lastEventAt.value)
    && (before.lastSessionAt.Some?
        ==> after.lastSessionAt.Some? && before.lastSessionAt.value <= after.lastSessionAt.value)
    && after.createdAt <= before.createdAt
  }

  /** And nothing comes from anywhere else. */
  ghost predicate ComesFrom(db: Db, o: Observation, t: Db, app: int, identify: Identify)
    requires app in t.apps
  {
    var x := t.apps[app];
    && (x.name.Some? ==> exists b :: WentInto(db, o, b, app, identify) && db.apps[b].name == x.name)
    && (x.repository.Some? ==> exists b :: WentInto(db, o, b, app, identify) && db.apps[b].repository == x.repository)
    && (x.lastEventAt.Some? && !(o.source.Event? && x.lastEventAt.value == o.now) ==>
          exists b :: WentInto(db, o, b, app, identify) && db.apps[b].lastEventAt == x.lastEventAt)
    && (x.lastSessionAt.Some? && !(o.source.Session? && x.lastSessionAt.value == o.now) ==>
          exists b :: WentInto(db, o, b, app, identify) && db.apps[b].lastSessionAt == x.lastSessionAt)
  }

  lemma {:induction false} MergedInherits(t: App, a: App)
    requires Agree(a.name, t.name) && Agree(a.repository, t.repository) && Agree(KnownKind(a.kind), KnownKind(t.kind))
    ensures Inherits(t, MergedApp(t, a)) && Inherits(a, MergedApp(t, a))
    ensures var m := MergedApp(t, a);
      && t.version <= m.version
      && (t.name != m.name || t.repository != m.repository || KnownKind(t.kind) != KnownKind(m.kind) ==>
            t.version < m.version && a.version < m.version)
  {
  }

  lemma {:induction false} MergedTakes(t: App, a: App)
    ensures var m := MergedApp(t, a);
      && (m.name == t.name || m.name == a.name) && (m.repository == t.repository || m.repository == a.repository)
      && (m.lastEventAt == t.lastEventAt || m.lastEventAt == a.lastEventAt)
      && (m.lastSessionAt == t.lastSessionAt || m.lastSessionAt == a.lastSessionAt)
  {
  }

  /** What an observation leaves of the application it is filed under: everything known of it
      and of the one it absorbed, nothing else but the sight itself; others are as they were. */
  ghost predicate CarriesOver(db: Db, o: Observation, u: Db, app: int, identify: Identify) {
    && app in u.apps
    && (forall b | WentInto(db, o, b, app, identify) :: Inherits(db.apps[b], u.apps[app]))
    && ComesFrom(db, o, u, app, identify)
    && (o.source.Event? ==> u.apps[app].lastEventAt.Some? && u.apps[app].lastEventAt.value >= o.now)
    && (o.source.Session? ==> u.apps[app].lastSessionAt.Some? && u.apps[app].lastSessionAt.value >= o.now)
    && (forall b | b in u.apps && b != app :: b in db.apps && u.apps[b] == db.apps[b])
  }

  lemma {:induction false} ObserveInherits(db: Db, o: Observation, identify: Identify)
    requires Sound(db) && Fresh(db, o)
    ensures var r := Observe(db, o, identify); CarriesOver(db, o, r.db, r.app, identify)
  {
    var release := WithRelease(db, o).1;
    var merge := identify("", o.payload) != "" && RealRelease(o);
    ReleaseKept(db, o);
    ReleaseIsBare(db, o);
    hide WithRelease, Sound, Attached, Observe, Fresh, CarriesOver, Sighted, SameButFor;
    var t, app := BeforeAttaching(db, o, identify);
    AttachedInherits(db, t, o, app, release, merge, identify);
  }

  lemma {:induction false} AttachedInherits(db: Db, t: Db, o: Observation, app: int, release: Option<int>, merge: bool,
                                            identify: Identify)
    requires Sound(db) && Fresh(db, o) && (app in db.apps || app == o.newApp) && Sighted(db, t, o, app)
    requires var (db1, r) := WithRelease(db, o);
      SameButFor(db1, t, app) && t.releases == db1.releases && r == release && db1.apps == db.apps
    requires UniqueApps(t.apps) && (release.Some? <==> o.release != "")
    requires merge <==> identify("", o.payload) != "" && RealRelease(o)
    ensures CarriesOver(db, o, Attached(t, o, app, release, merge, identify), app, identify)
  {
    var (db1, _) := WithRelease(db, o);
    if release.None? {
      hide WithRelease, Sound, Sighted, SameButFor, CarriesOver, Placeholder, SameBuild, BuildTaken;
      AloneInherits(db, db1, t, o, app, identify);
    } else {
      hide Sound, SameButFor, CarriesOver, WithRelease, UniqueApps, WithLink, Absorbed, MergeInferred;
      var linked := t.(links := WithLink(t.links, app, release.value, o.now, !o.source.Artifact?));
      LinkedFrame(db1, t, app, release.value, o.now, !o.source.Artifact?);
      if merge {
        LinkedInherits(db, linked, o, app, release.value, identify);
      } else {
        NoneAbsorbed(db, o, app, identify);
        hide Sighted, Attached;
        AloneInherits(db, db1, linked, o, app, identify);
      }
    }
  }

  lemma {:induction false} NoneAbsorbed(db: Db, o: Observation, app: int, identify: Identify)
    requires !(identify("", o.payload) != "" && RealRelease(o))
    ensures forall a :: !Absorbed(db, o, a, app, identify)
  {
    hide SameBuild, BuildTaken, RealRelease;
  }

  lemma {:induction false} LinkedInherits(db: Db, t: Db, o: Observation, app: int, release: int, identify: Identify)
    requires Sound(db) && Fresh(db, o) && (app in db.apps || app == o.newApp) && Sighted(db, t, o, app)
    requires var (db1, r) := WithRelease(db, o);
      SameButFor(db1, t, app) && t.releases == db1.releases && r == Some(release) && db1.apps == db.apps
    requires UniqueApps(t.apps) && identify("", o.payload) != "" && RealRelease(o)
    ensures CarriesOver(
      db,
      o,
      MergeInferred(t, o.project, o.platform, identify(o.release, JNull), release, app, identify),
      app,
      identify)
  {
    var (db1, _) := WithRelease(db, o);
    var name := identify(o.release, JNull);
    forall a ensures Mergeable(t, o.project, o.platform, name, release, a, app, identify) <==>
                     Absorbed(db, o, a, app, identify) {
      MergeableIff(db, t, o, release, a, app, identify);
    }
    OneMergeable(t, o, release, app, identify);
    hide WithRelease, Sound, Absorbed, Mergeable, Named, Placeholder, Sighted, SameButFor, CarriesOver, Merged;
    var found := Named(t, o.project, o.platform, name);
    if found.Some? && Mergeable(t, o.project, o.platform, name, release, found.value, app, identify) {
      MergeInherits(db, db1, t, o, found.value, app, identify);
    } else {
      AloneInherits(db, db1, t, o, app, identify);
    }
  }

  lemma {:induction false} AloneInherits(db: Db, db1: Db, t: Db, o: Observation, app: int, identify: Identify)
    requires SameButFor(db1, t, app) && db1.apps == db.apps && Sighted(db, t, o, app)
    requires forall a :: !Absorbed(db, o, a, app, identify)
    ensures CarriesOver(db, o, t, app, identify)
  {
    hide Absorbed;
    assert app in db.apps ==> WentInto(db, o, app, app, identify);
  }

  lemma {:induction false} MergeInherits(db: Db, db1: Db, t: Db, o: Observation, a: int, app: int, identify: Identify)
    requires SameButFor(db1, t, app) && db1.apps == db.apps && Sighted(db, t, o, app)
    requires a in t.apps && a != app && forall b :: Absorbed(db, o, b, app, identify) <==> b == a
    ensures CarriesOver(db, o, Merged(t, app, a), app, identify)
  {
    AbsorbedSays(db, o, a, app, identify);
    MergedInherits(t.apps[app], t.apps[a]);
    assert t.apps[a] == db.apps[a];
    assert WentInto(db, o, a, app, identify) && (app in db.apps ==> WentInto(db, o, app, app, identify)) by {
      hide Absorbed;
    }
    MergeComesFrom(db, t, o, a, app, identify);
    if app in db.apps { InheritsOn(db.apps[app], t.apps[app], MergedApp(t.apps[app], t.apps[a])); }
    hide Absorbed, MergedLinks, Repointed, Remaining, MergedApp, Agree, ComesFrom, Inherits;
  }

  lemma {:induction false} InheritsOn(a: App, b: App, c: App)
    requires a.name == b.name && a.repository == b.repository && a.kind == b.kind && b.createdAt <= a.createdAt
    requires b.lastEventAt == a.lastEventAt || exists v :: b.lastEventAt == Later(Some(v), a.lastEventAt)
    requires b.lastSessionAt == a.lastSessionAt || exists v :: b.lastSessionAt == Later(Some(v), a.lastSessionAt)
    requires Inherits(b, c)
    ensures Inherits(a, c)
  {
  }

  lemma {:induction false} MergeComesFrom(db: Db, t: Db, o: Observation, a: int, app: int, identify: Identify)
    requires Sighted(db, t, o, app) && a in t.apps && a != app && WentInto(db, o, a, app, identify)
    requires t.apps[a] == db.apps[a] && (app in db.apps ==> WentInto(db, o, app, app, identify))
    requires if app in db.apps then t.apps[app].name == db.apps[app].name
                                    && t.apps[app].repository == db.apps[app].repository
             else t.apps[app].name.None? && t.apps[app].repository.None?
    ensures app in Merged(t, app, a).apps && ComesFrom(db, o, Merged(t, app, a), app, identify)
  {
    hide Absorbed, WentInto, MergedLinks, Repointed, Remaining;
    MergedTakes(t.apps[app], t.apps[a]);
    hide MergedApp;
  }

  lemma {:induction false} AbsorbedSays(db: Db, o: Observation, a: int, app: int, identify: Identify)
    requires Absorbed(db, o, a, app, identify)
    ensures a in db.apps && SameMetadata(db, a, app)
  {
  }

  // ------------------------------------------------------------------------- the link

  /** The application was seen in the release, now if it was seen at all. */
  ghost predicate SeenNow(t: Db, o: Observation, app: int, r: int) {
    && r in t.releases && t.releases[r] == Release(o.project, o.release) && (app, r) in t.links
    && (!o.source.Artifact? ==> t.links[(app, r)].lastSeen.Some? && o.now <= t.links[(app, r)].lastSeen.value)
  }

  /** An observation with a release leaves its application linked to it. */
  lemma {:induction false} ObserveLinks(db: Db, o: Observation, identify: Identify)
    requires Sound(db) && Fresh(db, o) && o.release != ""
    ensures var r := Observe(db, o, identify); exists v :: SeenNow(r.db, o, r.app, v)
  {
    var release := WithRelease(db, o).1;
    var merge := identify("", o.payload) != "" && RealRelease(o);
    ReleaseKept(db, o);
    ReleaseIsBare(db, o);
    hide WithRelease, Sound, Attached, Observe, Fresh, Sighted, SameButFor, SeenNow;
    var t, app := BeforeAttaching(db, o, identify);
    FrameHas(WithRelease(db, o).0, t, app);
    AttachedLinks(t, o, app, release.value, merge, identify);
  }

  lemma {:induction false} AttachedLinks(t: Db, o: Observation, app: int, r: int, merge: bool, identify: Identify)
    requires app in t.apps && r in t.releases && t.releases[r] == Release(o.project, o.release)
    ensures SeenNow(Attached(t, o, app, Some(r), merge, identify), o, app, r)
  {
    var linked := t.(links := WithLink(t.links, app, r, o.now, !o.source.Artifact?));
    assert SeenNow(linked, o, app, r);
    var name := identify(o.release, JNull);
    var found := Named(linked, o.project, o.platform, name);
    hide Named, WithLink;
    if merge && found.Some? && Mergeable(linked, o.project, o.platform, name, r, found.value, app, identify) {
      MergeableSays(linked, o.project, o.platform, name, r, found.value, app, identify);
      hide Mergeable;
      MergeStillSees(linked, o, app, found.value, r);
    }
  }

  lemma {:induction false} MergeStillSees(t: Db, o: Observation, app: int, a: int, r: int)
    requires SeenNow(t, o, app, r) && app in t.apps && a in t.apps && a != app
    ensures SeenNow(Merged(t, app, a), o, app, r)
  {
    LinkKeys(t, app, a);
    hide Repointed, Remaining, MergedApp, LinksOf;
    assert (app, r) in Merged(t, app, a).links;
  }
}
