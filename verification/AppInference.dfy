/** Which application an observation is filed under, and which it absorbs, said of the tables
    it finds and nothing else. */
module AppInference {
  import opened Prelude
  import opened Json
  import opened AppTables
  import opened AppDiscovery
  import Runs

  // ------------------------------------------------------------------- candidates

  ghost predicate OnSide(db: Db, a: int, project: int, platform: string) {
    a in db.apps && db.apps[a].project == project && db.apps[a].platform == platform
  }

  /** The applications a release was seen in. */
  ghost function OfRelease(db: Db, project: int, platform: string, name: string): set<int> {
    set a | a in db.apps && OnSide(db, a, project, platform) && SeenIn(db, a, project, name)
  }

  ghost predicate SeenIn(db: Db, a: int, project: int, name: string) {
    exists r | r in db.releases :: (a, r) in db.links && db.releases[r] == Release(project, name)
  }

  /** And those seen in any build of a namespace. */
  ghost function OfNamespace(db: Db, project: int, platform: string, namespace: string, identify: Identify): set<int> {
    set a | a in db.apps && OnSide(db, a, project, platform) && SeenAs(db, a, namespace, identify)
  }

  ghost predicate SeenAs(db: Db, a: int, namespace: string, identify: Identify) {
    exists r | r in db.releases :: (a, r) in db.links && identify(db.releases[r].name, JNull) == namespace
  }

  /** The only candidate, or the only explicit one. */
  ghost predicate TheOne(db: Db, candidates: set<int>, a: int) {
    && a in candidates && a in db.apps
    && ((forall b | b in candidates :: b == a)
        || (db.apps[a].isExplicit && forall b | b in candidates && b in db.apps && db.apps[b].isExplicit :: b == a))
  }

  lemma {:induction false} RuleIs(db: Db, candidates: set<int>)
    requires candidates <= db.apps.Keys
    ensures candidates == {} <==> Rule(db.apps, candidates).Missing?
    ensures forall a | TheOne(db, candidates, a) :: Rule(db.apps, candidates) == Known(a)
    ensures Rule(db.apps, candidates).Known? ==> TheOne(db, candidates, Rule(db.apps, candidates).id)
  {
    forall a | TheOne(db, candidates, a) ensures Rule(db.apps, candidates) == Known(a) {
      OneIsKnown(db, candidates, a);
    }
    if Rule(db.apps, candidates).Known? { KnownIsOne(db, candidates); }
  }

  lemma {:induction false} OneIsKnown(db: Db, candidates: set<int>, a: int)
    requires candidates <= db.apps.Keys && TheOne(db, candidates, a)
    ensures Rule(db.apps, candidates) == Known(a)
  {
    Singleton(candidates, a);
    var e := Explicit(db.apps, candidates);
    if forall b | b in candidates :: b == a {
      assert candidates == {a};
    } else {
      assert a in e;
      forall b | b in e ensures b == a { assert b in candidates && b in db.apps && db.apps[b].isExplicit; }
      assert e == {a};
      Singleton(e, a);
    }
  }

  lemma {:induction false} KnownIsOne(db: Db, candidates: set<int>)
    requires candidates <= db.apps.Keys && Rule(db.apps, candidates).Known?
    ensures TheOne(db, candidates, Rule(db.apps, candidates).id)
  {
    var e := Explicit(db.apps, candidates);
    if |candidates| == 1 {
      Singleton(candidates, Only(candidates));
    } else {
      assert |e| == 1;
      var a := NonEmpty(e);
      Singleton(e, a);
      assert forall b | b in candidates && db.apps[b].isExplicit :: b in e;
    }
  }

  /** What the observation's own release adds to the tables has no links yet. */
  lemma {:induction false} ReleaseIsBare(db: Db, o: Observation)
    requires Sound(db) && Fresh(db, o)
    ensures var (db1, release) := WithRelease(db, o);
      && db1.links == db.links && db1.apps == db.apps
      && (release.Some? ==> forall a, r | (a, r) in db.links && r in db.releases ::
            r == release.value <==> db.releases[r] == Release(o.project, o.release))
      && (forall r | r in db.releases :: r in db1.releases && db1.releases[r] == db.releases[r])
      && (forall r | r in db1.releases && r !in db.releases :: forall a :: (a, r) !in db.links)
  {
    forall a, r | (a, r) in db.links ensures r in db.releases { assert (a, r).1 == r; }
  }

  lemma {:induction false} CandidatesSame(db: Db, o: Observation, identify: Identify, namespace: string)
    requires Sound(db) && Fresh(db, o)
    ensures var (db1, release) := WithRelease(db, o);
      && Related(db1, o.project, o.platform, namespace, identify)
         == OfNamespace(db, o.project, o.platform, namespace, identify)
      && (release.Some? ==>
            Linked(db1, o.project, o.platform, release) == OfRelease(db, o.project, o.platform, o.release))
  {
    var (db1, release) := WithRelease(db, o);
    ReleaseIsBare(db, o);
    LinksAt(db);
    hide WithRelease, Sound;
    forall a ensures InNamespace(db1, a, namespace, identify) <==> SeenAs(db, a, namespace, identify) {}
    if release.Some? {
      forall a ensures (a, release.value) in db.links <==> SeenIn(db, a, o.project, o.release) {
        if (a, release.value) in db.links { assert db.releases[release.value] == Release(o.project, o.release); }
      }
    }
  }

  lemma {:induction false} LinksAt(db: Db)
    requires Sound(db)
    ensures forall a, r | (a, r) in db.links :: a in db.apps && r in db.releases
  {
    forall a, r | (a, r) in db.links ensures a in db.apps && r in db.releases { assert (a, r).0 == a && (a, r).1 == r; }
  }

  // ---------------------------------------------------- observations without an identifier

  /** The applications an unlabelled observation is inferred from. */
  ghost function Candidates(db: Db, o: Observation, identify: Identify): set<int> {
    var namespace := identify(o.release, JNull);
    var exact := OfRelease(db, o.project, o.platform, o.release);
    if o.release != "" && !Placeholder(o.release) && exact != {} then exact
    else if namespace == "" then {}
    else OfNamespace(db, o.project, o.platform, namespace, identify)
  }

  /** The application of that name, before or after. */
  ghost predicate NamedApp(db: Db, after: Db, o: Observation, app: int, identifier: string) {
    && (forall a | IsNamed(db, o.project, o.platform, identifier, a) :: app == a)
    && ((forall a :: !IsNamed(db, o.project, o.platform, identifier, a)) ==> app == o.newApp)
    && IsNamed(after, o.project, o.platform, identifier, app)
  }

  lemma {:induction false} InferredIs(db: Db, o: Observation, identify: Identify)
    requires Sound(db) && Fresh(db, o)
    ensures var (db1, release) := WithRelease(db, o);
      var identifying := if Placeholder(o.release) then None else release;
      var inferred := Inferred(db1, o.project, o.platform, identifying, identify(o.release, JNull), identify);
      && (inferred.Missing? <==> Candidates(db, o, identify) == {})
      && (forall a | TheOne(db, Candidates(db, o, identify), a) :: inferred == Known(a))
      && (inferred.Known? ==> TheOne(db, Candidates(db, o, identify), inferred.id))
  {
    var namespace := identify(o.release, JNull);
    CandidatesSame(db, o, identify, namespace);
    ReleaseKept(db, o);
    RuleIs(db, OfRelease(db, o.project, o.platform, o.release));
    RuleIs(db, OfNamespace(db, o.project, o.platform, namespace, identify));
    NoneLinked(db, o);
    ReleaseIsBare(db, o);
    hide WithRelease, Sound, OfRelease, OfNamespace, Linked, Related, Rule, TheOne, Placeholder;
  }

  lemma {:induction false} NoneLinked(db: Db, o: Observation)
    ensures Linked(db, o.project, o.platform, None) == {}
    ensures var (db1, _) := WithRelease(db, o); Linked(db1, o.project, o.platform, None) == {}
  {
  }

  /** An observation that names no application goes where its build was seen: to the one
      application of its release; where the release was seen in none, to the one of its
      namespace; where there are several and no single explicit one, to the nameless
      application; and where there is none, to the application of the name it has. */
  lemma {:induction false} UnlabelledGoesThere(db: Db, o: Observation, identify: Identify)
    requires Sound(db) && Fresh(db, o) && identify("", o.payload) == ""
    ensures var r := Observe(db, o, identify); var candidates := Candidates(db, o, identify);
      && (forall a | TheOne(db, candidates, a) :: r.app == a)
      && (candidates != {} && (forall a :: !TheOne(db, candidates, a)) ==> NamedApp(db, r.db, o, r.app, ""))
      && (candidates == {} ==> NamedApp(db, r.db, o, r.app, identify(o.release, o.payload)))
  {
    var (db1, release) := WithRelease(db, o);
    var identifying := if Placeholder(o.release) then None else release;
    InferredIs(db, o, identify);
    ReleaseKept(db, o);
    ReleaseIsBare(db, o);
    hide Candidates, TheOne, Inferred, WithRelease, Placeholder, Sound;
    var inferred := Inferred(db1, o.project, o.platform, identifying, identify(o.release, JNull), identify);
    UnlabelledResolves(db1, o, identifying, identify);
    ObserveKeeps(db, o, identify);
    if inferred.Known? {
      OneIsIn(db, Candidates(db, o, identify), inferred.id);
    } else {
      var name := if inferred.Ambiguous? then "" else identify(o.release, o.payload);
      FiledAsNamed(db, db1, o, identifying, name, identify);
    }
  }

  lemma {:induction false} OneIsIn(db: Db, candidates: set<int>, a: int)
    requires TheOne(db, candidates, a)
    ensures a in db.apps
  {
  }

  /** Nothing but the application it ends in changes names. */
  lemma {:induction false} UnlabelledResolves(db1: Db, o: Observation, release: Option<int>, identify: Identify)
    requires identify("", o.payload) == ""
    ensures var inferred := Inferred(db1, o.project, o.platform, release, identify(o.release, JNull), identify);
      Resolve(db1, o, release, identify) ==
      if inferred.Known? then Resolved(db1, Some(inferred.id), identify(o.release, o.payload))
      else
        var name := if inferred.Ambiguous? then "" else identify(o.release, o.payload);
        Resolved(db1, Named(db1, o.project, o.platform, name), name)
  {
    hide Inferred, Named;
  }

  lemma {:induction false} FiledAsNamed(db: Db, db1: Db, o: Observation, release: Option<int>, name: string,
                                        identify: Identify)
    requires Sound(db) && Fresh(db, o) && db1 == WithRelease(db, o).0 && identify("", o.payload) == ""
    requires release == if Placeholder(o.release) then None else WithRelease(db, o).1
    requires Resolve(db1, o, release, identify) == Resolved(db1, Named(db1, o.project, o.platform, name), name)
    ensures var r := Observe(db, o, identify); NamedApp(db, r.db, o, r.app, name)
  {
    ReleaseIsBare(db, o);
    hide WithRelease, Placeholder, Resolve;
    var found := Named(db1, o.project, o.platform, name);
    var (db2, app) := Accepted(Resolved(db1, found, name), o, false);
    assert IsNamed(db2, o.project, o.platform, name, app);
    assert Observe(db, o, identify).app == app;
    SameNames(db2, o, app, WithRelease(db, o).1, identify);
    assert forall a :: IsNamed(db1, o.project, o.platform, name, a) <==> IsNamed(db, o.project, o.platform, name, a);
    if found.Some? { OneOfAName(db, o, name, found.value); }
  }

  lemma {:induction false} OneOfAName(db: Db, o: Observation, name: string, a: int)
    requires Sound(db) && IsNamed(db, o.project, o.platform, name, a)
    ensures forall b | IsNamed(db, o.project, o.platform, name, b) :: b == a
  {
  }

  lemma {:induction false} SameNames(db: Db, o: Observation, app: int, release: Option<int>, identify: Identify)
    ensures Attached(db, o, app, release, false, identify).apps == db.apps
  {
  }

  // ------------------------------------------------------------------------ over runs

  ghost predicate Unlabelled(o: Observation, identify: Identify) {
    identify("", o.payload) == ""
  }

  /** While a release has one application, what names none is filed there. */
  lemma {:induction false} RunFilesThere(db: Db, run: seq<Act>, k: nat, a: int, identify: Identify)
    requires Sound(db) && FreshRun(db, run, identify) && k < |run| && run[k].Seen? && Unlabelled(run[k].o, identify)
    requires run[k].o.release != "" && !Placeholder(run[k].o.release)
    requires var s := StateAt(db, run, k, identify);
      TheOne(s, OfRelease(s, run[k].o.project, run[k].o.platform, run[k].o.release), a)
    ensures AppAt(db, run, k, identify) == a
    ensures var s := StateAt(db, run, k + 1, identify); var o := run[k].o;
      && (o.source.Event? ==> o.row in s.events && s.events[o.row] == Row(o.project, o.platform, Some(a)))
      && (o.source.Session? ==> o.row in s.sessions && s.sessions[o.row] == Row(o.project, o.platform, Some(a)))
  {
    var s, o := StateAt(db, run, k, identify), run[k].o;
    RunSound(db, run, k, identify);
    assert FreshAct(s, run[k]);
    hide Sound, OfRelease, OfNamespace, TheOne, Placeholder, Observe, Filed, Fresh, NewRow;
    HasOne(s, OfRelease(s, o.project, o.platform, o.release), a);
    UnlabelledGoesThere(s, o, identify);
    FiledRows(s, o, identify);
  }

  lemma {:induction false} HasOne(db: Db, candidates: set<int>, a: int)
    requires TheOne(db, candidates, a)
    ensures candidates != {}
  {
  }

  /** And it stays the one, however many unlabelled observations there are, of whatever
      release. */
  lemma {:induction false} UnlabelledKeepsTheOne(db: Db, o: Observation, project: int, platform: string, name: string,
                                                 a: int, identify: Identify)
    requires Sound(db) && Fresh(db, o) && Unlabelled(o, identify) && name != "" && !Placeholder(name)
    requires TheOne(db, OfRelease(db, project, platform, name), a)
    ensures var t := Filed(db, o, identify); TheOne(t, OfRelease(t, project, platform, name), a)
  {
    hide Sound, OfRelease, OfNamespace, TheOne, Placeholder, Observe, Filed, Fresh, Adds, NamedApp;
    var t := Filed(db, o, identify);
    HasOne(db, OfRelease(db, project, platform, name), a);
    UnlabelledGoesThere(db, o, identify);
    UnlabelledAdds(db, o, identify);
    FiledKeeps(db, o, identify);
    SoundHas(t);
    OneLinkMore(db, t, o, Observe(db, o, identify).app, project, platform, name, a);
  }

  /** An unlabelled observation changes no application but for its times of sight, adds one at
      most, and links its release to the one it is filed under. */
  ghost predicate Adds(db: Db, t: Db, o: Observation, app: int) {
    && (forall b | b in db.apps ::
          && b in t.apps && t.apps[b].project == db.apps[b].project && t.apps[b].platform == db.apps[b].platform
              && t.apps[b].isExplicit == db.apps[b].isExplicit)
    && (forall b | b in t.apps && b !in db.apps :: b == app)
    && app in t.apps && t.apps[app].project == o.project && t.apps[app].platform == o.platform
    && (forall b, r | (b, r) in t.links :: (b, r) in db.links
          || (b == app && r in t.releases && t.releases[r] == Release(o.project, o.release)))
    && (forall k | k in db.links :: k in t.links)
    && (forall r | r in db.releases :: r in t.releases && t.releases[r] == db.releases[r])
    && (forall b, r | (b, r) in db.links :: b in db.apps && r in db.releases)
  }

  lemma {:induction false} UnlabelledAdds(db: Db, o: Observation, identify: Identify)
    requires Sound(db) && Fresh(db, o) && Unlabelled(o, identify)
    ensures Adds(db, Filed(db, o, identify), o, Observe(db, o, identify).app)
  {
    var (db1, release) := WithRelease(db, o);
    var identifying := if Placeholder(o.release) then None else release;
    hide WithRelease, Sound, Inferred, Named, Resolve, Placeholder, Rule, IsNamed, Accepted, Attached, Adds;
    LinksAt(db);
    ReleaseKept(db, o);
    ReleaseIsBare(db, o);
    UnlabelledResolves(db1, o, identifying, identify);
    ResolveKeeps(db1, o, identifying, identify);
    ObserveKeeps(db, o, identify);
    var r := Resolve(db1, o, identifying, identify);
    var (db2, app) := Accepted(r, o, false);
    AcceptedAdds(r, o);
    UnlabelledAttaches(db2, o, app, release, identify);
    var t := Attached(db2, o, app, release, false, identify);
    assert Observe(db, o, identify) == Outcome(t, app);
    AddsUp(db, t, o, app, release);
    RowsApart(db, t, o, app);
  }

  lemma {:induction false} RowsApart(db: Db, t: Db, o: Observation, app: int)
    requires Adds(db, t, o, app)
    ensures forall events, sessions ::
        Adds(db, t.(events := events), o, app) && Adds(db, t.(sessions := sessions), o, app)
  {
  }

  lemma {:induction false} SoundHas(db: Db)
    requires Sound(db)
    ensures UniqueReleases(db.releases)
  {
  }

  lemma {:induction false} AcceptedAdds(r: Resolved, o: Observation)
    requires r.app.Some? ==> r.app.value in r.db.apps
    ensures var (t, app) := Accepted(r, o, false);
      && t.links == r.db.links && t.releases == r.db.releases && app in t.apps
      && (forall b | b in r.db.apps && (r.app.None? ==> b != o.newApp) ::
            b in t.apps && t.apps[b].project == r.db.apps[b].project
            && t.apps[b].platform == r.db.apps[b].platform && t.apps[b].isExplicit == r.db.apps[b].isExplicit)
      && (forall b | b in t.apps && b !in r.db.apps :: b == app)
  {
  }

  lemma {:induction false} AddsUp(db: Db, t: Db, o: Observation, app: int, release: Option<int>)
    requires forall b | b in db.apps ::
               && b in t.apps && t.apps[b].project == db.apps[b].project
               && t.apps[b].platform == db.apps[b].platform && t.apps[b].isExplicit == db.apps[b].isExplicit
    requires forall b | b in t.apps && b !in db.apps :: b == app
    requires app in t.apps && t.apps[app].project == o.project && t.apps[app].platform == o.platform
    requires t.links.Keys == db.links.Keys + (if release.Some? then {(app, release.value)} else {})
    requires release.Some? ==> release.value in t.releases && t.releases[release.value] == Release(o.project, o.release)
    requires forall r | r in db.releases :: r in t.releases && t.releases[r] == db.releases[r]
    requires forall b, r | (b, r) in db.links :: b in db.apps && r in db.releases
    ensures Adds(db, t, o, app)
  {
    forall b, r | (b, r) in t.links ensures (b, r) in db.links
      || (b == app && r in t.releases && t.releases[r] == Release(o.project, o.release))
    {
      assert (b, r) in t.links.Keys;
    }
    forall k | k in db.links ensures k in t.links { assert k in t.links.Keys; }
  }

  lemma {:induction false} UnlabelledAttaches(db: Db, o: Observation, app: int, release: Option<int>,
                                              identify: Identify)
    ensures var t := Attached(db, o, app, release, false, identify);
      && t.apps == db.apps && t.releases == db.releases
      && t.links.Keys == db.links.Keys + (if release.Some? then {(app, release.value)} else {})
  {
  }

  lemma {:induction false} OneLinkMore(db: Db, t: Db, o: Observation, app: int, project: int, platform: string,
                                       name: string, a: int)
    requires Adds(db, t, o, app) && TheOne(db, OfRelease(db, project, platform, name), a)
    requires UniqueReleases(t.releases)
    requires project == o.project && platform == o.platform && name == o.release ==> app == a
    ensures TheOne(t, OfRelease(t, project, platform, name), a)
  {
    var before, after := OfRelease(db, project, platform, name), OfRelease(t, project, platform, name);
    forall b | b in after ensures b in before || b == a {
      var r :| r in t.releases && (b, r) in t.links && t.releases[r] == Release(project, name);
      if (b, r) in db.links { assert SeenIn(db, b, project, name); }
    }
    assert a in after by {
      var r :| r in db.releases && (a, r) in db.links && db.releases[r] == Release(project, name);
      assert (a, r) in t.links;
    }
  }

  // -------------------------------------------------------------- a release that is none

  predicate White(c: char) {
    c in {' ', '\t', '\n', 11 as char, 12 as char, '\r'}
  }

  predicate OneOf(c: char, lower: char, upper: char) {
    c == lower || c == upper
  }

  /** It says "unknown", in letters of any case, and nothing else but white space around. */
  ghost predicate SaysUnknown(s: string) {
    exists i: nat :: UnknownAt(s, i)
  }

  predicate UnknownAt(s: string, i: nat) {
    && i + 7 <= |s|
    && (forall k | 0 <= k < i :: White(s[k])) && (forall k | i + 7 <= k < |s| :: White(s[k]))
    && OneOf(s[i], 'u', 'U') && OneOf(s[i + 1], 'n', 'N') && OneOf(s[i + 2], 'k', 'K') && OneOf(s[i + 3], 'n', 'N')
    && OneOf(s[i + 4], 'o', 'O') && OneOf(s[i + 5], 'w', 'W') && OneOf(s[i + 6], 'n', 'N')
  }

  /** Which release names identify no build. */
  lemma {:induction false} PlaceholderIff(release: string)
    ensures Placeholder(release) <==> SaysUnknown(release)
  {
    var a := TrimStart(release);
    var i := StartTrimmed(release);
    var n := EndTrimmed(a);
    var core := TrimEnd(a);
    LowerIsUnknown(core);
    hide TrimStart, TrimEnd, Lower, White;
    if Placeholder(release) {
      assert Lower(core) == "unknown";
      forall k | 0 <= k < i || i + 7 <= k < |release| ensures White(release[k]) {
        if i + 7 <= k { assert release[k] == a[k - i]; }
      }
      assert core[0] == release[i] && core[1] == release[i + 1] && core[2] == release[i + 2]
          && core[3] == release[i + 3] && core[4] == release[i + 4] && core[5] == release[i + 5]
          && core[6] == release[i + 6];
      assert UnknownAt(release, i);
    }
    if SaysUnknown(release) {
      var j: nat :| UnknownAt(release, j);
      NotWhite(release, j);
      assert i == j;
      assert forall k | 0 <= k < |a| :: a[k] == release[i + k];
      assert n == 7;
    }
  }

  lemma {:induction false} NotWhite(s: string, i: nat)
    requires UnknownAt(s, i)
    ensures !White(s[i]) && !White(s[i + 6])
  {
  }

  lemma {:induction false} StartTrimmed(s: string) returns (i: nat)
    ensures i <= |s| && TrimStart(s) == s[i..]
    ensures forall k | 0 <= k < i :: White(s[k])
    ensures i < |s| ==> !White(s[i])
  {
    i := 0;
    if s != "" && IsSpace(s[0]) {
      var j := StartTrimmed(s[1..]);
      i := j + 1;
    }
  }

  lemma {:induction false} EndTrimmed(s: string) returns (n: nat)
    ensures n <= |s| && TrimEnd(s) == s[..n]
    ensures forall k | n <= k < |s| :: White(s[k])
    ensures n > 0 ==> !White(s[n - 1])
  {
    n := |s|;
    if s != "" && IsSpace(s[|s| - 1]) {
      n := EndTrimmed(s[..|s| - 1]);
    }
  }

  lemma {:induction false} LowerAt(s: string, k: nat, lower: char, upper: char)
    requires k < |s| && 'A' <= upper <= 'Z' && lower == upper - 'A' + 'a'
    ensures Lower(s)[k] == lower <==> OneOf(s[k], lower, upper)
  {
  }

  lemma {:induction false} LowerIsUnknown(s: string)
    ensures Lower(s) == "unknown" <==> |s| == 7 && UnknownAt(s, 0)
  {
    if |s| == 7 {
      LowerAt(s, 0, 'u', 'U');
      LowerAt(s, 1, 'n', 'N');
      LowerAt(s, 2, 'k', 'K');
      LowerAt(s, 3, 'n', 'N');
      LowerAt(s, 4, 'o', 'O');
      LowerAt(s, 5, 'w', 'W');
      LowerAt(s, 6, 'n', 'N');
      var l := Lower(s);
      hide Lower, OneOf;
      assert l == "unknown" <==>
             (l[0] == 'u' && l[1] == 'n' && l[2] == 'k' && l[3] == 'n' && l[4] == 'o' && l[5] == 'w' && l[6] == 'n');
    }
  }
}
