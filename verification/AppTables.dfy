/** `apps.rs`, the tables: applications a project's telemetry reveals, the
    releases they were seen in, and which application accepted rows belong to. */
module AppTables {
  import opened Prelude
  import opened Json

  datatype App = App(
    project: int, platform: string, identifier: string, isExplicit: bool,
    name: Option<string>, repository: Option<string>, kind: Option<string>,
    version: int, createdAt: int, lastEventAt: Option<int>, lastSessionAt: Option<int>)

  datatype Release = Release(project: int, name: string)
  datatype Link = Link(firstSeen: int, lastSeen: Option<int>)

  /** An accepted event or session. */
  datatype Row = Row(project: int, platform: string, app: Option<int>)

  /** A row of `web_visits`, `web_checks` or `web_check_runs`; a run has a check it ran. */
  datatype WebRow = WebRow(app: int, check: Option<int>)

  datatype Db = Db(
    apps: map<int, App>,
    releases: map<int, Release>,
    links: map<(int, int), Link>,
    events: map<int, Row>,
    sessions: map<int, Row>,
    web: map<int, WebRow>)

  /** `sentori_app_identifier(release name, payload)`. */
  type Identify = (string, Json) -> string

  // -------------------------------------------------- `greatest` and `least`

  function Later(a: Option<int>, b: Option<int>): Option<int> {
    if a.None? then b else if b.None? then a else if a.value >= b.value then a else b
  }

  function Earlier(a: int, b: int): int {
    if a <= b then a else b
  }

  function Or<T>(a: Option<T>, b: Option<T>): Option<T> {
    if a.Some? then a else b
  }

  // ---------------------------------------------------------------- integrity

  ghost predicate UniqueApps(apps: map<int, App>) {
    forall a, b | a in apps && b in apps
      && apps[a].project == apps[b].project && apps[a].platform == apps[b].platform
      && apps[a].identifier == apps[b].identifier :: a == b
  }

  ghost predicate UniqueReleases(releases: map<int, Release>) {
    forall r, s | r in releases && s in releases && releases[r] == releases[s] :: r == s
  }

  ghost predicate LinksHold(db: Db) {
    forall k | k in db.links ::
      k.0 in db.apps && k.1 in db.releases && db.apps[k.0].project == db.releases[k.1].project
  }

  /** Every row's application exists, in the row's own project and platform. */
  ghost predicate RowsHome(rows: map<int, Row>, apps: map<int, App>) {
    forall e | e in rows && rows[e].app.Some? ::
      && rows[e].app.value in apps
      && apps[rows[e].app.value].project == rows[e].project
      && apps[rows[e].app.value].platform == rows[e].platform
  }

  ghost predicate Sound(db: Db) {
    && UniqueApps(db.apps) && UniqueReleases(db.releases) && LinksHold(db)
    && RowsHome(db.events, db.apps) && RowsHome(db.sessions, db.apps)
  }

  // ------------------------------------------------------------------ lookups

  predicate IsNamed(db: Db, project: int, platform: string, identifier: string, a: int) {
    && a in db.apps && db.apps[a].project == project && db.apps[a].platform == platform
    && db.apps[a].identifier == identifier
  }

  /** The application of that identifier, unique by the table's constraint. */
  ghost function Named(db: Db, project: int, platform: string, identifier: string): (r: Option<int>)
    ensures r.Some? ==> IsNamed(db, project, platform, identifier, r.value)
    ensures r.None? ==> forall a :: !IsNamed(db, project, platform, identifier, a)
  {
    if exists a :: IsNamed(db, project, platform, identifier, a) then
      var a :| IsNamed(db, project, platform, identifier, a);
      Some(a)
    else None
  }

  // ---------------------------------------------------------------- inference

  datatype Inference = Known(id: int) | Ambiguous | Missing

  /** `unambiguous`: what two rows, explicit ones first, decide. */
  function Unambiguous(rows: seq<(int, bool)>): Inference {
    if |rows| == 0 then Missing
    else if |rows| == 1 || (|rows| == 2 && rows[0].1 && !rows[1].1) then Known(rows[0].0)
    else Ambiguous
  }

  ghost function Explicit(apps: map<int, App>, candidates: set<int>): set<int>
    requires candidates <= apps.Keys
  {
    set a | a in candidates && apps[a].isExplicit
  }

  ghost function Only<T>(s: set<T>): T
    requires s != {}
  {
    var x :| x in s; x
  }

  /** The rule over the whole candidate set: the only candidate, or the only
      explicit one. */
  ghost function Rule(apps: map<int, App>, candidates: set<int>): Inference
    requires candidates <= apps.Keys
  {
    if candidates == {} then Missing
    else if |candidates| == 1 then Known(Only(candidates))
    else if |Explicit(apps, candidates)| == 1 then Known(Only(Explicit(apps, candidates)))
    else Ambiguous
  }

  /** `ORDER BY has_explicit_identifier DESC LIMIT 2`, ties in any order. */
  ghost predicate TopTwo(rows: seq<(int, bool)>, apps: map<int, App>, candidates: set<int>)
    requires candidates <= apps.Keys
  {
    && |rows| == (if |candidates| <= 2 then |candidates| else 2)
    && (forall i | 0 <= i < |rows| :: rows[i].0 in candidates && rows[i].1 == apps[rows[i].0].isExplicit)
    && (|rows| == 2 ==> rows[0].0 != rows[1].0 && (rows[1].1 ==> rows[0].1))
    && (forall i, a | 0 <= i < |rows| && !rows[i].1 && a in candidates && apps[a].isExplicit ::
          exists j | 0 <= j < |rows| :: rows[j].0 == a)
  }

  lemma Singleton(s: set<int>, x: int)
    requires x in s
    ensures |s| == 1 <==> s == {x}
    ensures |s| == 1 ==> Only(s) == x
  {
    assert |s - {x}| == |s| - 1;
    if |s| == 1 { assert s - {x} == {}; }
  }

  /** Two rows are enough: the `LIMIT 2` decision is the full-set rule. */
  lemma {:induction false} LimitTwoIsRule(rows: seq<(int, bool)>, apps: map<int, App>, candidates: set<int>)
    requires candidates <= apps.Keys && TopTwo(rows, apps, candidates)
    ensures Unambiguous(rows) == Rule(apps, candidates)
  {
    var e := Explicit(apps, candidates);
    if |rows| == 1 {
      Singleton(candidates, rows[0].0);
    } else if |rows| == 2 {
      var a, b := rows[0].0, rows[1].0;
      Singleton(candidates, a);
      assert b in candidates;
      if rows[0].1 && !rows[1].1 {
        forall x | x in e ensures x == a { assert !rows[1].1 && apps[x].isExplicit; }
        assert e == {a};
        Singleton(e, a);
      } else if rows[0].1 {
        Singleton(e, a);
        assert b in e;
      } else {
        assert forall x | x in candidates && apps[x].isExplicit ::
          !rows[0].1 && exists j | 0 <= j < |rows| :: rows[j].0 == x && rows[j].1;
        assert e == {};
      }
    }
  }

  function Linked(db: Db, project: int, platform: string, release: Option<int>): (s: set<int>)
    ensures s <= db.apps.Keys
  {
    set a | a in db.apps && db.apps[a].project == project && db.apps[a].platform == platform
      && release.Some? && (a, release.value) in db.links
  }

  /** Has the application been seen in a build of this namespace? */
  predicate InNamespace(db: Db, a: int, namespace: string, identify: Identify) {
    exists r | r in db.releases :: (a, r) in db.links && identify(db.releases[r].name, JNull) == namespace
  }

  function Related(db: Db, project: int, platform: string, namespace: string, identify: Identify): (s: set<int>)
    ensures s <= db.apps.Keys
  {
    set a | a in db.apps && db.apps[a].project == project && db.apps[a].platform == platform
      && InNamespace(db, a, namespace, identify)
  }

  ghost function Inferred(db: Db, project: int, platform: string, release: Option<int>, namespace: string,
                          identify: Identify): Inference
  {
    if Linked(db, project, platform, release) != {} then Rule(db.apps, Linked(db, project, platform, release))
    else if namespace == "" then Missing
    else Rule(db.apps, Related(db, project, platform, namespace, identify))
  }

  // --------------------------------------------------------- one observation

  datatype Source = Event | Session | Artifact

  datatype Observation = Observation(
    project: int, platform: string, release: string, payload: Json, source: Source,
    now: int, newApp: int, newRelease: int, row: int)

  ghost function ReleaseNamed(db: Db, project: int, name: string): (r: Option<int>)
    ensures r.Some? ==> r.value in db.releases && db.releases[r.value] == Release(project, name)
    ensures r.None? ==> forall s | s in db.releases :: db.releases[s] != Release(project, name)
  {
    if exists r :: r in db.releases && db.releases[r] == Release(project, name) then
      var r :| r in db.releases && db.releases[r] == Release(project, name);
      Some(r)
    else None
  }

  /** `release_id`: find or insert; the empty release is no release. */
  ghost function WithRelease(db: Db, o: Observation): (r: (Db, Option<int>))
  {
    if o.release == "" then (db, None)
    else
      var found := ReleaseNamed(db, o.project, o.release);
      if found.Some? then (db, found)
      else (db.(releases := db.releases[o.newRelease := Release(o.project, o.release)]), Some(o.newRelease))
  }

  /** Is some explicit application, other than `except`, already tied to this
      release or to this build namespace? */
  predicate Claimed(db: Db, project: int, platform: string, fallback: string, release: int, except: Option<int>,
                          identify: Identify)
  {
    exists k | k in db.links ::
      && k.0 in db.apps && k.1 in db.releases
      && db.apps[k.0].project == project && db.apps[k.0].platform == platform && db.apps[k.0].isExplicit
      && except != Some(k.0)
      && (k.1 == release || (fallback != "" && identify(db.releases[k.1].name, JNull) == fallback))
  }

  function LinksOf(db: Db, a: int): set<int> {
    set k | k in db.links && k.0 == a :: k.1
  }

  /** An inferred application that an explicit identity may take over. */
  predicate Refinable(db: Db, project: int, platform: string, fallback: string, release: int, a: int) {
    && IsNamed(db, project, platform, fallback, a)
    && !db.apps[a].isExplicit
    && (fallback != "" || |LinksOf(db, a)| == 1)
    && (a, release) in db.links
  }

  datatype Resolved = Resolved(db: Db, app: Option<int>, identifier: string)

  /** `resolve_app`: known by inference, by identifier, or by renaming the
      inferred application this build belongs to. */
  ghost function Resolve(db: Db, o: Observation, release: Option<int>, identify: Identify): Resolved {
    var isExplicit := identify("", o.payload) != "";
    var identifier := identify(o.release, o.payload);
    var fallback := identify(o.release, JNull);
    var inferred := if isExplicit then Missing else Inferred(db, o.project, o.platform, release, fallback, identify);
    if inferred.Known? then Resolved(db, Some(inferred.id), identifier)
    else
      var name := if inferred.Ambiguous? then "" else identifier;
      var existing := Named(db, o.project, o.platform, name);
      if existing.Some? || !isExplicit then Resolved(db, existing, name)
      else
        var prior := Named(db, o.project, o.platform, fallback);
        if prior.Some? && release.Some? && Refinable(db, o.project, o.platform, fallback, release.value, prior.value)
           && !Claimed(db, o.project, o.platform, fallback, release.value, None, identify)
        then Resolved(db.(apps := db.apps[prior.value := db.apps[prior.value].(identifier := name)]), prior, name)
        else Resolved(db, None, name)
  }

  function Touched(app: App, o: Observation, isExplicit: bool): App {
    app.(lastEventAt := if o.source.Event? then Later(Some(o.now), app.lastEventAt) else app.lastEventAt,
         lastSessionAt := if o.source.Session? then Later(Some(o.now), app.lastSessionAt) else app.lastSessionAt,
         isExplicit := app.isExplicit || isExplicit)
  }

  function NewApp(o: Observation, identifier: string, isExplicit: bool): App {
    App(o.project, o.platform, identifier, isExplicit, None, None, None, 1, o.now,
        if o.source.Event? then Some(o.now) else None, if o.source.Session? then Some(o.now) else None)
  }

  function WithLink(links: map<(int, int), Link>, a: int, r: int, now: int, telemetry: bool): map<(int, int), Link> {
    var seen := if telemetry then Some(now) else None;
    if (a, r) in links then links[(a, r) := links[(a, r)].(lastSeen := Later(seen, links[(a, r)].lastSeen))]
    else links[(a, r) := Link(now, seen)]
  }

  // -------------------------------------------------------------------- merge

  predicate Agree<T(==)>(a: Option<T>, b: Option<T>) {
    a.None? || b.None? || a == b
  }

  function KnownKind(kind: Option<string>): Option<string> {
    if kind == Some("unknown") then None else kind
  }

  predicate Mergeable(db: Db, project: int, platform: string, fallback: string, release: int, a: int, target: int,
                            identify: Identify)
  {
    && target in db.apps && a != target
    && Refinable(db, project, platform, fallback, release, a)
    && Agree(db.apps[a].name, db.apps[target].name)
    && Agree(db.apps[a].repository, db.apps[target].repository)
    && Agree(KnownKind(db.apps[a].kind), KnownKind(db.apps[target].kind))
    && !Claimed(db, project, platform, fallback, release, Some(target), identify)
  }

  function MergedApp(t: App, a: App): App {
    t.(name := Or(t.name, a.name),
       repository := Or(t.repository, a.repository),
       kind := Or(KnownKind(t.kind), a.kind),
       createdAt := Earlier(t.createdAt, a.createdAt),
       lastEventAt := Later(t.lastEventAt, a.lastEventAt),
       lastSessionAt := Later(t.lastSessionAt, a.lastSessionAt),
       version := if (t.name.None? && a.name.Some?) || (t.repository.None? && a.repository.Some?)
                     || (KnownKind(t.kind).None? && KnownKind(a.kind).Some?)
                  then (if t.version >= a.version then t.version else a.version) + 1 else t.version)
  }

  function MergedLink(links: map<(int, int), Link>, t: int, a: int, r: int): Link
    requires (t, r) in links || (a, r) in links
  {
    if (t, r) !in links then links[(a, r)]
    else if (a, r) !in links then links[(t, r)]
    else Link(Earlier(links[(t, r)].firstSeen, links[(a, r)].firstSeen),
              Later(links[(t, r)].lastSeen, links[(a, r)].lastSeen))
  }

  /** The survivor takes over the alias's links, and the alias's own go with it. */
  ghost function MergedLinks(links: map<(int, int), Link>, t: int, a: int): map<(int, int), Link>
    requires t != a
  {
    map k | k in links.Keys + (set l | l in links && l.0 == a :: (t, l.1)) && k.0 != a ::
      if k.0 == t then MergedLink(links, t, a, k.1) else links[k]
  }

  function Repointed(rows: map<int, Row>, t: int, a: int): map<int, Row> {
    map e | e in rows :: if rows[e].app == Some(a) then rows[e].(app := Some(t)) else rows[e]
  }

  /** Deleting an application takes its web rows along, and the runs of its checks. */
  predicate FallsWith(web: map<int, WebRow>, a: int, w: int)
    requires w in web
  {
    || web[w].app == a
    || (web[w].check.Some? && web[w].check.value in web && web[web[w].check.value].app == a)
  }

  function Remaining(web: map<int, WebRow>, a: int): map<int, WebRow> {
    map w | w in web && !FallsWith(web, a, w) :: web[w]
  }

  ghost function Merged(db: Db, t: int, a: int): Db
    requires t in db.apps && a in db.apps && t != a
  {
    Db(map x | x in db.apps && x != a :: if x == t then MergedApp(db.apps[t], db.apps[a]) else db.apps[x],
       db.releases,
       MergedLinks(db.links, t, a),
       Repointed(db.events, t, a),
       Repointed(db.sessions, t, a),
       Remaining(db.web, a))
  }

  /** `merge_inferred_app`. */
  ghost function MergeInferred(db: Db, project: int, platform: string, fallback: string, release: int, t: int,
                               identify: Identify): Db
  {
    var a := Named(db, project, platform, fallback);
    if a.Some? && Mergeable(db, project, platform, fallback, release, a.value, t, identify) then Merged(db, t, a.value)
    else db
  }

  datatype Outcome = Outcome(db: Db, app: int)

  predicate Placeholder(release: string) {
    Trimmed(release) in ["unknown"]
  }

  /** `trim().eq_ignore_ascii_case("unknown")`, ASCII white space only. */
  function Trimmed(s: string): string {
    Lower(TrimEnd(TrimStart(s)))
  }

  predicate IsSpace(c: char) {
    c == ' ' || '\t' <= c <= '\r'
  }

  function TrimStart(s: string): string {
    if s != "" && IsSpace(s[0]) then TrimStart(s[1..]) else s
  }

  function TrimEnd(s: string): string {
    if s != "" && IsSpace(s[|s| - 1]) then TrimEnd(s[..|s| - 1]) else s
  }

  function Lower(s: string): string {
    seq(|s|, i requires 0 <= i < |s| => if 'A' <= s[i] <= 'Z' then s[i] - 'A' + 'a' else s[i])
  }

  /** Touch the application found, or insert a new one. */
  ghost function Accepted(r: Resolved, o: Observation, isExplicit: bool): (Db, int) {
    if r.app.Some? && r.app.value in r.db.apps then
      (r.db.(apps := r.db.apps[r.app.value := Touched(r.db.apps[r.app.value], o, isExplicit)]), r.app.value)
    else (r.db.(apps := r.db.apps[o.newApp := NewApp(o, r.identifier, isExplicit)]), o.newApp)
  }

  /** The end of an observation: the link to the release, and the merge it allows. */
  ghost function Attached(db: Db, o: Observation, app: int, release: Option<int>, merge: bool, identify: Identify): Db {
    if release.None? then db
    else
      var linked := db.(links := WithLink(db.links, app, release.value, o.now, !o.source.Artifact?));
      if merge then MergeInferred(linked, o.project, o.platform, identify(o.release, JNull), release.value, app,
                                  identify)
      else linked
  }

  /** `observe`. */
  ghost function Observe(db: Db, o: Observation, identify: Identify): Outcome {
    var (db1, release) := WithRelease(db, o);
    var identifying := if Placeholder(o.release) then None else release;
    var isExplicit := identify("", o.payload) != "";
    var r := Resolve(db1, o, identifying, identify);
    var (db2, app) := Accepted(r, o, isExplicit);
    Outcome(Attached(db2, o, app, release, isExplicit && identifying.Some?, identify), app)
  }

  /** The accepting transaction as a whole: the observation, then the accepted
      row under the application it returned. */
  ghost function Filed(db: Db, o: Observation, identify: Identify): Db {
    var r := Observe(db, o, identify);
    var row := Row(o.project, o.platform, Some(r.app));
    match o.source
    case Event => r.db.(events := r.db.events[o.row := row])
    case Session => r.db.(sessions := r.db.sessions[o.row := row])
    case Artifact => r.db
  }
}
