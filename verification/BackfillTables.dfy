/** The tables `self-hosted/server/src/backfill_split.rs` rewrites, its SQL statements
    as functions on them, and what a split has to keep. */
module BackfillTables {
  import opened Prelude

  /** What an issue row says about its events. */
  datatype Stats = Stats(events: nat, users: nat, maxPerUser: nat, firstSeen: int, lastSeen: int)

  /** A mixed issue is one whose environment is null. */
  datatype Issue = Issue(project: int, fingerprint: string, kind: string, title: string, surface: int,
                         environment: Option<string>, platform: Option<string>, stats: Stats)

  datatype Event = Event(issue: int, environment: string, platform: string, user: Option<string>, at: int, payload: int)

  datatype Hit = Hit(count: nat, last: int)

  /** `hits` is `issue_user_hits`, its rows grouped by issue; a probe may point at no issue. */
  datatype Tables = Tables(issues: map<int, Issue>, events: map<int, Event>,
                           hits: map<int, map<string, Hit>>, probes: map<int, Option<int>>)

  type Combo = (string, string)

  function ComboOf(e: Event): Combo {
    (e.environment, e.platform)
  }

  /** The two functions of `pipeline.rs` this file calls: the grouping input of an
      issue's events, and the fingerprint of an environment, a platform and an input. */
  datatype Grouping = Grouping(known: string -> bool, identity: (Issue, int) -> string,
                               compute: (string, string, string) -> string)

  // ------------------------------------------------------------- aggregates

  function EventsOf(events: map<int, Event>, id: int): set<int> {
    set e | e in events && events[e].issue == id
  }

  /** SELECT DISTINCT environment, platform. */
  function CombosOf(events: map<int, Event>, id: int): set<Combo> {
    set e | e in events && events[e].issue == id :: ComboOf(events[e])
  }

  function UsersOf(events: map<int, Event>, id: int): set<string> {
    set e | e in events && events[e].issue == id && events[e].user.Some? :: events[e].user.value
  }

  function EventsBy(events: map<int, Event>, id: int, user: string): set<int> {
    set e | e in events && events[e].issue == id && events[e].user == Some(user)
  }

  function TimesOf(events: map<int, Event>, ids: set<int>): set<int>
    requires ids <= events.Keys
  {
    set e | e in ids :: events[e].at
  }

  lemma {:induction false} Extremes(s: set<int>) returns (lo: int, hi: int)
    requires s != {}
    ensures lo in s && hi in s && forall y | y in s :: lo <= y <= hi
  {
    var x := NonEmpty(s);
    lo, hi := x, x;
    if s - {x} != {} {
      lo, hi := Extremes(s - {x});
      lo, hi := if x < lo then x else lo, if x > hi then x else hi;
    }
    forall y | y in s ensures lo <= y <= hi { assert y == x || y in s - {x}; }
  }

  function Max(s: set<int>): (m: int)
    requires s != {}
    ensures m in s && forall y | y in s :: y <= m
  {
    assert exists m :: m in s && forall y | y in s :: y <= m by { var lo, hi := Extremes(s); }
    var m :| m in s && forall y | y in s :: y <= m;
    m
  }

  function Min(s: set<int>): (m: int)
    requires s != {}
    ensures m in s && forall y | y in s :: m <= y
  {
    assert exists m :: m in s && forall y | y in s :: m <= y by { var lo, hi := Extremes(s); }
    var m :| m in s && forall y | y in s :: m <= y;
    m
  }

  /** The statistics and the hit rows of an issue say exactly what its events say. */
  ghost predicate Says(events: map<int, Event>, s: Stats, hits: map<string, Hit>, id: int) {
    CountsSay(events, s, hits, id) && SpanSays(events, s, id) && LastsSay(events, hits, id)
  }

  ghost predicate CountsSay(events: map<int, Event>, s: Stats, hits: map<string, Hit>, id: int) {
    && s.events == |EventsOf(events, id)|
    && s.users == |UsersOf(events, id)|
    && (forall u | u in UsersOf(events, id) :: |EventsBy(events, id, u)| <= s.maxPerUser)
    && (if UsersOf(events, id) == {} then s.maxPerUser == 0
        else exists u :: u in UsersOf(events, id) && |EventsBy(events, id, u)| == s.maxPerUser)
    && hits.Keys == UsersOf(events, id)
    && forall u | u in hits :: hits[u].count == |EventsBy(events, id, u)|
  }

  ghost predicate SpanSays(events: map<int, Event>, s: Stats, id: int) {
    EventsOf(events, id) != {} ==>
      && (exists e :: e in EventsOf(events, id) && events[e].at == s.firstSeen)
      && (exists e :: e in EventsOf(events, id) && events[e].at == s.lastSeen)
      && forall e | e in EventsOf(events, id) :: s.firstSeen <= events[e].at <= s.lastSeen
  }

  ghost predicate LastsSay(events: map<int, Event>, hits: map<string, Hit>, id: int) {
    forall u | u in hits :: Latest(events, EventsBy(events, id, u), hits[u].last)
  }

  /** The time of the latest of some events. */
  ghost predicate Latest(events: map<int, Event>, some: set<int>, at: int)
    requires some <= events.Keys
  {
    (exists e :: e in some && events[e].at == at) && forall e | e in some :: events[e].at <= at
  }

  ghost predicate Exact(t: Tables, id: int) {
    id in t.issues && id in t.hits && Says(t.events, t.issues[id].stats, t.hits[id], id)
  }

  // -------------------------------------------------------------- statements

  /** UPDATE events SET issue_id = target WHERE issue_id = id AND environment AND platform. */
  function MoveEvents(events: map<int, Event>, id: int, combo: Combo, target: int): map<int, Event> {
    map e | e in events ::
      if events[e].issue == id && ComboOf(events[e]) == combo then events[e].(issue := target) else events[e]
  }

  /** DELETE FROM issues: events and hits cascade, probes are set to null. */
  function DeleteIssue(t: Tables, id: int): Tables {
    Tables(t.issues - {id},
           map e | e in t.events && t.events[e].issue != id :: t.events[e],
           t.hits - {id},
           map p | p in t.probes :: if t.probes[p] == Some(id) then None else t.probes[p])
  }

  function Repoint(probes: map<int, Option<int>>, id: int, target: int): map<int, Option<int>> {
    map p | p in probes :: if probes[p] == Some(id) then Some(target) else probes[p]
  }

  /** INSERT INTO issue_user_hits … GROUP BY user_key. */
  function Grouped(events: map<int, Event>, id: int): map<string, Hit> {
    map u | u in UsersOf(events, id) ::
      Hit(|EventsBy(events, id, u)|, LastBy(events, id, u))
  }

  function LastBy(events: map<int, Event>, id: int, u: string): int {
    var times := TimesOf(events, EventsBy(events, id, u));
    if times == {} then 0 else Max(times)
  }

  /** The UPDATE of the issue row, from its events and its hit rows. */
  function StatsOf(events: map<int, Event>, hits: map<string, Hit>, id: int, before: Stats): Stats {
    var times := TimesOf(events, EventsOf(events, id));
    var counts := set u | u in hits :: hits[u].count as int;
    Stats(|EventsOf(events, id)|, |hits|, if counts == {} || Max(counts) < 0 then 0 else Max(counts),
          if times == {} then before.firstSeen else Min(times), if times == {} then before.lastSeen else Max(times))
  }

  function Rebuilt(t: Tables, id: int): Tables
    requires id in t.issues
  {
    var hits := t.hits[id := Grouped(t.events, id)];
    t.(hits := hits,
       issues := t.issues[id := t.issues[id].(stats := StatsOf(t.events, hits[id], id, t.issues[id].stats))])
  }

  // ------------------------------------------------------------- rebuilt is exact

  lemma {:induction false} GroupedSays(events: map<int, Event>, id: int)
    ensures Grouped(events, id).Keys == UsersOf(events, id)
    ensures forall u | u in UsersOf(events, id) ::
        u in Grouped(events, id) && Grouped(events, id)[u].count == |EventsBy(events, id, u)|
  {
  }

  lemma {:induction false} LastSays(events: map<int, Event>, id: int, u: string)
    requires u in UsersOf(events, id)
    ensures Latest(events, EventsBy(events, id, u), LastBy(events, id, u))
  {
    var some := EventsBy(events, id, u);
    var e :| e in EventsOf(events, id) && events[e].user == Some(u);
    assert e in some && events[e].at in TimesOf(events, some);
    assert forall d | d in some :: events[d].at in TimesOf(events, some);
  }

  lemma {:induction false} MostSays(hits: map<string, Hit>, id: int) returns (most: nat)
    ensures var counts := set u | u in hits :: hits[u].count as int;
      most == if counts == {} || Max(counts) < 0 then 0 else Max(counts)
    ensures forall u | u in hits :: hits[u].count <= most
    ensures if hits.Keys == {} then most == 0 else exists u :: u in hits && hits[u].count == most
  {
    var counts := set u | u in hits :: hits[u].count as int;
    most := if counts == {} || Max(counts) < 0 then 0 else Max(counts);
    if hits.Keys != {} {
      var u := NonEmpty(hits.Keys);
      assert hits[u].count in counts;
      assert forall v | v in hits :: hits[v].count as int in counts;
    }
  }

  lemma {:induction false} TimesSay(events: map<int, Event>, id: int)
    requires EventsOf(events, id) != {}
    ensures var times := TimesOf(events, EventsOf(events, id));
      && times != {}
      && (exists e :: e in EventsOf(events, id) && events[e].at == Min(times))
      && (exists e :: e in EventsOf(events, id) && events[e].at == Max(times))
      && forall e | e in EventsOf(events, id) :: Min(times) <= events[e].at <= Max(times)
  {
    var times := TimesOf(events, EventsOf(events, id));
    var e := NonEmpty(EventsOf(events, id));
    assert events[e].at in times;
    assert forall d | d in EventsOf(events, id) :: events[d].at in times;
  }

  /** The two statements of the rebuild leave an issue that says exactly what its
      events say. */
  lemma {:induction false} RebuiltExact(t: Tables, id: int)
    requires id in t.issues
    ensures Exact(Rebuilt(t, id), id)
  {
    var r := Rebuilt(t, id);
    GroupedSays(t.events, id);
    var most := MostSays(r.hits[id], id);
    if EventsOf(t.events, id) != {} { TimesSay(t.events, id); }
    forall u | u in UsersOf(t.events, id) ensures Latest(t.events, EventsBy(t.events, id, u), r.hits[id][u].last) {
      LastSays(t.events, id, u);
    }
  }

  /** Rebuilding another issue changes nothing about this one. */
  lemma {:induction false} RebuiltKeeps(t: Tables, id: int, other: int)
    requires id in t.issues && Exact(t, other) && id != other
    ensures Exact(Rebuilt(t, id), other)
  {
  }
}
