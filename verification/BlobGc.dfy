/** `gc_orphan_blobs` in `self-hosted/server/src/archive_worker.rs`, one database or
    file operation at a time, between uploads, row deletions and backups. */
module BlobGc {
  import opened Prelude
  import Runs

  type Hash = int

  /** One hour, in milliseconds. */
  const ORPHAN_MIN_AGE: int := 3_600_000

  /** The variables of a pass in progress. The `seen` sets are copies of what its
      queries saw, kept to state what a removal was based on. */
  datatype Pass = Pass(
    referenced: set<Hash>,
    seenArtifacts: set<Hash>,
    seenAttachments: set<Hash>,
    now: int,
    listing: seq<(Hash, int)>,
    next: nat,
    stage: Stage)

  datatype Stage =
    | Locked                  // holds the lock
    | ReadArtifacts           // the first query is done
    | ReadAttachments         // the second query is done
    | Sweeping                // between two entries of the listing
    | Rechecked(seenAgain: set<Hash>)   // the current entry is still an orphan

  /** An upload that holds the shared lock; `stored` once its bytes are on disk. */
  datatype Upload = Upload(stored: Option<Hash>)

  /** A blob removed, and everything the removal was based on. */
  datatype Removal = Removal(hash: Hash, mtime: int, now: int, seenArtifacts: set<Hash>, seenAttachments: set<Hash>,
                             seenAgain: set<Hash>, backups: set<int>)

  datatype State = State(
    blobs: map<Hash, int>,             // content hash to modification time
    artifacts: map<int, Hash>,         // release_artifacts, committed rows
    attachments: map<int, Hash>,       // event_attachments, committed rows
    pass: Option<Pass>,                // the exclusive holder of the lock
    uploads: map<int, Upload>,         // shared holders
    backups: set<int>,                 // shared holders
    removals: seq<Removal>)

  datatype Table = Artifacts | Attachments

  datatype Input =
    | PassLocks
    | PassReadsArtifacts
    | PassReadsAttachments
    | PassLists(now: int, listing: seq<(Hash, int)>)
    | PassLooks
    | PassRemoves(works: bool)
    | PassEnds
    | UploadLocks(u: int)
    | UploadStores(u: int, hash: Hash, time: int)
    | UploadCommits(u: int, table: Table, row: int)
    | UploadFails(u: int)
    | BackupLocks(b: int)
    | BackupUnlocks(b: int)
    | RowDeleted(table: Table, row: int)
    | ForeignReference(table: Table, row: int, hash: Hash)

  function Referenced(s: State): set<Hash> {
    s.artifacts.Values + s.attachments.Values
  }

  /** `pg_advisory_xact_lock` waits for every holder, the shared one only for a pass. */
  ghost predicate Possible(s: State, x: Input) {
    match x
    case PassLocks => s.pass.None? && s.uploads.Keys == {} && s.backups == {}
    case PassReadsArtifacts => s.pass.Some? && s.pass.value.stage.Locked?
    case PassReadsAttachments => s.pass.Some? && s.pass.value.stage.ReadArtifacts?
    case PassLists(_, listing) =>
      && s.pass.Some? && s.pass.value.stage.ReadAttachments?
      && forall k | 0 <= k < |listing| :: listing[k].0 in s.blobs && s.blobs[listing[k].0] == listing[k].1
    case PassLooks => s.pass.Some? && s.pass.value.stage.Sweeping? && s.pass.value.next < |s.pass.value.listing|
    case PassRemoves(_) => s.pass.Some? && s.pass.value.stage.Rechecked? && s.pass.value.next < |s.pass.value.listing|
    case PassEnds => s.pass.Some?
    case UploadLocks(u) => s.pass.None? && u !in s.uploads
    case UploadStores(u, _, _) => u in s.uploads && s.uploads[u].stored.None?
    case UploadCommits(u, _, _) => u in s.uploads && s.uploads[u].stored.Some?
    case UploadFails(u) => u in s.uploads
    case BackupLocks(b) => s.pass.None? && b !in s.backups
    case BackupUnlocks(b) => b in s.backups
    case _ => true
  }

  /** The head of the loop and the re-check: kept when referenced or young in the
      snapshot, or referenced by now; otherwise the file is next. */
  function Looked(s: State, p: Pass): Pass
    requires p.next < |p.listing|
  {
    var (hash, mtime) := p.listing[p.next];
    var age := if p.now >= mtime then p.now - mtime else 0;
    if hash in p.referenced || age < ORPHAN_MIN_AGE || hash in Referenced(s) then p.(next := p.next + 1)
    else p.(stage := Rechecked(Referenced(s)))
  }

  function Removed(s: State, p: Pass, works: bool): State
    requires p.next < |p.listing| && p.stage.Rechecked?
  {
    var (hash, mtime) := p.listing[p.next];
    var s1 := s.(pass := Some(p.(next := p.next + 1, stage := Sweeping)));
    if works then
      s1.(blobs := s.blobs - {hash},
          removals := s.removals + [Removal(hash, mtime, p.now, p.seenArtifacts, p.seenAttachments, p.stage.seenAgain,
                                            s.backups)])
    else s1
  }

  function WithRow(s: State, table: Table, row: int, hash: Hash): State {
    if table.Artifacts? then s.(artifacts := s.artifacts[row := hash])
        else s.(attachments := s.attachments[row := hash])
  }

  function Step(s: State, x: Input): State {
    match x
    case PassLocks => s.(pass := Some(Pass({}, {}, {}, 0, [], 0, Locked)))
    case PassReadsArtifacts =>
      if s.pass.None? then s else
        var seen := s.artifacts.Values;
        s.(pass := Some(s.pass.value.(referenced := s.pass.value.referenced + seen, seenArtifacts := seen,
                                      stage := ReadArtifacts)))
    case PassReadsAttachments =>
      if s.pass.None? then s else
        var seen := s.attachments.Values;
        s.(pass := Some(s.pass.value.(referenced := s.pass.value.referenced + seen, seenAttachments := seen,
                                      stage := ReadAttachments)))
    case PassLists(now, listing) =>
      if s.pass.None? then s
      else s.(pass := Some(s.pass.value.(now := now, listing := listing, next := 0, stage := Sweeping)))
    case PassLooks =>
      if s.pass.Some? && s.pass.value.next < |s.pass.value.listing| then s.(pass := Some(Looked(s, s.pass.value)))
          else s
    case PassRemoves(works) =>
      if s.pass.Some? && s.pass.value.next < |s.pass.value.listing| && s.pass.value.stage.Rechecked?
      then Removed(s, s.pass.value, works) else s
    case PassEnds => s.(pass := None)
    case UploadLocks(u) => s.(uploads := s.uploads[u := Upload(None)])
    case UploadStores(u, hash, time) =>
      // bytes already on disk are not rewritten and keep their time
      s.(uploads := s.uploads[u := Upload(Some(hash))],
         blobs := if hash in s.blobs then s.blobs else s.blobs[hash := time])
    case UploadCommits(u, table, row) =>
      if u in s.uploads && s.uploads[u].stored.Some?
      then WithRow(s, table, row, s.uploads[u].stored.value).(uploads := s.uploads - {u}) else s
    case UploadFails(u) => s.(uploads := s.uploads - {u})
    case BackupLocks(b) => s.(backups := s.backups + {b})
    case BackupUnlocks(b) => s.(backups := s.backups - {b})
    case RowDeleted(table, row) =>
      if table.Artifacts? then s.(artifacts := s.artifacts - {row}) else s.(attachments := s.attachments - {row})
    case ForeignReference(table, row, hash) => WithRow(s, table, row, hash)
  }

  // ------------------------------------------------------ what a removal is based on

  predicate Justified(r: Removal) {
    && r.now - r.mtime >= ORPHAN_MIN_AGE
    && r.hash !in r.seenArtifacts && r.hash !in r.seenAttachments && r.hash !in r.seenAgain
    && r.backups == {}
  }

  /** A pass holds the lock alone, and `referenced` is what its two queries saw. */
  predicate PassSound(s: State) {
    s.pass.Some? ==>
      var p := s.pass.value;
      && s.uploads.Keys == {} && s.backups == {}
      && (p.stage.Locked? ==> p.referenced == {})
      && (p.stage.ReadArtifacts? ==> p.referenced == p.seenArtifacts)
      && (p.stage.ReadAttachments? || p.stage.Sweeping? || p.stage.Rechecked? ==>
            p.referenced == p.seenArtifacts + p.seenAttachments)
      && (p.stage.Rechecked? ==>
            && p.next < |p.listing|
            && p.now - p.listing[p.next].1 >= ORPHAN_MIN_AGE
            && p.listing[p.next].0 !in p.referenced && p.listing[p.next].0 !in p.stage.seenAgain)
  }

  predicate Safe(s: State) {
    PassSound(s) && forall k | 0 <= k < |s.removals| :: Justified(s.removals[k])
  }

  lemma {:induction false} StepIsSafe(s: State, x: Input)
    requires Safe(s) && Possible(s, x)
    ensures Safe(Step(s, x))
  {
    hide PassSound, Justified, Possible, Step;
    KeepsPassSound(s, x);
    RemovesJustly(s, x);
  }

  /** The only removal a step adds is justified by the pass as it stands. */
  lemma {:induction false} RemovesJustly(s: State, x: Input)
    requires PassSound(s)
    ensures var more := Step(s, x).removals;
      more == s.removals || (|more| == |s.removals| + 1 && more[..|s.removals|] == s.removals
          && Justified(more[|s.removals|]))
  {
    if x.PassRemoves? { hide Looked, WithRow; }
  }

  /** In every interleaving each removed blob was old enough at the pass's clock, was in
      neither table when the pass read it, was in neither at its own re-check, and no
      backup held the lock. */
  lemma {:induction false} RemovalsJustified(start: State, run: seq<Input>, k: nat, r: nat)
    requires start.pass.None? && start.removals == []
    requires Runs.Allowed(start, run, Step, Possible) && k <= |run|
    requires r < |Runs.At(start, run, k, Step).removals|
    ensures Justified(Runs.At(start, run, k, Step).removals[r])
  {
    forall s: State, x: Input | Safe(s) && Possible(s, x) ensures Safe(Step(s, x)) { StepIsSafe(s, x); }
    Runs.Invariant(start, run, k, Step, Possible, Safe);
  }

  // ------------------------------------------------------- references keep their blob

  predicate Stored(s: State) {
    && (forall row | row in s.artifacts :: s.artifacts[row] in s.blobs)
    && (forall row | row in s.attachments :: s.attachments[row] in s.blobs)
    && (forall u | u in s.uploads && s.uploads[u].stored.Some? :: s.uploads[u].stored.value in s.blobs)
  }

  /** While an entry waits to be removed nothing refers to it: every reference comes
      from a holder of the shared lock. */
  predicate StillOrphan(s: State) {
    s.pass.Some? && s.pass.value.stage.Rechecked? && s.pass.value.next < |s.pass.value.listing| ==>
      s.pass.value.listing[s.pass.value.next].0 !in Referenced(s)
  }

  predicate Whole(s: State) {
    PassSound(s) && Stored(s) && StillOrphan(s)
  }

  ghost predicate Locking(s: State, x: Input) {
    Possible(s, x) && !x.ForeignReference?
  }

  predicate OfPass(x: Input) {
    x.PassLocks? || x.PassReadsArtifacts? || x.PassReadsAttachments? || x.PassLists? || x.PassLooks? || x.PassRemoves?
        || x.PassEnds?
  }

  lemma {:induction false} PassIsWhole(s: State, x: Input)
    requires Whole(s) && Possible(s, x) && OfPass(x)
    ensures Stored(Step(s, x)) && StillOrphan(Step(s, x))
  {
  }

  lemma {:induction false} OthersAreWhole(s: State, x: Input)
    requires Whole(s) && Locking(s, x) && !OfPass(x)
    ensures Stored(Step(s, x)) && StillOrphan(Step(s, x))
  {
  }

  lemma {:induction false} KeepsPassSound(s: State, x: Input)
    requires PassSound(s) && Possible(s, x)
    ensures PassSound(Step(s, x))
  {
    if OfPass(x) {
      PassKeepsSound(s, x);
    } else if !x.UploadLocks? && !x.BackupLocks? {
      HoldersOnly(s, x);
    }
  }

  lemma {:induction false} PassKeepsSound(s: State, x: Input)
    requires PassSound(s) && Possible(s, x) && OfPass(x)
    ensures PassSound(Step(s, x))
  {
    hide WithRow;
  }

  /** Nobody else touches the pass, or takes the lock while it runs. */
  lemma {:induction false} HoldersOnly(s: State, x: Input)
    requires PassSound(s) && Possible(s, x) && !OfPass(x) && !x.UploadLocks? && !x.BackupLocks?
    ensures PassSound(Step(s, x))
  {
    hide Looked, Removed;
  }

  lemma {:induction false} StepIsWhole(s: State, x: Input)
    requires Whole(s) && Locking(s, x)
    ensures Whole(Step(s, x))
  {
    KeepsPassSound(s, x);
    if OfPass(x) { PassIsWhole(s, x); } else { OthersAreWhole(s, x); }
  }

  /** In every interleaving in which references are written under the shared lock, each
      committed row has its blob, always. */
  lemma {:induction false} ReferencesKeepTheirBlob(start: State, run: seq<Input>, k: nat)
    requires start.pass.None? && Stored(start)
    requires Runs.Allowed(start, run, Step, Locking) && k <= |run|
    ensures Stored(Runs.At(start, run, k, Step))
  {
    forall s: State, x: Input | Whole(s) && Locking(s, x) ensures Whole(Step(s, x)) { StepIsWhole(s, x); }
    Runs.Invariant(start, run, k, Step, Locking, Whole);
  }

  lemma {:induction false} KeyOf<K, V>(m: map<K, V>, v: V) returns (k: K)
    requires v in m.Values
    ensures k in m && m[k] == v
  {
    k :| k in m && m[k] == v;
  }

  /** Without the lock the re-check is not enough: a removal leaves every row its blob
      exactly when nothing has come to refer to the hash since. */
  lemma {:induction false} RemovalKeepsRowsIff(s: State)
    requires Safe(s) && Stored(s) && Possible(s, PassRemoves(true))
    ensures Stored(Step(s, PassRemoves(true))) <==> s.pass.value.listing[s.pass.value.next].0 !in Referenced(s)
  {
    var h := s.pass.value.listing[s.pass.value.next].0;
    if h in s.artifacts.Values {
      var row := KeyOf(s.artifacts, h);
      assert Step(s, PassRemoves(true)).artifacts[row] !in Step(s, PassRemoves(true)).blobs;
    } else if h in s.attachments.Values {
      var row := KeyOf(s.attachments, h);
      assert Step(s, PassRemoves(true)).attachments[row] !in Step(s, PassRemoves(true)).blobs;
    }
  }

  /** A row written without the lock between the re-check and the removal loses its blob. */
  lemma {:induction false} ForeignReferenceLosesBlob(s: State, row: int)
    requires Safe(s) && Stored(s) && Possible(s, PassRemoves(true))
    ensures var h := s.pass.value.listing[s.pass.value.next].0;
      !Stored(Step(Step(s, ForeignReference(Attachments, row, h)), PassRemoves(true)))
  {
    var h := s.pass.value.listing[s.pass.value.next].0;
    var t := Step(Step(s, ForeignReference(Attachments, row, h)), PassRemoves(true));
    assert row in t.attachments && t.attachments[row] == h && h !in t.blobs;
  }

  /** An upload that goes through leaves its row, and a blob for it: bytes that were on disk
      keep their time, and nothing else changes. */
  lemma {:induction false} UploadLands(s: State, u: int, hash: Hash, time: int, table: Table, row: int)
    requires Possible(s, UploadLocks(u))
    ensures var t := Step(Step(Step(s, UploadLocks(u)), UploadStores(u, hash, time)), UploadCommits(u, table, row));
      && hash in t.blobs && t.blobs[hash] == (if hash in s.blobs then s.blobs[hash] else time)
      && t == s.(blobs := s.blobs[hash := t.blobs[hash]], artifacts := t.artifacts, attachments := t.attachments)
      && t.artifacts == (if table.Artifacts? then s.artifacts[row := hash] else s.artifacts)
      && t.attachments == (if table.Attachments? then s.attachments[row := hash] else s.attachments)
  {
    var t := Step(Step(Step(s, UploadLocks(u)), UploadStores(u, hash, time)), UploadCommits(u, table, row));
    assert t.uploads == s.uploads;
    assert t.blobs == s.blobs[hash := t.blobs[hash]];
  }

  predicate LetsGo(x: Input, backup: bool, holder: int) {
    if backup then x == BackupUnlocks(holder) else x == UploadFails(holder) || (x.UploadCommits? && x.u == holder)
  }

  /** From the moment a backup or an upload holds the lock until it lets go no pass begins. */
  lemma {:induction false} HoldersKeepPassesOut(start: State, run: seq<Input>, j: nat, k: nat, holder: int)
    requires Runs.Allowed(start, run, Step, Possible) && j < k < |run|
    requires run[j] == BackupLocks(holder) || run[j] == UploadLocks(holder)
    requires forall i | j < i < k :: !LetsGo(run[i], run[j].BackupLocks?, holder)
    ensures run[k] != PassLocks
  {
    StillHeld(start, run, j, k, holder);
    assert Possible(Runs.At(start, run, k, Step), run[k]);
    hide Step;
  }

  predicate Held(s: State, backup: bool, holder: int) {
    if backup then holder in s.backups else holder in s.uploads
  }

  lemma {:induction false} StillHeld(start: State, run: seq<Input>, j: nat, k: nat, holder: int)
    requires j < k <= |run| && (run[j] == BackupLocks(holder) || run[j] == UploadLocks(holder))
    requires forall i | j < i < k :: !LetsGo(run[i], run[j].BackupLocks?, holder)
    ensures Held(Runs.At(start, run, k, Step), run[j].BackupLocks?, holder)
  {
    if j + 1 < k {
      StillHeld(start, run, j, k - 1, holder);
      StaysHeld(Runs.At(start, run, k - 1, Step), run[k - 1], run[j].BackupLocks?, holder);
      hide Step;
    }
  }

  lemma {:induction false} StaysHeld(s: State, x: Input, backup: bool, holder: int)
    requires Held(s, backup, holder)
    requires !LetsGo(x, backup, holder)
    ensures Held(Step(s, x), backup, holder)
  {
    hide Looked;
  }

  // ------------------------------------------------------------ what a pass does remove

  predicate Orphan(mtime: int, referenced: set<Hash>, now: int, h: Hash) {
    h !in referenced && now - mtime >= ORPHAN_MIN_AGE
  }

  /** A look picks the entry for removal exactly when it is at least an hour old, was in
      neither table when the pass read it, and is in neither now; else it is passed over. */
  lemma {:induction false} LooksIff(s: State)
    requires PassSound(s) && Possible(s, PassLooks)
    ensures var p, t := s.pass.value, Step(s, PassLooks); var (h, mtime) := p.listing[p.next];
      && t.pass.Some? && t == s.(pass := t.pass)
      && (t.pass.value.stage.Rechecked? <==>
            p.now - mtime >= 3_600_000 && h !in p.seenArtifacts && h !in p.seenAttachments && h !in Referenced(s))
      && (if t.pass.value.stage.Rechecked? then t.pass.value == p.(stage := t.pass.value.stage)
          else t.pass.value == p.(next := p.next + 1))
  {
  }

  /** The orphans among the first `n` entries. */
  predicate Passed(p: Pass, n: nat, referenced: set<Hash>, h: Hash) {
    exists j | 0 <= j < n :: j < |p.listing| && p.listing[j].0 == h && Orphan(p.listing[j].1, referenced, p.now, h)
  }

  /** Sweeping from `start` with nobody else about: what is gone is the orphans passed. */
  ghost predicate Cleaning(start: State, s: State) {
    && start.pass.Some? && s.pass.Some? && PassSound(s)
    && s.artifacts == start.artifacts && s.attachments == start.attachments
    && var p, q := start.pass.value, s.pass.value;
       && q.listing == p.listing && q.now == p.now && q.next <= |q.listing|
       && q.seenArtifacts == start.artifacts.Values && q.seenAttachments == start.attachments.Values
       && (q.stage.Sweeping? || (q.stage.Rechecked? && q.next < |q.listing|
             && Orphan(q.listing[q.next].1, Referenced(start), q.now, q.listing[q.next].0)))
       && (forall h :: h in s.blobs <==> h in start.blobs && !Passed(p, q.next, Referenced(start), h))
       && (forall h | h in s.blobs :: s.blobs[h] == start.blobs[h])
  }

  predicate Swift(s: State, x: Input) {
    match x
    case PassLooks => s.pass.Some? && s.pass.value.stage.Sweeping? && s.pass.value.next < |s.pass.value.listing|
    case PassRemoves(works) =>
      works && s.pass.Some? && s.pass.value.stage.Rechecked? && s.pass.value.next < |s.pass.value.listing|
    case _ => false
  }

  lemma {:induction false} PassedOne(p: Pass, n: nat, referenced: set<Hash>, h: Hash)
    requires n < |p.listing|
    ensures Passed(p, n + 1, referenced, h) <==>
      Passed(p, n, referenced, h) || (p.listing[n].0 == h && Orphan(p.listing[n].1, referenced, p.now, h))
  {
  }

  lemma {:induction false} CleaningStep(start: State, s: State, x: Input)
    requires Cleaning(start, s) && Swift(s, x)
    ensures Cleaning(start, Step(s, x))
  {
    var p, n := start.pass.value, s.pass.value.next;
    assert Possible(s, x);
    KeepsPassSound(s, x);
    forall h ensures Passed(p, n + 1, Referenced(start), h) <==>
      Passed(p, n, Referenced(start), h) || (p.listing[n].0 == h && Orphan(p.listing[n].1, Referenced(start), p.now, h))
    {
      PassedOne(p, n, Referenced(start), h);
    }
    if x.PassLooks? { LooksIff(s); }
    hide Passed, PassSound, Possible, WithRow;
  }

  /** A sweep undisturbed removes, of what is listed, exactly the orphans: at each moment
      those among the entries it has passed are gone, and every other blob is as it was. */
  lemma {:induction false} QuietSweepCleans(start: State, run: seq<Input>, k: nat)
    requires start.pass.Some? && PassSound(start) && start.pass.value.stage.Sweeping? && start.pass.value.next == 0
    requires start.pass.value.seenArtifacts == start.artifacts.Values
    requires start.pass.value.seenAttachments == start.attachments.Values
    requires Runs.Allowed(start, run, Step, Swift) && k <= |run|
    ensures Cleaning(start, Runs.At(start, run, k, Step))
  {
    var inv := s => Cleaning(start, s);
    forall s: State, x: Input | inv(s) && Swift(s, x) ensures inv(Step(s, x)) { CleaningStep(start, s, x); }
    Runs.Invariant(start, run, k, Step, Swift, inv);
  }

  /** A pass up to its listing. */
  function Opened(start: State, now: int, listing: seq<(Hash, int)>): State {
    Step(Step(Step(Step(start, PassLocks), PassReadsArtifacts), PassReadsAttachments), PassLists(now, listing))
  }

  /** The directory as it is: every blob once or more, with its time. */
  predicate ListsAll(blobs: map<Hash, int>, listing: seq<(Hash, int)>) {
    && (forall k | 0 <= k < |listing| :: listing[k].0 in blobs && blobs[listing[k].0] == listing[k].1)
    && (forall h | h in blobs :: exists k :: 0 <= k < |listing| && listing[k].0 == h)
  }

  /** A whole pass with nobody else about, every deletion working, leaves exactly the blobs
      that are referenced or younger than an hour. */
  lemma {:induction false} QuietPassCleans(start: State, now: int, listing: seq<(Hash, int)>, sweep: seq<Input>)
    requires start.pass.None? && start.uploads.Keys == {} && start.backups == {} && ListsAll(start.blobs, listing)
    requires Runs.Allowed(Opened(start, now, listing), sweep, Step, Swift)
    ensures var end := Runs.At(Opened(start, now, listing), sweep, |sweep|, Step);
      && end.pass.Some? && end.artifacts == start.artifacts && end.attachments == start.attachments
      && (end.pass.value.next == |listing| ==>
            forall h :: h in end.blobs <==>
              (h in start.blobs && (h in Referenced(start) || now - start.blobs[h] < 3_600_000)))
  {
    var before := Opened(start, now, listing);
    assert before.pass.value.referenced == before.pass.value.seenArtifacts + before.pass.value.seenAttachments;
    assert before.blobs == start.blobs && Referenced(before) == Referenced(start);
    hide Step;
    QuietSweepCleans(before, sweep, |sweep|);
    var end := Runs.At(before, sweep, |sweep|, Step);
    assert Cleaning(before, end);
    if end.pass.value.next == |listing| {
      forall h | h in start.blobs
        ensures Passed(before.pass.value, |listing|, Referenced(start), h)
                <==> Orphan(start.blobs[h], Referenced(start), now, h) {
        var k :| 0 <= k < |listing| && listing[k].0 == h;
        assert listing[k].1 == start.blobs[h];
      }
    }
  }

  // ----------------------------------------------------------------- a quiet pass

  /** The store and the tables when nothing else runs: the pass as the source has it. */
  class Store {
    var blobs: map<Hash, int>
    const artifacts: map<int, Hash>
    const attachments: map<int, Hash>

    constructor (blobs: map<Hash, int>, artifacts: map<int, Hash>, attachments: map<int, Hash>)
      ensures this.blobs == blobs && this.artifacts == artifacts && this.attachments == attachments
    {
      this.blobs, this.artifacts, this.attachments := blobs, artifacts, attachments;
    }

    /** Exactly the blobs that are old and unreferenced go, save those whose file
        could not be deleted; every entry is deleted, kept, or failed. */
    method GcOrphanBlobs(now: int, listing: seq<(Hash, int)>, failing: set<Hash>) returns (deleted: nat, kept: nat)
      requires forall j, k | 0 <= j < k < |listing| :: listing[j].0 != listing[k].0
      requires forall k | 0 <= k < |listing| :: listing[k].0 in blobs && blobs[listing[k].0] == listing[k].1
      requires forall h | h in blobs :: exists k :: 0 <= k < |listing| && listing[k].0 == h
      modifies this`blobs
      ensures forall h :: h in blobs <==>
                h in old(blobs) && (h in failing
                    || !Orphan(old(blobs)[h], artifacts.Values + attachments.Values, now, h))
      ensures forall h | h in blobs :: blobs[h] == old(blobs)[h]
      ensures |old(blobs)| == |blobs| + deleted && deleted + kept <= |listing|
    {
      var referenced := artifacts.Values + attachments.Values;
      deleted, kept := 0, 0;
      var i := 0;
      while i < |listing|
        invariant i <= |listing| && deleted + kept <= i && |old(blobs)| == |blobs| + deleted
        invariant forall h | h in blobs :: h in old(blobs) && blobs[h] == old(blobs)[h]
        invariant forall k | i <= k < |listing| :: listing[k].0 in blobs
        invariant forall k | 0 <= k < i ::
                    listing[k].0 in blobs <==> (listing[k].0 in failing
                        || !Orphan(listing[k].1, referenced, now, listing[k].0))
      {
        var (hash, mtime) := listing[i];
        i := i + 1;
        if hash in referenced { kept := kept + 1; continue; }
        var age := if now >= mtime then now - mtime else 0;
        if age < ORPHAN_MIN_AGE { kept := kept + 1; continue; }
        if hash !in failing {
          assert |blobs - {hash}| == |blobs| - 1 by { assert (blobs - {hash}).Keys == blobs.Keys - {hash}; }
          blobs := blobs - {hash};
          deleted := deleted + 1;
        }
      }
    }
  }
}
