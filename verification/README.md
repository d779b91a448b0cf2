# Sentori: models and proofs

Seven pieces of Sentori modelled in Dafny, each with its properties proved.

- **Audience compiler** (`Json`, `SqlCasts`, `AudienceTree`, `AudienceReader`, `AudienceCompiler`, `Sql`,
  `AudienceSyntax`, `AudienceMeaning`, `AudienceText`, `AudienceLimits`, `AudienceAsks`). JSON is parsed under a budget
  and a depth into a tree, and compiled to a SQL fragment as tokens. An SQL reader with the operators' precedence and an
  evaluator in three-valued logic, where connectives leave out what is decided and casts can abort, give the fragment its
  meaning independently of the compiler; what the JSON asks of a device is said of the JSON itself.
- **Replay** (`ReplayCodec`, `ReplayRing`, `ReplayShows`, `ReplayRecorder`). Keyframes, deltas, eviction and draining,
  against a decoder that plays entries, and what all of them say in terms of the frames captured.
- **Application discovery** (`AppTables`, `AppDiscovery`, `AppInference`, `AppAbsorption`, `AppRegistry`). Tables as maps, one observation, creation or
  edit as one transition, runs in the order their transactions held the lock.
- **Event transport** (`TransportModel`, `TransportSafety`, `TransportQueue`). A step machine over the stretches of code
  between two awaits, with any number of flushes waiting, a server that may keep or drop each event and say so or not,
  and a storage that may do other than it answers; the class has a method for each stretch.
- **Digest** (`Utf8`, `Utf16`, `Words`, `Sha256`, `Sha256Js`, `Sha256Constants`). UTF-16 to UTF-8 against a strict
  decoder, and the JavaScript SHA-256 against FIPS 180-4.
- **Server maintenance** (`BackfillTables`, `BackfillSplit`, `Backfill`, `BlobGc`). The issue split as table
  transactions, and blob garbage collection interleaved with uploads, row deletions and backups.
- **Buffers and limiters** (`Visits`, `SourcePaths`, `SourceWanted`, `SourceArchive`, `SourceInspect`, `SourceAccepted`,
  `Limiters`).

`Runs` holds the induction over runs that the step machines share, `Prelude` small datatypes. `dafny verify dfyconfig.toml`
checks everything.

## What is assumed

What the code gets from elsewhere is a parameter: `sentori_app_identifier`, the server's text of a JSON value, the
client's text of a float, the hash of an app user id, `group_identity` and `compute_fingerprint`, zip, JSON text, the
archive digest and sort. Only these facts about them are used: a float prints as a decimal text (`PrintsDecimals`);
fingerprints of different environments or platforms differ, and mixed issues carry none of them (`Separates`, `Sound` in
`BackfillSplit`); an archive unpacks to what was packed, a manifest reads back as written, and sorting rearranges and is
idempotent (`Faithful`). Generated ids are new.

`FragmentMeans` takes connectives to be evaluated from left to right and to leave out what is decided, as the executor
does with a compiled expression; PostgreSQL promises no order (section 4.2.14 of its manual) and may fold a constant
early, and `FragmentMeansInAnyOrder` is what holds then.

What `NoUncountedLoss` takes for granted, all of it exact (`BooksBalanceApartIff`, `UndeliveredAreCountedIff`), and each
with a run that loses an event uncounted where it fails:

- Persists and drains do not overlap. Nothing in `sdk/core/src/transport.ts` keeps them apart (`UncountedLossHappens`).
- The storage is this transport's alone. Two pages of one origin share the `localStorage` key (`SharedStoreLoses`).
- `storage()` does not reject: that call stands before the `try` of `persist` (`RejectingStorageLoses`).
- What resolves took effect, what rejects to remove did not, and a read that answers nothing was of an empty store or its
  merge was never written. `sdk/web/src/transport.ts` swallows what `setItem` and `removeItem` throw (46-60) and answers
  `null` when `getItem` throws (39-45); `sdk/weapp/src/transport.ts` does the same (35-62), and returns without writing
  when the text is over 256 KiB (49) (`SilentWriteLoses`, `BlindReadLoses`).

And the counts cover what the server did not keep only where each answer lists an error for it. An answer of 4xx, and a
2xx whose body does not parse, list none, and the batch is over all the same (`RefusedBatchLoses`); neither does the
`filtered` outcome of an event the server drops by policy (`events_batch.rs` 296-303).

JavaScript numbers are integers here: the digest's sums stay below 2^53, where doubles are exact. Replay timestamps and
coordinates are reals.

## Where code and documentation differ

The code was followed. `docs/replay-encoding-v2.md` identifies a node by its rectangle alone (line 63); the code adds an
occurrence number, without which two equal rectangles would be one node. `self-report.ts` speaks of a rolling minute
(line 9); its window is fixed, so a minute can hold twice the budget. `docs/protocol.md` (739-742) has 400, 401, 403 and
413 for whole batches; the transport ends such a batch like any other, counts nothing, and releases its attachments
although the comment there (271-273) has the events exist. The server refuses more than 200 events at once
(`events_batch.rs` 38, 276-285); the transport sends whatever is queued, up to 1000 and more after a drain
(`LongDrainIsDiscarded`). The migration of `sentori_version_key` calls its key NULL for anything unparseable, and
`audience.rs` (549-552) relies on that; a segment over 2^63-1 is an error instead, which aborts the statement and so the
send to everybody (`LongVersionAborts`). The guard around the `numeric` cast (527-531) does not look at length either. A
manifest accepted by `inspectSourceArchive` lists the files, except that a row may name the manifest in place of one of
them (`AcceptedManifest`). `byteLength` calls itself the UTF-8 length; on strings with unpaired surrogates it is not, by
exactly the drift. The web and mini program storages say that the core transport counts what they could not keep (web
50-51, weapp 25-27 and 53-54); it counts what `setItem` rejects, and theirs never do.

## Model

| member | source | states |
|---|---|---|
| `AudienceReader.Parser.Parse` | self-hosted/server/src/audience.rs:261-312 | The budget-decrementing parse agrees with the recursive specification: same tree, same refusal, same budget left. |
| `AudienceReader.Parser.ParseItems` | self-hosted/server/src/audience.rs:314-327 | Branches are read in order and stop at the first refusal, budget threaded through. |
| `AudienceReader.Parser.ParseCondition` | self-hosted/server/src/audience.rs:329-379 | Subject, `in` expansion, budget and depth checks, and comparison, in the order the code takes them; `AudienceAsks.ReadMeans` says what the tree it yields means, and `AudienceAsks.AcceptedIff` when there is one. |
| `AudienceReader.FromRequest` | self-hosted/server/src/audience.rs:203-259 | At most one of the three forms; empty `traits` and an empty user id are refused; no form at all is no audience. |
| `AudienceAsks.ReadMeans` | self-hosted/server/src/audience.rs:261-468 | The tree read from any JSON means on every device what the JSON asks, said by its members alone: `isNot` is the negation of `is`, `exists: false` of `exists: true`, `in` is equality with one of the values and false for none, `user` is the hashed key, comparisons by their operators. |
| `AudienceAsks.RequestMeans` | self-hosted/server/src/audience.rs:185-574 | End to end: the fragment compiled from an accepted request, parsed and evaluated with its binds, has the truth value the request asks for, or is an error exactly when a leaf evaluated for this device is one. |
| `AudienceAsks.AcceptedIff` | self-hosted/server/src/audience.rs:261-468 | JSON is accepted exactly when it is well-formed (a condition on its members), its price is within the budget and it nests within the depth; what is left of the budget is the budget less that price. |
| `AudienceLimits.ReadWithin` | self-hosted/server/src/audience.rs:261-468 | Every accepted (sub)tree: leaves and overhead fit the budget spent, height fits the depth left, no empty disjunction. Termination on any JSON is the function's own decrease. |
| `AudienceLimits.AcceptedIsBounded` | self-hosted/server/src/audience.rs:251-256 | Whatever an expression of any size looks like, an accepted tree has at most 63 conditions, 126 binds and height 10 — under the documented 64 and 128. |
| `AudienceLimits.RoundTrip` | self-hosted/server/src/audience.rs:261-468 | An expression written out as JSON is read back unchanged, and is refused exactly when its cost exceeds the budget or it nests too deep. |
| `AudienceLimits.InIsAny` | self-hosted/server/src/audience.rs:349-376 | `in` is `any` over equalities: accepted for the same budgets and depths, with the same tree and the same budget left. |
| `AudienceCompiler.TakenIsBinds` | self-hosted/server/src/audience.rs:576-581 | The counter advances by exactly the number of binds pushed. |
| `AudienceCompiler.Emitter.Take` | self-hosted/server/src/audience.rs:576-581 | A placeholder names the bind pushed for it. |
| `AudienceCompiler.Emitter.Compile` | self-hosted/server/src/audience.rs:470-569 | The mutable walk emits the fragment of the tree at the current counter, appends its binds and advances the counter by them. |
| `AudienceCompiler.Emitter.Join` | self-hosted/server/src/audience.rs:571-574 | A parenthesised group: the branches in order, separated, each with its own placeholders. |
| `AudienceCompiler.ToSql` | self-hosted/server/src/audience.rs:185-190 | Fragment and binds of the whole tree from one walk, numbered from the given index. |
| `AudienceText.HolesAreBinds` | self-hosted/server/src/audience.rs:179-190 | The fragment's placeholders are exactly next .. next+|binds|-1. |
| `AudienceText.TextIgnoresValues` | self-hosted/server/src/audience.rs:470-574 | Two trees of one shape have the same text: no caller value reaches the SQL. |
| `AudienceSyntax.FragmentParses` | self-hosted/server/src/audience.rs:470-574 | Read with SQL precedence the fragment parses completely, to the intended expression — exactly when the tree has no empty disjunction. |
| `AudienceMeaning.FragmentMeans` | self-hosted/server/src/audience.rs:470-574 | Parsed and evaluated in three-valued logic with its binds in place, the fragment is an error exactly when a leaf evaluated for this device is one (a version, of the device or compared with, with a segment over 2^63-1; a decimal text of the device compared as a number where it or the bound is beyond `numeric`), and otherwise has the Kleene value of the tree. |
| `AudienceMeaning.FragmentMeansInAnyOrder` | self-hosted/server/src/audience.rs:470-574 | Whichever side of each connective is evaluated first, or both: the Kleene value or an error, and no error where no leaf of the tree is one. |
| `AudienceMeaning.LongVersionAborts` | core/migrations/0014_device_traits.sql:44-53 | The concrete failing family: twenty nines, as the device's version or as the one compared with, abort the statement in any order. |
| `SqlCasts.KeyOfDotted` | core/migrations/0014_device_traits.sql:44-53 | Numbers with dots between them, a `v` before them or not and whatever may follow, have their first four as key, padded with zeros, or are out of range exactly when one of them, kept or not, is over 2^63-1. |
| `SqlCasts.SegmentsSpell` | core/migrations/0014_device_traits.sql:44-53 | And every text with a key is of that form, read as far as the pattern goes. |
| `SqlCasts.UnreadableIff` | core/migrations/0014_device_traits.sql:44-53 | A text has no key exactly when no digit comes first, after a `v`; a key has four numbers. |
| `AudienceMeaning.EvalIs` | self-hosted/server/src/audience.rs:499-514 | Containment for scalars and plain comparison for objects and arrays both mean "this member has this value"; only the second can be NULL. |
| `AudienceMeaning.EvalIssue` | self-hosted/server/src/audience.rs:483-492 | The EXISTS condition is true exactly for a hit of that issue in the device's own project, never NULL. |
| `AudienceMeaning.GuardedCompare` | self-hosted/server/src/audience.rs:527-547 | The CASE guard keeps the cast from what is not a decimal text, which compares false; a decimal text is compared by value, or aborts exactly when it or the bound has more than 131072 digits before the point or 16383 after. |
| `AudienceMeaning.EvalVersion` | self-hosted/server/src/audience.rs:549-567 | Version comparison is on keys; an unreadable or absent version is false, and a version out of range on either side aborts, even where the other side is absent. |
| `AudienceMeaning.KeyLessIff` | self-hosted/server/src/audience.rs:549-567 | Of two version keys the first number in which they differ decides; keys of one length are ordered one way or the other. |
| `AudienceMeaning.KnownIsNotNull` | self-hosted/server/src/audience.rs:91-100 | A tree is never NULL on a row on which its userKey and object- or array-valued `is` leaves are known. |
| `AudienceMeaning.TwoValuedIsKnown` | self-hosted/server/src/audience.rs:91-100 | Trees with no userKey leaf and no object- or array-valued `is` are known on every row. |
| `AudienceMeaning.NegationIsComplement` | self-hosted/server/src/audience.rs:475-475 | For those trees `not` selects exactly the complement, on every device whose evaluation is no error. |
| `AudienceMeaning.NegationLosesExactly` | self-hosted/server/src/audience.rs:475-514 | For a single leaf condition that is no error: a row is lost to both the leaf and its negation exactly where the leaf is one of the two nullable ones and NULL. |
| `AudienceMeaning.NegatedUserKeyDropsAnonymous` | self-hosted/server/src/audience.rs:478-481 | The concrete failing family: a device with no user key is in neither `userKey = k` nor its negation. |
| `ReplayCodec.IdsDistinct` | sdk/core/src/replay-ring.ts:92-107 | Occurrence suffixes make the ids of one frame distinct. |
| `ReplayCodec.IndexKeepsAll` | sdk/core/src/replay-ring.ts:97-107 | The index of a frame holds every node, each under its own id with its own position. |
| `ReplayCodec.IndexNodes` | sdk/core/src/replay-ring.ts:97-107 | The loop over nodes builds that index. |
| `ReplayCodec.ComputeDelta` | sdk/core/src/replay-ring.ts:116-141 | The two loops build the specified delta. |
| `ReplayCodec.DeltaPlays` | sdk/core/src/replay-ring.ts:116-141 | Playing the delta on the previous picture gives the next one: id to kind, colour, text. |
| `ReplayCodec.UntouchedIsSame` | sdk/core/src/replay-ring.ts:171-174 | A delta is empty exactly when the two pictures are equal, so a suppressed frame changes nothing. |
| `ReplayRing.ReplayRing.constructor` | sdk/core/src/replay-ring.ts:151-155 | A new ring is empty and cold. |
| `ReplayRing.ReplayRing.Keyframe` | sdk/core/src/replay-ring.ts:206-215 | A keyframe is the frame itself, and restarts the keyframe clock. |
| `ReplayRing.ReplayRing.Push` | sdk/core/src/replay-ring.ts:163-186 | New ring state and return value as specified: keyframe when cold, overdue or mostly changed, delta otherwise, nothing when unchanged. |
| `ReplayRing.ReplayRing.Snapshot` | sdk/core/src/replay-ring.ts:188-191 | The entries, unchanged. |
| `ReplayRing.ReplayRing.Drain` | sdk/core/src/replay-ring.ts:198-204 | Hands over the entries and leaves the ring cold. |
| `ReplayRing.ReplayRing.Evict` | sdk/core/src/replay-ring.ts:217-221 | Both loops together drop from the front what is too old or too much. |
| `ReplayRing.RunTracks` | sdk/core/src/replay-ring.ts:163-204 | In every run of pushes and drains decoding everything emitted gives the last pushed frame's picture, including after suppressed frames. |
| `ReplayRing.LogGrows` | sdk/core/src/replay-ring.ts:163-204 | What was emitted stays emitted: logs only grow at the end. |
| `ReplayRing.Playback` | sdk/core/src/replay-ring.ts:163-204 | From any keyframe onward, decoding the entries up to any later push reproduces that push's picture. |
| `ReplayRing.KeyRestarts` | sdk/core/src/replay-ring.ts:206-215 | Decoding from a keyframe equals decoding from the start. |
| `ReplayRing.RunRetains` | sdk/core/src/replay-ring.ts:163-221 | The ring is always the end of the log and holds the keyframe in force unless the item cap pushed it out; timestamps may come in any order. |
| `ReplayRing.EvictedIsSuffix` | sdk/core/src/replay-ring.ts:217-221 | Eviction keeps an end of the entries, within the cap, and everything from the first entry young enough on; what it leaves starts with one, or is as much as the cap allows. |
| `ReplayRing.FreshKeyframe` | sdk/core/src/replay-ring.ts:163-221 | After a push that appends, the keyframe in force is younger than the cadence, and is in the ring exactly when no more than maxItems entries were emitted from it on. |
| `ReplayShows.FrameDraws` | sdk/core/src/replay-ring.ts:92-107 | The picture of a frame has one box for every node and no other: at its coordinates without their fractions, told apart by how many before it have the same, with its kind, colour and text. |
| `ReplayShows.TouchedIsDiffering` | sdk/core/src/replay-ring.ts:116-141 | A delta lists every box on which two pictures differ, once: the number the threshold looks at. |
| `ReplayShows.DeltaLists` | sdk/core/src/replay-ring.ts:116-141 | What a delta adds, changes and removes is copied from the two frames, each under its own identity, with its position in the walk or its own geometry. |
| `ReplayShows.EveryPushAppends` | sdk/core/src/replay-ring.ts:163-215 | In every run a push appends nothing exactly when no keyframe is due and no box changes; otherwise one entry at the frame's time: a keyframe with the frame's width, height and nodes when one is due or at least four tenths of ten or more boxes change, else a delta from one of the frames since the ring was cold. |
| `ReplayShows.PlaybackDraws` | sdk/core/src/replay-ring.ts:163-204 | From any keyframe onward a player draws exactly the boxes of the frame pushed last, as they were captured. |
| `ReplayRecorder.Recorder.Start` | sdk/react-native/src/replay.ts:75-107 | A running recorder ignores a start; otherwise a fresh ring of a thousand items at most, whose cadence is the one asked for, or four seconds, or the window if that is shorter. |
| `ReplayRecorder.Recorder.Sync` | sdk/react-native/src/replay.ts:170-178 | Background or a new epoch forgets everything; otherwise nothing changes. |
| `ReplayRecorder.Recorder.EncodeAndPush` | sdk/react-native/src/replay.ts:180-185 | A non-finite timestamp is ignored; a clock that steps back starts a new recording; the ring's timestamps stay ordered. |
| `ReplayRecorder.Recorder.DrainReplay` | sdk/react-native/src/replay.ts:261-269 | Hands over one stretch of the log, from the first keyframe in the window on, that draws exactly the last frame captured by `now`; nothing exactly when the recording was just forgotten or no keyframe is in the window; leaves the ring cold. |
| `ReplayRecorder.PushKeepsOrder` | sdk/react-native/src/replay.ts:180-185 | A push of a frame no older than the last keeps the ring ordered and an end of the log. |
| `ReplayRecorder.WindowIsSlice` | sdk/react-native/src/replay.ts:261-263 | On ordered entries the window filter keeps a contiguous run. |
| `ReplayRecorder.DrainedIsSlice` | sdk/react-native/src/replay.ts:263-266 | A drain keeps one stretch of the ring, from the first keyframe in the window to the end of the window, and nothing exactly when the window holds no keyframe. |
| `ReplayRecorder.DrainPlays` | sdk/react-native/src/replay.ts:261-269 | A drain is nothing, or a contiguous run starting with a keyframe that decodes to the picture the log had there. |
| `ReplayRecorder.PushIsSound` | sdk/react-native/src/replay.ts:180-185 | A captured frame keeps what ties the log to the frames: up to each frame's end it decodes to that frame, holds nothing later, and what follows comes from later frames. |
| `ReplayRecorder.DrainEndsOn` | sdk/react-native/src/replay.ts:261-269 | So whatever was captured and suppressed before, a drain draws at its end the last frame captured no later than its `now`. |
| `AppTables.LimitTwoIsRule` | self-hosted/server/src/apps.rs:68-74 | Two rows in the query's order decide as the whole candidate set does: the only candidate, or the only explicit one. |
| `AppRegistry.Registry.SelectTwo` | self-hosted/server/src/apps.rs:83-108 | The `ORDER BY … LIMIT 2` rows, ties in any order. |
| `AppRegistry.Registry.ReleaseId` | self-hosted/server/src/apps.rs:34-60 | Finds or inserts the release; the empty name has none. |
| `AppRegistry.Registry.InferredApp` | self-hosted/server/src/apps.rs:76-109 | Exact release first, namespace only when that is empty of candidates. |
| `AppRegistry.Registry.ResolveApp` | self-hosted/server/src/apps.rs:111-155 | Infer, look up, or rename an inferred application under every guard of the UPDATE; ambiguity clears the identifier. Where that leads is said of the links alone by `AppInference.UnlabelledGoesThere` and `AppAbsorption.LabelledGoesThere`. |
| `AppInference.UnlabelledGoesThere` | self-hosted/server/src/apps.rs:76-135 | An observation without an identifier of its own is filed under the one application, or the one explicit one, linked to its release; where none is, the one related by a non-empty namespace; where several are and no single explicit one, the application with the empty identifier; else the one its release names. |
| `AppInference.UnlabelledKeepsTheOne` | self-hosted/server/src/apps.rs:76-124 | And leaves that release with that one application. |
| `AppInference.RunFilesThere` | self-hosted/server/src/apps.rs:111-299 | Over runs: while a release has one application its unlabelled observations are filed there. |
| `AppInference.PlaceholderIff` | self-hosted/server/src/apps.rs:250-253 | A release identifies no build exactly when it says `unknown`, in letters of any case, with nothing but white space around. |
| `AppAbsorption.LabelledGoesThere` | self-hosted/server/src/apps.rs:125-155 | An observation with an identifier of its own is filed under the application of that identifier; where there is none, under the inferred one its build belongs to, exactly when no explicit one has that build or one of its name; else under a new one. `AppDiscovery.ObserveKeeps` has it carry the identifier afterwards. |
| `AppAbsorption.ObserveAbsorbs` | self-hosted/server/src/apps.rs:178-236 | An observation merges an application away exactly when that is the inferred one of the same build, not contradicted in name, repository or kind and not claimed by another explicit one; its events and sessions, and no others, move. |
| `AppAbsorption.ObserveInherits` | self-hosted/server/src/apps.rs:206-299 | What is left has every name, repository and known kind, and the times of sight and creation, of what went into it, none from elsewhere, and was seen now if it was seen; other applications are as before. |
| `AppAbsorption.ObserveLinks` | self-hosted/server/src/apps.rs:157-176 | The application an observation is filed under is linked to its release, seen now unless it was an upload. |
| `AppRegistry.Registry.LinkRelease` | self-hosted/server/src/apps.rs:157-176 | A new link is first seen now; an old one keeps its first sight and its last sight never goes back; an upload is no sight; every other link stays. |
| `AppRegistry.Registry.MergeInferredApp` | self-hosted/server/src/apps.rs:178-236 | Merges under all the guards of the SELECT, otherwise changes nothing. |
| `AppRegistry.Registry.Absorb` | self-hosted/server/src/apps.rs:206-236 | The five statements of a merge have exactly the specified result. |
| `AppRegistry.Registry.Accept` | self-hosted/server/src/apps.rs:266-283 | Touches the existing application or inserts one. |
| `AppRegistry.Registry.ObserveOne` | self-hosted/server/src/apps.rs:240-299 | A whole observation, statement by statement, is the specified transition. |
| `AppRegistry.Registry.ObserveArtifact` | self-hosted/server/src/apps.rs:303-339 | Native kinds only, and only when the build has no application there; constraints and explicit identities are kept. |
| `AppDiscovery.MergeConserves` | self-hosted/server/src/apps.rs:206-236 | A merge keeps every event and session, moves exactly the alias's, and gives the survivor the union of both link sets with the earlier first-seen and the later last-seen; other applications, releases and links are as before. The web tables are the next row's. |
| `AppDiscovery.MergeDropsWeb` | core/migrations/0039_web_observability.sql:2-61 | The delete cascades to the alias's visits, checks and check runs, and to the runs of its checks; a merge leaves the web tables alone exactly when no row of them is the alias's. |
| `AppDiscovery.ExplicitWebStays` | self-hosted/server/src/apps.rs:186-193 | Over every run no merge takes a web row of an explicit application, whose check, if it is a run, is one too. |
| `AppDiscovery.MergeSound` | self-hosted/server/src/apps.rs:206-236 | After a merge every row is attached to an application of its own project and platform. |
| `AppDiscovery.ObserveKeeps` | self-hosted/server/src/apps.rs:240-299 | One observation keeps the constraints, renames or deletes no explicit application, and returns one of the right project and platform with the explicit identifier when there is one. |
| `AppDiscovery.FiledKeeps` | self-hosted/server/src/pipeline.rs:577-590 | The same with the accepted row attached to the application returned. |
| `AppDiscovery.FiledRows` | self-hosted/server/src/pipeline.rs:577-590 | Filing drops no event or session filed before, moves none to another project or platform, and puts the new one under the application returned. |
| `AppDiscovery.ActKeeps` | self-hosted/server/src/handlers/admin/apps.rs:123-222 | Creating and editing applications keeps the constraints, the explicit identities and the filed rows, as an observation does. |
| `AppDiscovery.EditsExclude` | self-hosted/server/src/handlers/admin/apps.rs:212-222 | Of two edits from one version of an application only the first applies, and it sets what it says and nothing else: a text sets, an empty text clears, none leaves. |
| `AppDiscovery.RunSound` | core/migrations/0037_project_apps.sql:19-48 | Over every run, of observations and administrators' requests, (project, platform, identifier) stays unique and all rows stay attached to an application of their own. |
| `AppDiscovery.IdentitiesArePermanent` | self-hosted/server/src/apps.rs:178-236 | Over every run, with administrators creating and editing in between, explicit applications keep project, platform and identifier and are never deleted; no filed event or session is ever dropped or detached. |
| `AppDiscovery.ExplicitIsPermanent` | self-hosted/server/src/apps.rs:186-188 | Over every run of observations an application that has become explicit is never renamed, deleted or made inferred again; its times of sight only advance, and a name, repository or known kind once filled in stays. |
| `AppDiscovery.ExplicitIdentityIsExact` | self-hosted/server/src/apps.rs:240-299 | Two explicit observations of a run are filed under one application exactly when project, platform and identifier agree, whatever was observed, created and edited before and in between. |
| `TransportQueue.Transport.EnqueueEvent` | sdk/core/src/transport.ts:109-117 | Append, trim to the newest 500 and count, flush at ten: exactly that step. |
| `TransportQueue.Transport.CountDropped` | sdk/core/src/transport.ts:98-100 | Adds to the counter and to the total ever counted. |
| `TransportQueue.Transport.FlushNow` | sdk/core/src/transport.ts:240-261 | The part before the first await: nothing without start, config or content; otherwise takes the queue and the loss count together. |
| `TransportQueue.Transport.AnswerFlight` | sdk/core/src/transport.ts:189-203 | Any answer but 429 and 5xx ends the batch; outcomes with an error are counted, and no others. |
| `TransportQueue.Transport.SendQueuedAttachments` | sdk/core/src/transport.ts:300-307 | Takes the list out before its first await, so a second call finds none; that it is handed over is `TransportSafety.ResumeHandsOver`. |
| `TransportQueue.Transport.ResumeFlight` | sdk/core/src/transport.ts:271-276 | Releases the attachments of every event of the batch that has an id. |
| `TransportQueue.Transport.FailSend` | sdk/core/src/transport.ts:205-219 | Retries twice, then persists; an empty batch just ends. |
| `TransportQueue.Transport.RejectStorage` | sdk/core/src/transport.ts:221-223 | `storage()` rejects outside the `try`: the batch ends with the flush and is not counted. |
| `TransportQueue.Transport.FailPersist` | sdk/core/src/transport.ts:223-237 | No storage, a failed read or a failed write: the batch is counted and gone, or, where the rejected write took effect, counted and kept. |
| `TransportQueue.Transport.MergePersisted` | sdk/core/src/transport.ts:228-233 | Appends to what the read answered, which may be nothing over a store that holds something, keeps the newest 1000 and counts what that drops before writing. |
| `TransportQueue.Transport.WritePersisted` | sdk/core/src/transport.ts:234-234 | The write resolves: it replaced whatever the storage holds by then, or it did nothing; the code goes on alike. |
| `TransportQueue.Transport.TakeDrained` | sdk/core/src/transport.ts:368-372 | A drain reads; what it reads as nothing it leaves alone. |
| `TransportQueue.Transport.RemoveDrained` | sdk/core/src/transport.ts:373-373 | The removal resolves, having taken effect or not, and the drain carries what it read. |
| `TransportQueue.Transport.PushDrained` | sdk/core/src/transport.ts:367-379 | What was read goes to the end of the queue, in order, and is flushed. |
| `TransportQueue.Transport.QueueAttachment` | sdk/core/src/transport.ts:289-298 | Appends to the event's list. |
| `TransportSafety.NoUncountedLoss` | sdk/core/src/transport.ts:109-117 | In every run whose persists and drains do not overlap, over a host that keeps what it says: each copy of an event taken in is queued, in flight, stored, in a drain, delivered, discarded by the server or lost; the counts cover losses and discarded events but for what answers left unsaid, which is nothing exactly when every answer listed an error for each event it did not keep; every count is waiting, riding a batch, reported, or forfeited with its batch. |
| `TransportSafety.UndeliveredAreCountedIff` | sdk/core/src/transport.ts:176-202 | In every run at all: counts and what was left unsaid make up losses, discarded events, trims under way, counts for nothing and spare errors. Where answers list no error for an event they keep, the counts that stand for something cover losses and undelivered events exactly when every answer listed an error for each event it did not keep. |
| `TransportSafety.WholesaleDiscards` | docs/protocol.md:735-744 | An answer without outcomes that keeps nothing, as every 4xx: the whole batch is discarded, nothing is counted, and it owns up only to an empty one. |
| `TransportSafety.RefusedBatchLoses` | sdk/core/src/transport.ts:167-202 | For each number of events up to the queue's limit, a complete run without overlap over a host that keeps what it says: the one batch is answered with a 4xx, its events are nowhere, and the count is zero. |
| `TransportSafety.LongDrainIsDiscarded` | self-hosted/server/src/handlers/sdk/events_batch.rs:266-285 | Against a server that refuses more than 200 events at once, a drain that makes the queue longer than that loses all of it, uncounted. |
| `TransportSafety.StepKeepsBooks` | sdk/core/src/transport.ts:205-284 | The invariant behind it, for every step of any number of flushes. |
| `TransportSafety.StepDrifts` | sdk/core/src/transport.ts:205-284 | The conservation law, in every state, whatever overlaps and whatever storage and other pages do: a step changes how many copies of an event there are only by its drift, which is zero but for writes, removals, a storage that rejects and changes from elsewhere. |
| `TransportSafety.StepIsSafeIff` | sdk/core/src/transport.ts:205-284 | From balanced books a step keeps them balanced exactly when it is harmless, and misses no event exactly when it spares what the store holds. |
| `TransportSafety.BooksBalanceIff` | sdk/core/src/transport.ts:205-284 | The books of any run at all balance throughout exactly when each of its steps is harmless. |
| `TransportSafety.BooksBalanceApartIff` | sdk/core/src/transport.ts:54-58 | Where persists and drains do not overlap, exactly when the host keeps what it says: what resolves took effect, what rejects to remove did not, no read is blind, `storage()` does not reject, and nobody else changes the store. |
| `TransportSafety.SparedRunsMissNone` | sdk/core/src/transport.ts:221-284 | Runs in which nothing replaces the store by less than it held miss no event, even where a removal that did nothing doubles some. |
| `TransportSafety.CountsAlwaysAddUp` | sdk/core/src/transport.ts:98-100 | In every run, overlapping or not, over any host: each count stands for an event lost, a refused outcome, an event a write in progress has trimmed, or one counted and not lost; so losses and refusals never exceed it. |
| `TransportSafety.WriteIsSafeIff` | sdk/core/src/transport.ts:221-238 | A write that resolves keeps balanced books balanced exactly when it took effect and the storage still held what was read. |
| `TransportSafety.OverlapLosesUncounted` | sdk/core/src/transport.ts:221-238 | Two persists that both read first leave only the second batch, and no count. |
| `TransportSafety.UncountedLossHappens` | sdk/core/src/transport.ts:221-284 | A complete run from an empty transport that ends that way: the accounting does need persists not to overlap. |
| `TransportSafety.SilentWriteLoses` | sdk/weapp/src/transport.ts:43-56 | A complete run without overlap over a `setItem` that resolves without storing: the event is nowhere, and no count says so. |
| `TransportSafety.BlindReadLoses` | sdk/web/src/transport.ts:39-45 | The same over a `getItem` that answers nothing while the store holds an event: the next good write replaces it. |
| `TransportSafety.RejectingStorageLoses` | sdk/core/src/transport.ts:221-223 | The same over a `storage()` that rejects. |
| `TransportSafety.SharedStoreLoses` | sdk/web/src/transport.ts:37-60 | The same where another page writes the shared key. |
| `TransportSafety.AttemptsAndStorageAreBounded` | sdk/core/src/transport.ts:205-234 | In every run, overlapping or not, a batch is sent at most three times and at most a thousand events are offline. |
| `TransportSafety.AttachmentsFollowTheirEvent` | sdk/core/src/transport.ts:269-307 | In every run, overlapping or not: an attachment is waiting or released, never both, released at most once, and only after a batch with its event was answered. |
| `TransportSafety.ResumeHandsOver` | sdk/core/src/transport.ts:271-307 | When a landed batch resumes, nothing waits any more for the ids it carries, and what waited is released, behind what was before and in queueing order; attachments of other ids are untouched. |
| `TransportSafety.AttachmentsAreReleased` | sdk/core/src/transport.ts:269-307 | In every run, whatever overlaps: an attachment queued before its event's batch resumes is released by then, and stays so. |
| `TransportSafety.EnqueueSends` | sdk/core/src/transport.ts:109-117 | The tenth event queued, or any later one, sends the whole queue with the loss count, once started and configured; until then it waits at the end. |
| `TransportSafety.OverflowDropsOldest` | sdk/core/src/transport.ts:111-114 | A full queue loses its oldest event, into the count. |
| `TransportSafety.WriteKeepsNewest` | sdk/core/src/transport.ts:228-234 | A write that takes effect leaves the last thousand of what was read and the batch, in order, and drops the front. |
| `TransportSafety.WholePersist` | sdk/core/src/transport.ts:221-238 | A persist whose read and write work: the store holds the last thousand of what it held and the batch, and what that drops is counted. |
| `TransportSafety.DrainSends` | sdk/core/src/transport.ts:367-379 | What a drain carries goes behind what is queued by then, and all of it is sent. |
| `TransportSafety.WholeDrain` | sdk/core/src/transport.ts:367-379 | A drain whose read and removal work empties the store and sends what it held in one batch with the queue. |
| `TransportSafety.AnswerEndsCount` | sdk/core/src/transport.ts:176-202 | An answer ends the batch's loss count: reported if its envelope was heard, forfeited otherwise. |
| `TransportSafety.OfflineAfterThree` | sdk/core/src/transport.ts:205-219 | In every run a batch is persisted after exactly three failures to send it, and answered after at most two. |
| `Utf8.DecodeEncode` | sdk/core/src/sha256.ts:53-63 | Encoding yields well-formed UTF-8 (section 3 of RFC 3629) that decodes to the same characters. |
| `Utf8.EncodeDecode` | sdk/core/src/sha256.ts:53-63 | Well-formed bytes are the only encoding of their characters. |
| `Utf16.Utf8Bytes` | sdk/core/src/sha256.ts:38-66 | The result is that encoding of the string's characters. |
| `Utf16.CodePointAt` | sdk/core/src/sha256.ts:41-52 | Pairs are combined, halves become U+FFFD. |
| `Utf16.ScalarsMend` | sdk/core/src/sha256.ts:33-37 | The characters are the string's with each lone surrogate, and nothing else, replaced by U+FFFD. |
| `Utf16.ByteLength` | sdk/weapp/src/transport.ts:68-80 | Equals the encoded length on every well-formed string; on any string exactly when its drift is zero, and is too large by at most one. |
| `Utf16.SumDrifts` | sdk/weapp/src/transport.ts:68-80 | On any string the sum is the encoded length plus the drift of its unpaired halves. |
| `Utf16.WellFormedHolds` | sdk/weapp/src/transport.ts:66-67 | Well-formed strings do not drift. |
| `Utf16.HalvesDrift` | sdk/weapp/src/transport.ts:74-77 | A trailing half counts one too many, two halves in a row two too few. |
| `Words.BitsOf` | sdk/core/src/sha256.ts:68-117 | JavaScript's signed 32-bit operators are the standard's word operators once the sign is dropped. |
| `Sha256Js.RotrOf` | sdk/core/src/sha256.ts:68-68 | `rotr` is ROTR of section 3.2 of FIPS 180-4. |
| `Sha256Js.SigmasOf` | sdk/core/src/sha256.ts:95-98 | The schedule's signed expressions are the functions of section 4.1.2. |
| `Sha256Js.SumsOf` | sdk/core/src/sha256.ts:105-108 | So are the rounds' two sums. |
| `Sha256Js.ChoicesOf` | sdk/core/src/sha256.ts:106-109 | And Ch and Maj, including the negative result of `~e`. |
| `Sha256Js.ScheduleOf` | sdk/core/src/sha256.ts:99-99 | Adding signed and unsigned terms in another order and reducing once is addition modulo 2^32. |
| `Sha256Js.SizeIs` | sdk/core/src/sha256.ts:77-77 | For lengths within the 32-bit shifts the size is that of the padded message; past them it is too small and the typed array throws. |
| `Sha256Js.PaddedFits` | sdk/core/src/sha256.ts:75-85 | The padding of section 5.1.1: fewest whole 64-byte blocks, message, one bit, zeros, and the last eight bytes read as 8·len. |
| `Sha256Js.Halves` | sdk/core/src/sha256.ts:80-85 | The two 32-bit writes are one 64-bit big-endian number. |
| `Sha256Js.Pad` | sdk/core/src/sha256.ts:72-85 | Builds exactly that, or throws, exactly from 2^31-72 bytes on. |
| `Sha256Js.Schedule` | sdk/core/src/sha256.ts:93-100 | Fills the array with the message schedule of section 6.2.2. |
| `Sha256Js.RunRounds` | sdk/core/src/sha256.ts:102-119 | Sixty-four rounds of section 6.2.2. |
| `Sha256Js.AddBlock` | sdk/core/src/sha256.ts:121-128 | Adds the working variables into the hash value. |
| `Sha256Js.HashBlocks` | sdk/core/src/sha256.ts:87-129 | The hash value after all blocks. |
| `Sha256Js.HexWordReads` | sdk/core/src/sha256.ts:131-132 | Eight lowercase digits that read as the word, whatever its leading zeros. |
| `Sha256Js.HexOfReads` | sdk/core/src/sha256.ts:131-133 | All eight words can be read back from the text. |
| `Sha256Js.Sha256Hex` | sdk/core/src/sha256.ts:71-134 | Sixty-four lowercase digits that read as the FIPS 180-4 digest of the string's UTF-8 bytes; throws exactly from 2^31-72 bytes on. |
| `Sha256Constants.ConstantsAreCubeRoots` | sdk/core/src/sha256.ts:22-31 | Every transcribed round constant is the first 32 bits of the fraction of the cube root of its prime. |
| `Sha256Constants.InitialIsSquareRoots` | sdk/core/src/sha256.ts:87-89 | The initial hash value, from the square roots. |
| `BackfillTables.RebuiltExact` | self-hosted/server/src/backfill_split.rs:155-185 | Rebuilt hit rows (how many events of each user, and the latest), event count, user count, worst user and first and last seen are those of the issue's events. |
| `BackfillSplit.FoundIsTagged` | self-hosted/server/src/backfill_split.rs:82-90 | A lookup by a computed fingerprint finds an issue of that environment and platform. |
| `BackfillSplit.HousedStep` | self-hosted/server/src/backfill_split.rs:117-129 | Moving a combination's events leaves the others where they are. |
| `BackfillSplit.ShellGoes` | self-hosted/server/src/backfill_split.rs:132-152 | Once its events are housed, deleting the shell cascades to no event, and its probes go to the busiest touched issue, or to none. |
| `BackfillSplit.ProbesCompose` | self-hosted/server/src/backfill_split.rs:132-152 | Over the transactions so far: the probes of a probe issue with events are all at one touched issue, those of another done issue at none, all others where they were. |
| `BackfillSplit.RebuildStep` | self-hosted/server/src/backfill_split.rs:155-185 | Rebuilding one target keeps the ones already rebuilt exact. |
| `BackfillSplit.RanStep` | self-hosted/server/src/backfill_split.rs:40-187 | One more committed transaction: what earlier ones did still holds. |
| `BackfillSplit.RunSplits` | self-hosted/server/src/backfill_split.rs:26-200 | A finished run conserves every event but for its issue, leaves no mixed issue, homes every event in an issue of its own environment and platform, of the project of the issue it was in, whose fingerprint is computed from that combination and from what the mixed issue's identity and a newest event of the combination give; a new issue has kind, title and surface of a mixed one; every touched issue is exact, and a probe of a mixed issue keeps having an issue exactly when that was a probe issue with events. |
| `BackfillSplit.OneIssueIff` | self-hosted/server/src/backfill_split.rs:50-130 | Two events of mixed issues end in one issue exactly where project and that fingerprint agree. |
| `BackfillSplit.SecondRunIsIdle` | self-hosted/server/src/backfill_split.rs:14-14 | A second run changes nothing. |
| `BackfillSplit.MovedEventsSurviveIff` | self-hosted/server/src/backfill_split.rs:117-152 | Where a lookup finds the shell itself its events go with it, and only there: why fingerprints must tell mixed issues apart. |
| `Backfill.Database.House` | self-hosted/server/src/backfill_split.rs:50-130 | Finds or opens the target and moves the events: the target has the project of the mixed issue and the fingerprint of this combination and of what a newest event of it is; a new one also its kind, title and surface. |
| `Backfill.Database.Representative` | self-hosted/server/src/backfill_split.rs:51-63 | The payload is that of a newest event of the combination. |
| `Backfill.Database.Busiest` | self-hosted/server/src/backfill_split.rs:132-146 | The touched issue with the newest event of them all. |
| `Backfill.Database.Rebuild` | self-hosted/server/src/backfill_split.rs:155-185 | The statements of the last loop, one issue. |
| `Backfill.Database.SplitIssue` | self-hosted/server/src/backfill_split.rs:40-187 | All of a transaction or none of it: it fails exactly on an unknown kind with events. What it did includes where the probes went: all of them to one touched issue with a newest event, or nowhere. |
| `Backfill.Database.Run` | self-hosted/server/src/backfill_split.rs:26-200 | The whole backfill: succeeds exactly when every mixed issue with events has a known kind, and what it committed stands either way. |
| `BlobGc.RemovalsJustified` | self-hosted/server/src/archive_worker.rs:128-208 | In every interleaving each removed blob was at least an hour old at the pass's clock, in neither table when read nor at its own re-check, and no backup held the lock. |
| `BlobGc.LooksIff` | self-hosted/server/src/archive_worker.rs:161-192 | The loop picks an entry for removal exactly when it is an hour old, was in neither table when the pass read them and is in neither now. |
| `BlobGc.QuietSweepCleans` | self-hosted/server/src/archive_worker.rs:161-208 | Undisturbed, at each moment of a sweep the orphans among the entries it has passed are gone and every other blob is as it was. |
| `BlobGc.QuietPassCleans` | self-hosted/server/src/archive_worker.rs:134-208 | A whole pass with nobody else about, every deletion working, leaves exactly the blobs that are referenced or younger than an hour. |
| `BlobGc.HoldersKeepPassesOut` | self-hosted/snapshot/src/capture.rs:213-225 | In every run no pass begins between the moment a backup or an upload takes the shared lock and the moment it lets go. |
| `BlobGc.UploadLands` | self-hosted/server/src/handlers/sdk/events_attachments.rs:112-136 | An upload that goes through leaves its row and a blob for it; bytes that were on disk keep their time. |
| `BlobGc.ReferencesKeepTheirBlob` | self-hosted/server/src/handlers/sdk/events_attachments.rs:112-136 | With references written under the shared lock, as both upload handlers do, every committed row has its blob in every interleaving. |
| `BlobGc.RemovalKeepsRowsIff` | self-hosted/server/src/archive_worker.rs:174-205 | A removal leaves every row its blob exactly when nothing refers to the hash by then; the re-check alone does not give that. |
| `BlobGc.ForeignReferenceLosesBlob` | self-hosted/server/src/archive_worker.rs:189-204 | A row written without the lock between re-check and removal loses its blob. |
| `BlobGc.Store.GcOrphanBlobs` | self-hosted/server/src/archive_worker.rs:161-205 | A quiet pass removes exactly the old unreferenced blobs whose file can be deleted. |
| `Visits.BoundedVisits` | sdk/web/src/performance-model.ts:37-42 | Filter, append, keep twenty, shift until it fits: the specified rows. |
| `Visits.BoundedKeeps` | sdk/web/src/performance-model.ts:37-42 | Distinct ids, at most twenty rows, within the byte cap. |
| `Visits.BoundedIsEnd` | sdk/web/src/performance-model.ts:39-41 | The rows kept are an end of the others and the new one, and no more are dropped than the caps demand. |
| `Visits.NewRowIsKeptIff` | sdk/web/src/performance-model.ts:37-42 | A row is in the result exactly when no later revision of its id was buffered and it fits on its own. |
| `Visits.RevisionsAdvance` | sdk/web/src/performance-model.ts:36-38 | No row's revision goes back. |
| `Visits.AcknowledgedExactly` | sdk/web/src/performance.ts:199-199 | An acknowledgement takes away exactly the rows whose id and revision were sent together. |
| `Visits.NewerRevisionSurvives` | sdk/web/src/performance.ts:190-199 | A newer revision captured in flight survives. |
| `Visits.BufferAlways` | sdk/web/src/performance.ts:78-82 | Every run stays within the bounds. |
| `Visits.RevisionNeverGoesBack` | sdk/web/src/performance.ts:78-199 | Over every run, while an id stays buffered its revision never goes back. |
| `Visits.BytesJoin` | sdk/web/src/performance-model.ts:40-40 | The length of the JSON text: two lists written as one have one bracket pair less and one comma more. |
| `Visits.WithRoom` | sdk/web/src/performance-model.ts:36-42 | Where there is room the result is what there was, with the new row for any older or equal revision of its id. |
| `Visits.RestoredTakes` | sdk/web/src/performance.ts:117-121 | A restore takes in usable saved rows only, and keeps the bounds. |
| `Visits.RestoredCovers` | sdk/web/src/performance.ts:117-121 | Where all of it fits, every row there was and every usable saved row is there afterwards, itself or a revision no older. |
| `Visits.BackoffGrows` | sdk/web/src/performance.ts:203-205 | The wait starts at 30 s, doubles, and stays at five minutes. |
| `Visits.Collector.Snapshot` | sdk/web/src/performance.ts:78-82 | The view's next revision goes into the buffer, or nothing changes. |
| `Visits.Collector.RestoreQueue` | sdk/web/src/performance.ts:117-121 | The usable rows among the last twenty saved, one after another, through the same bounds: nothing else comes in, and where all of it fits each of them and each row there was is buffered afterwards, itself or a later revision. |
| `Visits.Collector.BeginFlush` | sdk/web/src/performance.ts:183-191 | A snapshot first; then the whole buffer is sent exactly when there is one, nothing is under way, and its time has come or the page is closing after no failure. |
| `Visits.Collector.EndFlush` | sdk/web/src/performance.ts:193-207 | Settled, refused, stopped and failed answers: buffer, failures and next attempt. |
| `SourcePaths.SourcesAreNotTheManifest` | sdk/cli/src/srcbundle.ts:34-38 | No source path can be the manifest's name. |
| `SourceWanted.WantedIff` | sdk/cli/src/srcbundle.ts:26-38 | A path is wanted exactly when, character by character: it is at most 1024 long without controls, backslashes and colons; every part between slashes is non-empty and starts with no dot; a skipped directory occurs only where an include is it or below it; it ends in a source extension; some include is `.`, it, or above it; and no exclude is. |
| `SourceArchive.WrittenBack` | sdk/cli/src/srcbundle.ts:39-43 | Accepted text written back is accepted again and no longer than it was. |
| `SourceArchive.ReadTextIff` | sdk/cli/src/srcbundle.ts:39-43 | Bytes are read as text exactly when none is zero and they spell some text, with or without a byte order mark, and then as that text without the mark. |
| `SourceArchive.AddedSound` | sdk/cli/src/srcbundle.ts:58-65 | The accumulator keeps distinct safe paths, per-file and total limits, and the file count. |
| `SourceArchive.AddedIff` | sdk/cli/src/srcbundle.ts:58-65 | `add` accepts a wanted file exactly when the limits over all files so far still hold with it. |
| `SourceArchive.Take` | sdk/cli/src/srcbundle.ts:103-106 | One wanted file: its own size is checked first, even where its path came before. |
| `SourceArchive.Collect` | sdk/cli/src/srcbundle.ts:51-112 | Refuses exactly when a wanted file is too big or no text, the files or bytes are too many, nothing is wanted, or a tag has nothing under a path asked for; otherwise yields exactly the offered paths that meet the choice, each with the text of its first offer, in order. |
| `SourceArchive.CollectedExactly` | sdk/cli/src/srcbundle.ts:51-112 | What is collected, said of the offers and of the characters of their paths alone: no excluded path, no hidden part, no skipped directory nobody named, and every offered path that meets this is there. |
| `SourceArchive.CollectableExactly` | sdk/cli/src/srcbundle.ts:58-112 | And when it succeeds at all: sizes, number and text of the first offer of each path, one at least, and for a tag one at or below each path asked for. |
| `SourceArchive.Pack` | sdk/cli/src/srcbundle.ts:114-126 | Sorted entries, a manifest row for each, the manifest last; a blank release is refused. |
| `SourceInspect.FilterEntries` | sdk/cli/src/srcbundle.ts:131-142 | The filter refuses unsafe and repeated paths, too many entries and sizes over the limits, in that order. |
| `SourceInspect.CheckRows` | sdk/cli/src/srcbundle.ts:154-157 | Every row needs its body with that size and digest. |
| `SourceInspect.InspectSourceArchive` | sdk/cli/src/srcbundle.ts:129-160 | The whole inspection is the specified verdict. |
| `SourceInspect.ScanAccepts` | sdk/cli/src/srcbundle.ts:131-142 | The filter passes every entry of a packed bundle. |
| `SourceInspect.PackedIsAccepted` | sdk/cli/src/srcbundle.ts:114-160 | Whatever is packed within the inspection's archive and manifest limits is accepted for its release, with exactly the collected paths, each meeting the choice it was packed under, safe, distinct and not the manifest's, and a manifest whose sizes and digests match. |
| `SourceAccepted.ScanIff` | sdk/cli/src/srcbundle.ts:131-142 | The filter passes exactly entries whose paths are safe and distinct, whose number is within the limit, and whose sizes are, each and together. |
| `SourceAccepted.AcceptedIsSound` | sdk/cli/src/srcbundle.ts:129-160 | Whatever bytes are accepted: that holds of the entries, and what is answered is at least one file, each once, exactly those that are not the manifest, each under a safe path, within 512 KiB, and readable as text. |
| `SourceAccepted.AcceptedManifest` | sdk/cli/src/srcbundle.ts:146-158 | An accepted manifest has version 1 and the release asked for, and as many rows as there are files, with distinct paths, each with the size and digest of an entry there; the rows are the files exactly unless one names the manifest itself. |
| `Limiters.GrantedSoFar` | sdk/core/src/logger.ts:106-113 | Within a minute at most one window begins: at most a budget before it and two after. |
| `Limiters.AtMostTwice` | sdk/core/src/logger.ts:106-113 | Any half-open minute lets through at most twice the budget, on a clock that does not step back. |
| `Limiters.TwiceIsReached` | sdk/react-native/src/long-task-monitor.ts:74-79 | And twice is reached, so the bound is the best there is. |
| `Limiters.MinuteBounds` | sdk/core/src/self-report.ts:53-75 | 40 log lines, 20 self-reports, 12 freeze warnings in any minute. |
| `Limiters.Logger.Log` | sdk/core/src/logger.ts:104-113 | The window in `log`, with its reset on a clock that steps back: a line within its level goes out exactly when the clock has left the window at either end or fewer than twenty have. |
| `Limiters.SelfReport.IsCircuitOpen` | sdk/core/src/self-report.ts:53-60 | Looking may begin a window and grants nothing: open exactly when ten failures are in a window of at most a minute. |
| `Limiters.SelfReport.ReportInternal` | sdk/core/src/self-report.ts:72-75 | One report against the window: it goes through exactly when that is over or fewer than ten have. |
| `Limiters.LongTaskMonitor.Tick` | sdk/react-native/src/long-task-monitor.ts:59-86 | Signal and warning thresholds, lifecycle interruptions, and the window that only a freeze touches. |

## Left out

- TransportSafety.NoUncountedLoss: assumes what is listed under "What is assumed", because without each of it the claim is false, with a run for each; a count can also exceed the loss, by exactly what `excess` and `spare` record.
- AppRegistry.Registry.ResolveApp: the new identifier is computed by a parameter; `sentori_app_identifier` itself is not part of this model.
- AppRegistry.Registry.ObserveOne: `release.trim()` trims ASCII white space only.
- Visits.BoundedVisits: a row's JSON text is represented by its length; the array's brackets and commas are counted.
- SourcePaths.SourcesAreNotTheManifest: `toLowerCase` of an extension is ASCII.
- BlobGc.Store.GcOrphanBlobs: a pass with nothing beside it; interleavings are the subject of the step machine in the same file.
- Sha256Constants.ConstantsAreCubeRoots: the list of primes is written out; that it is the list of the first 64 is not proved.
- Transport: timers, session pings and assert statistics (they appear only as "there is something else to send"), and HTTP and its timeouts; what a server keeps of an attempt whose answer never arrives (such an event counts as not delivered).
- Transport: a second drain while one is in progress, and stored text that does not parse, which a drain loses after removing it.
- Replay: z-order and sub-pixel geometry of nodes that stay, which deltas do not carry; the capture timer and its diagnostics.
- Audience: the planner of PostgreSQL, and bytes of the SQL text (the model stops at tokens); `f64` bounds are reals; texts other than decimal ones that `numeric` also takes, which the guard keeps from it.
- AppDiscovery.MergeDropsWeb: how web rows come and go otherwise (visits posted, checks configured and run, retention).
- AppDiscovery.ActKeeps: the validation of the two requests, their audit records, and who may send them; an edit takes no application lock and is placed between the transactions that do.
- Application discovery: two transactions on one (project, platform) at once, which the advisory lock excludes.
- Backfill: ingest running at the same time, `last_release`, `issue_activity`, and tasks pointing at an issue.
- Garbage collection: writers other than uploads that take the lock (restore, reset, project import).
- Source archive: an entry whose header gives another size than its body; walking directories and git (the files they offer are a parameter), symbolic links, and values in a manifest that are not of the expected type (they read as no manifest).
- Visits: metrics, observers, sampling and the persisted copy in local storage.
- Limiters: levels and transports of the logger, and reconfiguration during a run.
- Server, dashboards, command line parsing, push adapters, session tracking and the native SDKs: not part of this model.
