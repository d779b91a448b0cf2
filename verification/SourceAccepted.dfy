/** What an archive is that `inspectSourceArchive` accepts, whatever bytes it was given. */
module SourceAccepted {
  import opened Prelude
  import opened SourcePaths
  import opened SourceArchive
  import opened SourceInspect

  function Total(entries: seq<Entry>): nat {
    if entries == [] then 0 else |entries[0].body| + Total(entries[1..])
  }

  function PathOf(e: Entry): string {
    Slashless(e.name)
  }

  predicate Fits(e: Entry, names: set<string>) {
    SafeSourcePath(PathOf(e)) && PathOf(e) !in names && |e.body| <= Limit(PathOf(e))
  }

  /** Paths safe and distinct, few enough, and each body and all together small enough. */
  ghost predicate Orderly(entries: seq<Entry>, names: set<string>, total: nat) {
    && (forall i | 0 <= i < |entries| :: Fits(entries[i], names))
    && (forall i, j | 0 <= i < j < |entries| :: PathOf(entries[i]) != PathOf(entries[j]))
    && |names| + |entries| <= MAX_FILES + 1
    && total + Total(entries) <= MAX_SOURCE_BYTES + MAX_MANIFEST_BYTES
  }

  lemma {:induction false} OrderlyHead(entries: seq<Entry>, names: set<string>, total: nat)
    requires entries != []
    ensures Orderly(entries, names, total) <==>
            Fits(entries[0], names) && Orderly(entries[1..], names + {PathOf(entries[0])}, total + |entries[0].body|)
  {
    hide SafeSourcePath, Limit, Slashless, PathOf;
    var e, rest := entries[0], entries[1..];
    var more := names + {PathOf(e)};
    if Orderly(entries, names, total) {
      forall i | 0 <= i < |rest| ensures Fits(rest[i], more) { assert rest[i] == entries[i + 1]; }
    }
    if Fits(e, names) && Orderly(rest, more, total + |e.body|) {
      forall i | 0 <= i < |entries| ensures Fits(entries[i], names) {
        if i > 0 { assert entries[i] == rest[i - 1]; }
      }
      forall i, j | 0 <= i < j < |entries| ensures PathOf(entries[i]) != PathOf(entries[j]) {
        assert entries[j] == rest[j - 1];
        if i > 0 { assert entries[i] == rest[i - 1]; } else { assert Fits(rest[j - 1], more); }
      }
    }
  }

  /** The filter lets everything through exactly when the entries are in order. */
  lemma {:induction false} ScanIff(entries: seq<Entry>, names: set<string>, total: nat)
    requires |names| <= MAX_FILES + 1 && total <= MAX_SOURCE_BYTES + MAX_MANIFEST_BYTES
    ensures Scan(entries, names, total) == None <==> Orderly(entries, names, total)
  {
    if entries != [] {
      hide SafeSourcePath, Limit, Slashless, Scan, Orderly;
      var e := entries[0];
      ScanHead(entries, names, total);
      OrderlyHead(entries, names, total);
      if Fits(e, names) && |names| <= MAX_FILES && total + |e.body| <= MAX_SOURCE_BYTES + MAX_MANIFEST_BYTES {
        ScanIff(entries[1..], names + {PathOf(e)}, total + |e.body|);
      } else if Orderly(entries, names, total) {
        OrderlySays(entries, names, total);
      }
    }
  }

  lemma {:induction false} OrderlySays(entries: seq<Entry>, names: set<string>, total: nat)
    requires entries != [] && Orderly(entries, names, total)
    ensures Fits(entries[0], names) && |names| <= MAX_FILES
    ensures total + |entries[0].body| <= MAX_SOURCE_BYTES + MAX_MANIFEST_BYTES
  {
  }

  // --------------------------------------------------------------- files and sources

  function NamesIn(files: seq<Entry>): seq<string> {
    seq(|files|, i requires 0 <= i < |files| => files[i].name)
  }

  lemma {:induction false} KeptAre(entries: seq<Entry>)
    ensures forall e :: e in Kept(entries) <==> e in entries && !IsDirectory(e)
    ensures |Kept(entries)| <= |entries| && Total(Kept(entries)) <= Total(entries)
  {
    if entries != [] {
      KeptAre(entries[1..]);
      var rest := Kept(entries[1..]);
      assert ([entries[0]] + rest)[1..] == rest && [] + rest == rest;
      hide IsDirectory;
      assert forall e :: e in entries <==> e == entries[0] || e in entries[1..];
    }
  }

  lemma {:induction false} KeptApart(entries: seq<Entry>, names: set<string>, total: nat)
    requires Orderly(entries, names, total)
    ensures Apart(NamesIn(Kept(entries)))
    ensures forall e | e in Kept(entries) :: PathOf(e) == e.name && Fits(e, names)
  {
    hide SafeSourcePath, Limit, Slashless, Orderly, Kept, IsDirectory;
    KeptAre(entries);
    if entries != [] {
      var e, rest := entries[0], Kept(entries[1..]);
      OrderlyHead(entries, names, total);
      KeptHead(entries);
      KeptApart(entries[1..], names + {PathOf(e)}, total + |e.body|);
      if !IsDirectory(e) {
        NotADirectory(e);
        assert NamesIn([e] + rest) == [e.name] + NamesIn(rest);
        assert forall k | 0 <= k < |rest| :: rest[k] in rest;
      }
    } else {
      KeptHead(entries);
    }
  }

  lemma {:induction false} NotADirectory(e: Entry)
    requires !IsDirectory(e)
    ensures PathOf(e) == e.name
  {
  }

  lemma {:induction false} KeptHead(entries: seq<Entry>)
    ensures entries == [] ==> Kept(entries) == []
    ensures entries != [] ==>
      Kept(entries) == if IsDirectory(entries[0]) then Kept(entries[1..]) else [entries[0]] + Kept(entries[1..])
  {
    hide IsDirectory;
  }

  lemma {:induction false} SourcesAre(files: seq<Entry>)
    ensures forall p :: p in SourcesOf(files) <==> p != SOURCE_MANIFEST && p in NamesIn(files)
    ensures |SourcesOf(files)| <= |files|
    ensures SOURCE_MANIFEST in NamesIn(files) ==> |SourcesOf(files)| < |files|
  {
    hide SOURCE_MANIFEST;
    if files != [] {
      SourcesAre(files[1..]);
      assert NamesIn(files) == [files[0].name] + NamesIn(files[1..]);
    }
  }

  lemma {:induction false} SourcesApart(files: seq<Entry>)
    requires Apart(NamesIn(files))
    ensures Apart(SourcesOf(files))
  {
    hide SOURCE_MANIFEST;
    if files != [] {
      var names, rest := NamesIn(files), NamesIn(files[1..]);
      assert names == [files[0].name] + rest;
      assert forall j | 0 <= j < |rest| :: rest[j] == names[j + 1];
      SourcesApart(files[1..]);
      SourcesAre(files[1..]);
      assert forall j | 0 <= j < |rest| :: rest[j] != names[0];
      assert files[0].name !in rest;
      assert files[0].name !in SourcesOf(files[1..]);
      var more := SourcesOf(files[1..]);
      assert [] + more == more;
    }
  }

  lemma {:induction false} BodyIs(files: seq<Entry>, name: string)
    ensures Body(files, name).Some? <==> name in NamesIn(files)
    ensures Body(files, name).Some? ==> Entry(name, Body(files, name).value) in files
  {
    if files != [] {
      BodyIs(files[1..], name);
      assert NamesIn(files) == [files[0].name] + NamesIn(files[1..]);
    }
  }

  // ------------------------------------------------------------------ accepted archives

  ghost predicate Sorts(lib: Library) {
    forall s :: multiset(lib.sort(s)) == multiset(s)
  }

  /** One accepted source: a safe path, and a text within the limit for it. */
  ghost predicate Good(path: string, files: seq<Entry>) {
    && SafeSourcePath(path) && path != SOURCE_MANIFEST
    && Body(files, path).Some?
    && |Body(files, path).value| <= MAX_SOURCE_FILE_BYTES && ReadText(Body(files, path).value).Some?
  }

  lemma {:induction false} SourceIsGood(entries: seq<Entry>, p: string)
    requires Orderly(entries, {}, 0) && AllReadable(Kept(entries)) && p in SourcesOf(Kept(entries))
    ensures Good(p, Kept(entries))
  {
    hide SafeSourcePath, SOURCE_MANIFEST, ReadText;
    var files := Kept(entries);
    KeptApart(entries, {}, 0);
    SourcesAre(files);
    BodyIs(files, p);
    var e := Entry(p, Body(files, p).value);
    assert Fits(e, {}) && PathOf(e) == p;
  }

  lemma {:induction false} InspectSays(bytes: Bytes, release: string, lib: Library)
    requires Inspect(bytes, release, lib).Ok?
    ensures
      var entries := lib.unzip(bytes);
      var files, r := Kept(entries), Inspect(bytes, release, lib).value;
      && |bytes| <= MAX_SOURCE_BYTES + MAX_MANIFEST_BYTES
      && Scan(entries, {}, 0) == None && SourcesOf(files) != [] && AllReadable(files)
      && r.files == lib.sort(SourcesOf(files))
      && (r.manifest.None? <==> Body(files, SOURCE_MANIFEST).None?)
      && (r.manifest.Some? ==> CheckManifest(r.manifest.value, release, files, lib) == None)
  {
    hide Scan, Kept, AllReadable, Body, CheckManifest, SourcesOf, ReadText, SOURCE_MANIFEST;
  }

  lemma {:induction false} SortedSays(sources: seq<string>, lib: Library)
    requires Sorts(lib) && Apart(sources)
    ensures var sorted := lib.sort(sources);
      |sorted| == |sources| && Apart(sorted) && forall p :: p in sorted <==> p in sources
  {
    var sorted := lib.sort(sources);
    assert multiset(sorted) == multiset(sources);
    assert |multiset(sorted)| == |multiset(sources)|;
    forall p ensures p in sorted <==> p in sources { assert p in multiset(sorted) <==> p in multiset(sources); }
    ApartPermutes(sources, sorted);
  }

  /** Whatever bytes are accepted: the entries' paths are safe and distinct and their number
      and sizes within the limits; what is answered is exactly the files that are not the
      manifest, at least one, each once, and each a text. */
  lemma {:induction false} AcceptedIsSound(bytes: Bytes, release: string, lib: Library)
    requires Inspect(bytes, release, lib).Ok? && Sorts(lib)
    ensures |bytes| <= MAX_SOURCE_BYTES + MAX_MANIFEST_BYTES && Orderly(lib.unzip(bytes), {}, 0)
    ensures
      var files, r := Kept(lib.unzip(bytes)), Inspect(bytes, release, lib).value;
      && r.files != [] && Apart(r.files) && Apart(NamesIn(files))
      && (forall p :: p in r.files <==> p != SOURCE_MANIFEST && p in NamesIn(files))
      && (forall p | p in r.files :: Good(p, files))
      && |r.files| <= (if r.manifest.Some? then MAX_FILES else MAX_FILES + 1)
      && Total(files) <= MAX_SOURCE_BYTES + MAX_MANIFEST_BYTES
      && (r.manifest.Some? <==> SOURCE_MANIFEST in NamesIn(files))
  {
    hide Inspect, Scan, Kept, AllReadable, Body, CheckManifest, SourcesOf, Good, SOURCE_MANIFEST, NamesIn, Apart, Fits,
         Sorts;
    InspectSays(bytes, release, lib);
    var entries := lib.unzip(bytes);
    var files := Kept(entries);
    ScanIff(entries, {}, 0);
    KeptAre(entries);
    KeptApart(entries, {}, 0);
    SourcesAre(files);
    SourcesApart(files);
    SortedSays(SourcesOf(files), lib);
    BodyIs(files, SOURCE_MANIFEST);
    forall p | p in SourcesOf(files) ensures Good(p, files) { SourceIsGood(entries, p); }
  }

  lemma {:induction false} CountDistinct(paths: seq<string>)
    requires |NamesOf(paths)| == |paths|
    ensures Apart(paths)
  {
    if paths != [] {
      NamesBound(paths[1..]);
      assert NamesOf(paths) == NamesOf(paths[1..]) + {paths[0]};
      CountDistinct(paths[1..]);
      assert paths[0] !in NamesOf(paths[1..]);
      assert forall k | 0 <= k < |paths| - 1 :: paths[1..][k] == paths[k + 1];
    }
  }

  function PathsIn(rows: seq<Row>): seq<string> {
    seq(|rows|, i requires 0 <= i < |rows| => rows[i].path)
  }

  lemma {:induction false} PathsAre(rows: seq<Row>)
    ensures (set row | row in rows :: row.path) == NamesOf(PathsIn(rows))
  {
    var all := set row | row in rows :: row.path;
    forall p | p in all ensures p in NamesOf(PathsIn(rows)) {
      var row :| row in rows && row.path == p;
      var i :| 0 <= i < |rows| && rows[i] == row;
      assert PathsIn(rows)[i] == p;
    }
    forall p | p in NamesOf(PathsIn(rows)) ensures p in all {
      var i :| 0 <= i < |rows| && PathsIn(rows)[i] == p;
      assert rows[i] in rows;
    }
  }

  lemma {:induction false} SameSize(a: set<string>, b: set<string>)
    requires a <= b && |a| == |b|
    ensures a == b
  {
    assert |b - a| == |b| - |a|;
  }

  /** An accepted manifest: of the release asked for, one row for each file, with distinct
      paths, each with the size and the digest of an entry of that path. The rows are exactly
      the files unless one of them names the manifest itself, which would have to carry its
      own digest. */
  lemma {:induction false} AcceptedManifest(bytes: Bytes, release: string, lib: Library)
    requires Inspect(bytes, release, lib).Ok? && Inspect(bytes, release, lib).value.manifest.Some? && Sorts(lib)
    ensures
      var files, r := Kept(lib.unzip(bytes)), Inspect(bytes, release, lib).value;
      var m, rows := r.manifest.value, PathsIn(r.manifest.value.files);
      && m.version == 1 && !AllSpace(m.release) && (release != "" ==> m.release == release)
      && |rows| == |r.files| && Apart(rows) && (forall row | row in m.files :: RowHolds(row, files, lib))
      && (NamesOf(rows) == NamesOf(r.files) <==> SOURCE_MANIFEST !in rows)
  {
    var files, r := Kept(lib.unzip(bytes)), Inspect(bytes, release, lib).value;
    var m, rows := r.manifest.value, PathsIn(r.manifest.value.files);
    AcceptedIsSound(bytes, release, lib);
    InspectSays(bytes, release, lib);
    CheckSays(m, release, files, lib);
    hide Inspect, Kept, CheckManifest, Good, SOURCE_MANIFEST, Orderly, Sorts, SourcesOf, RowHolds, NamesIn, Apart;
    SourcesCounted(bytes, release, lib);
    PathsAre(m.files);
    CountDistinct(rows);
    DistinctCount(r.files);
    RowsNamed(m.files, files, lib);
    if SOURCE_MANIFEST !in rows {
      assert NamesOf(rows) <= NamesOf(r.files);
      SameSize(NamesOf(rows), NamesOf(r.files));
    }
    assert SOURCE_MANIFEST in rows <==> SOURCE_MANIFEST in NamesOf(rows);
  }

  lemma {:induction false} SourcesCounted(bytes: Bytes, release: string, lib: Library)
    requires Inspect(bytes, release, lib).Ok? && Sorts(lib)
    ensures |Inspect(bytes, release, lib).value.files| == |SourcesOf(Kept(lib.unzip(bytes)))|
  {
    InspectSays(bytes, release, lib);
    var sources := SourcesOf(Kept(lib.unzip(bytes)));
    hide Inspect, Kept, CheckManifest, SourcesOf;
    assert multiset(lib.sort(sources)) == multiset(sources);
    assert |multiset(lib.sort(sources))| == |multiset(sources)|;
  }

  lemma {:induction false} CheckSays(m: Manifest, release: string, files: seq<Entry>, lib: Library)
    requires CheckManifest(m, release, files, lib) == None
    ensures m.version == 1 && !AllSpace(m.release) && (release != "" ==> m.release == release)
    ensures |m.files| == |SourcesOf(files)| == |set row | row in m.files :: row.path|
    ensures forall row | row in m.files :: RowHolds(row, files, lib)
  {
    hide SourcesOf, RowHolds, AllSpace;
  }

  lemma {:induction false} RowsNamed(rows: seq<Row>, files: seq<Entry>, lib: Library)
    requires forall row | row in rows :: RowHolds(row, files, lib)
    ensures forall p | p in PathsIn(rows) :: p in NamesIn(files)
  {
    forall p | p in PathsIn(rows) ensures p in NamesIn(files) {
      var i :| 0 <= i < |rows| && PathsIn(rows)[i] == p;
      assert RowHolds(rows[i], files, lib);
      BodyIs(files, p);
    }
  }
}
