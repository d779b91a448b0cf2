/** `inspectSourceArchive` in `sdk/cli/src/srcbundle.ts`, and that it accepts what
    `packSources` packs. */
module SourceInspect {
  import opened Prelude
  import opened SourcePaths
  import opened SourceWanted
  import opened Utf8
  import opened SourceArchive

  function Slashless(name: string): string {
    if name != "" && name[|name| - 1] == '/' then name[..|name| - 1] else name
  }

  predicate IsDirectory(e: Entry) {
    e.name != "" && e.name[|e.name| - 1] == '/'
  }

  /** The filter over the entries, with the names and the total it has seen. */
  function Scan(entries: seq<Entry>, names: set<string>, total: nat): Option<Refusal> {
    if entries == [] then None
    else
      var e := entries[0];
      var path := Slashless(e.name);
      if !SafeSourcePath(path) || path in names then Some(UnsafePath)
      else if |names + {path}| > MAX_FILES + 1 then Some(TooMany)
      else if |e.body| > (if path == SOURCE_MANIFEST then MAX_MANIFEST_BYTES else MAX_SOURCE_FILE_BYTES)
              || total + |e.body| > MAX_SOURCE_BYTES + MAX_MANIFEST_BYTES then Some(OverLimit)
      else Scan(entries[1..], names + {path}, total + |e.body|)
  }

  function Kept(entries: seq<Entry>): seq<Entry> {
    if entries == [] then [] else (if IsDirectory(entries[0]) then [] else [entries[0]]) + Kept(entries[1..])
  }

  function Body(entries: seq<Entry>, name: string): Option<Bytes> {
    if entries == [] then None else if entries[0].name == name then Some(entries[0].body) else Body(entries[1..], name)
  }

  function SourcesOf(entries: seq<Entry>): seq<string> {
    if entries == [] then []
    else (if entries[0].name == SOURCE_MANIFEST then [] else [entries[0].name]) + SourcesOf(entries[1..])
  }

  predicate AllReadable(entries: seq<Entry>) {
    forall e | e in entries && e.name != SOURCE_MANIFEST :: ReadText(e.body).Some?
  }

  predicate RowHolds(row: Row, entries: seq<Entry>, lib: Library) {
    var body := Body(entries, row.path);
    body.Some? && |body.value| == row.bytes && lib.sha256(body.value) == row.sha256
  }

  function CheckManifest(m: Manifest, release: string, entries: seq<Entry>, lib: Library): Option<Refusal> {
    var paths := set row | row in m.files :: row.path;
    if m.version != 1 || AllSpace(m.release) then Some(BadManifest)
    else if release != "" && m.release != release then Some(WrongRelease)
    else if |m.files| != |SourcesOf(entries)| || |paths| != |SourcesOf(entries)| then Some(FileList)
    else if exists row | row in m.files :: !RowHolds(row, entries, lib) then Some(Checksum)
    else None
  }

  datatype Inspected = Inspected(files: seq<string>, manifest: Option<Manifest>)

  function Inspect(bytes: Bytes, release: string, lib: Library): Result<Inspected> {
    if |bytes| > MAX_SOURCE_BYTES + MAX_MANIFEST_BYTES then Err(TooLarge)
    else
      var entries := lib.unzip(bytes);
      var refusal := Scan(entries, {}, 0);
      if refusal.Some? then Err(refusal.value)
      else
        var files := Kept(entries);
        if SourcesOf(files) == [] then Err(Empty)
        else if !AllReadable(files) then Err(NotText)
        else
          match Body(files, SOURCE_MANIFEST)
          case None => Ok(Inspected(lib.sort(SourcesOf(files)), None))
          case Some(body) =>
            if ReadText(body).None? then Err(NotText)
            else
              match lib.parse(ReadText(body).value)
              case None => Err(BadManifest)
              case Some(m) =>
                if CheckManifest(m, release, files, lib).Some? then Err(CheckManifest(m, release, files, lib).value)
                else Ok(Inspected(lib.sort(SourcesOf(files)), Some(m)))
  }

  // ------------------------------------------------------------------ step by step

  function Limit(path: string): nat {
    if path == SOURCE_MANIFEST then MAX_MANIFEST_BYTES else MAX_SOURCE_FILE_BYTES
  }

  lemma {:induction false} ScanHead(entries: seq<Entry>, names: set<string>, total: nat)
    requires entries != []
    ensures var e := entries[0]; var path := Slashless(e.name);
      Scan(entries, names, total) ==
        if !SafeSourcePath(path) || path in names then Some(UnsafePath)
        else if |names + {path}| > MAX_FILES + 1 then Some(TooMany)
        else if |e.body| > Limit(path) || total + |e.body| > MAX_SOURCE_BYTES + MAX_MANIFEST_BYTES then Some(OverLimit)
        else Scan(entries[1..], names + {path}, total + |e.body|)
    ensures Kept(entries) == (if IsDirectory(entries[0]) then [] else [entries[0]]) + Kept(entries[1..])
  {
    hide SafeSourcePath, SOURCE_MANIFEST;
  }

  lemma {:induction false} ScanNone(entries: seq<Entry>)
    ensures Scan([], {}, 0) == None && Kept([]) == []
    ensures forall names, total :: Scan([], names, total) == None
  {
  }

  /** The filter callback over the archive's entries. */
  method FilterEntries(entries: seq<Entry>) returns (refusal: Option<Refusal>, kept: seq<Entry>)
    ensures refusal == Scan(entries, {}, 0)
    ensures refusal.None? ==> kept == Kept(entries)
  {
    ScanNone(entries);
    hide SafeSourcePath, SOURCE_MANIFEST, Scan, Kept, Slashless;
    var names: set<string> := {};
    var total: nat := 0;
    kept := [];
    var i := 0;
    assert entries[0..] == entries;
    while i < |entries|
      invariant i <= |entries| && Scan(entries[i..], names, total) == Scan(entries, {}, 0)
      invariant kept + Kept(entries[i..]) == Kept(entries)
    {
      var e := entries[i];
      assert entries[i..][0] == e && entries[i..][1..] == entries[i + 1..];
      ScanHead(entries[i..], names, total);
      var path := Slashless(e.name);
      if !SafeSourcePath(path) || path in names { return Some(UnsafePath), []; }
      names := names + {path};
      if |names| > MAX_FILES + 1 { return Some(TooMany), []; }
      total := total + |e.body|;
      if |e.body| > Limit(path) || total > MAX_SOURCE_BYTES + MAX_MANIFEST_BYTES { return Some(OverLimit), []; }
      if !IsDirectory(e) { kept := kept + [e]; }
      i := i + 1;
    }
    assert entries[i..] == [] && kept + [] == kept;
    refusal := None;
  }

  /** The loop over the manifest's rows. */
  method CheckRows(rows: seq<Row>, files: seq<Entry>, lib: Library) returns (holds: bool)
    ensures holds <==> !exists row | row in rows :: !RowHolds(row, files, lib)
  {
    var k := 0;
    while k < |rows|
      invariant k <= |rows| && forall j | 0 <= j < k :: RowHolds(rows[j], files, lib)
    {
      var body := Body(files, rows[k].path);
      if body.None? || |body.value| != rows[k].bytes || lib.sha256(body.value) != rows[k].sha256 {
        assert rows[k] in rows && !RowHolds(rows[k], files, lib);
        return false;
      }
      k := k + 1;
    }
    return true;
  }

  method InspectSourceArchive(bytes: Bytes, release: string, lib: Library) returns (r: Result<Inspected>)
    ensures r == Inspect(bytes, release, lib)
  {
    hide SafeSourcePath, ReadText, AllSpace, SOURCE_MANIFEST, RowHolds, Scan, Kept, Body, SourcesOf;
    if |bytes| > MAX_SOURCE_BYTES + MAX_MANIFEST_BYTES { return Err(TooLarge); }
    var refusal, files := FilterEntries(lib.unzip(bytes));
    if refusal.Some? { return Err(refusal.value); }
    var sources := SourcesOf(files);
    if |sources| == 0 { return Err(Empty); }
    var k := 0;
    while k < |files|
      invariant k <= |files| && forall j | 0 <= j < k && files[j].name != SOURCE_MANIFEST ::
          ReadText(files[j].body).Some?
    {
      if files[k].name != SOURCE_MANIFEST && ReadText(files[k].body).None? {
        assert files[k] in files;
        return Err(NotText);
      }
      k := k + 1;
    }
    var body := Body(files, SOURCE_MANIFEST);
    if body.None? { return Ok(Inspected(lib.sort(sources), None)); }
    var text := ReadText(body.value);
    if text.None? { return Err(NotText); }
    var parsed := lib.parse(text.value);
    if parsed.None? { return Err(BadManifest); }
    var m := parsed.value;
    if m.version != 1 || AllSpace(m.release) { return Err(BadManifest); }
    if release != "" && m.release != release { return Err(WrongRelease); }
    var paths := set row | row in m.files :: row.path;
    if |m.files| != |sources| || |paths| != |sources| { return Err(FileList); }
    var holds := CheckRows(m.files, files, lib);
    if !holds { return Err(Checksum); }
    return Ok(Inspected(lib.sort(sources), Some(m)));
  }

  // ------------------------------------------------------------ what packing yields

  lemma {:induction false} SizesJoin(a: seq<string>, b: seq<string>, bundle: map<string, Text>)
    requires Listed(a + b, bundle)
    ensures Listed(a, bundle) && Listed(b, bundle) && Sizes(a + b, bundle) == Sizes(a, bundle) + Sizes(b, bundle)
  {
    assert forall p | p in a :: p in a + b;
    assert forall p | p in b :: p in a + b;
    if a == [] {
      assert a + b == b;
    } else {
      assert (a + b)[1..] == a[1..] + b;
      assert Listed(a[1..] + b, bundle) by { assert forall p | p in a[1..] + b :: p in a + b; }
      SizesJoin(a[1..], b, bundle);
    }
  }

  lemma {:induction false} Without(a: seq<string>, b: seq<string>, i: nat)
    requires a != [] && multiset(a) == multiset(b) && i < |b| && b[i] == a[0]
    ensures multiset(a[1..]) == multiset(b[..i] + b[i + 1..])
  {
    assert a == [a[0]] + a[1..];
    assert b == b[..i] + [a[0]] + b[i + 1..];
    assert multiset(a[1..]) == multiset(a) - multiset{a[0]};
    assert multiset(b[..i] + b[i + 1..]) == multiset(b) - multiset{a[0]};
  }

  lemma {:induction false} SizesWithout(b: seq<string>, i: nat, bundle: map<string, Text>)
    requires Listed(b, bundle) && i < |b|
    ensures Listed(b[..i] + b[i + 1..], bundle) && b[i] in bundle && AllScalars(bundle[b[i]])
    ensures Sizes(b, bundle) == |Encode(bundle[b[i]])| + Sizes(b[..i] + b[i + 1..], bundle)
  {
    var front, back := b[..i], b[i + 1..];
    assert b[i] in b && forall p | p in front + back :: p in b;
    assert b == front + ([b[i]] + back);
    SizesJoin(front, [b[i]] + back, bundle);
    assert ([b[i]] + back)[1..] == back;
    SizesJoin(front, back, bundle);
  }

  /** The order of the paths does not matter to the sum of their sizes. */
  lemma {:induction false} SizesPermute(a: seq<string>, b: seq<string>, bundle: map<string, Text>)
    requires Listed(a, bundle) && Listed(b, bundle) && multiset(a) == multiset(b)
    ensures Sizes(a, bundle) == Sizes(b, bundle)
  {
    if a == [] {
      assert |multiset(b)| == 0;
    } else {
      assert a[0] in multiset(a);
      assert a[0] in b;
      var i :| 0 <= i < |b| && b[i] == a[0];
      Without(a, b, i);
      SizesWithout(b, i, bundle);
      assert forall p | p in a[1..] :: p in a;
      SizesPermute(a[1..], b[..i] + b[i + 1..], bundle);
    }
  }

  lemma {:induction false} SafeHasNoSlash(path: string)
    requires SafeSourcePath(path)
    ensures path[|path| - 1] != '/'
  {
    LastPartEnds(path);
    var parts := Split(path);
    assert parts[|parts| - 1] in parts;
    var name := parts[|parts| - 1];
    if path[|path| - 1] == '/' { EndsWithSlash(path); }
  }

  lemma {:induction false} EndsWithSlash(path: string)
    requires path != "" && path[|path| - 1] == '/'
    ensures Split(path)[|Split(path)| - 1] == ""
  {
    if |path| > 1 {
      EndsWithSlash(path[1..]);
      var rest := Split(path[1..]);
      assert |rest| > 1 by { if |rest| == 1 { LastPartEnds(path[1..]); } }
    } else {
      assert path[1..] == "";
    }
  }

  predicate Plain(s: string) {
    s == "" || (s[0] != '/' && s[0] != '\\' && s[0] != ':' && s[0] as int >= 0x20 && Plain(s[1..]))
  }

  lemma {:induction false} PlainJoins(a: string, b: string)
    requires Plain(a) && Plain(b)
    ensures Plain(a + b)
  {
    if a == "" {
      assert a + b == b;
    } else {
      PlainJoins(a[1..], b);
      assert (a + b)[1..] == a[1..] + b;
    }
  }

  /** A plain name is a path of one part. */
  lemma {:induction false} PlainIsOnePart(path: string)
    requires Plain(path)
    ensures Split(path) == [path] && forall c | c in path :: c != '\\' && c != ':' && c as int >= 0x20
  {
    if path != "" {
      PlainIsOnePart(path[1..]);
      assert [path[0]] + path[1..] == path;
      assert forall c | c in path :: c == path[0] || c in path[1..];
    }
  }

  lemma {:induction false} PlainStart()
    ensures Plain("sentori-") && Plain("source-")
  {
  }

  lemma {:induction false} PlainEnd()
    ensures Plain("manifest") && Plain(".json")
  {
  }

  lemma {:induction false} PlainFour(a: string, b: string, c: string, d: string)
    requires Plain(a) && Plain(b) && Plain(c) && Plain(d)
    ensures Plain(a + b + c + d)
  {
    PlainJoins(a, b);
    PlainJoins(a + b, c);
    PlainJoins(a + b + c, d);
  }

  lemma {:induction false} ManifestIsPlain()
    ensures Plain(SOURCE_MANIFEST) && |SOURCE_MANIFEST| == 28
  {
    PlainStart();
    PlainEnd();
    hide Plain;
    PlainFour("sentori-", "source-", "manifest", ".json");
  }

  lemma {:induction false} PlainIsSafe(path: string)
    requires Plain(path) && 2 < |path| <= 1024
    ensures SafeSourcePath(path)
  {
    PlainIsOnePart(path);
  }

  lemma {:induction false} ManifestIsSafe()
    ensures SafeSourcePath(SOURCE_MANIFEST)
  {
    hide Plain, SafeSourcePath;
    ManifestIsPlain();
    PlainIsSafe(SOURCE_MANIFEST);
  }

  // --------------------------------------------------------------- the scan accepts

  function NamesOf(paths: seq<string>): set<string> {
    set p | p in paths
  }

  lemma {:induction false} NamesBound(paths: seq<string>)
    ensures |NamesOf(paths)| <= |paths|
  {
    if paths == [] {
      assert NamesOf(paths) == {};
    } else {
      NamesBound(paths[1..]);
      assert NamesOf(paths) == NamesOf(paths[1..]) + {paths[0]};
    }
  }

  lemma {:induction false} NamesGrow(paths: seq<string>, k: nat)
    requires Apart(paths) && k < |paths|
    ensures paths[k] !in NamesOf(paths[..k]) && NamesOf(paths[..k + 1]) == NamesOf(paths[..k]) + {paths[k]}
    ensures |NamesOf(paths[..k + 1])| <= k + 1
  {
    assert paths[..k + 1] == paths[..k] + [paths[k]];
    NamesBound(paths[..k + 1]);
  }

  /** What the entries of a packed bundle look like to the scan. */
  ghost predicate Ready(sorted: seq<string>, bundle: map<string, Text>) {
    && Apart(sorted) && |sorted| <= MAX_FILES && Listed(sorted, bundle)
    && (forall p | p in sorted :: SafeSourcePath(p) && p != SOURCE_MANIFEST && Readable(bundle[p]))
    && Sizes(sorted, bundle) <= MAX_SOURCE_BYTES
  }

  lemma {:induction false} ReadyApart(sorted: seq<string>, bundle: map<string, Text>)
    requires Ready(sorted, bundle)
    ensures Apart(sorted) && |sorted| <= MAX_FILES && Listed(sorted, bundle)
    ensures SOURCE_MANIFEST !in sorted && Sizes(sorted, bundle) <= MAX_SOURCE_BYTES
  {
  }

  lemma {:induction false} SizesSoFar(sorted: seq<string>, bundle: map<string, Text>, k: nat)
    requires Listed(sorted, bundle) && k < |sorted|
    ensures Listed(sorted[..k], bundle) && Listed(sorted[..k + 1], bundle) && sorted[k] in bundle
        && AllScalars(bundle[sorted[k]])
    ensures Sizes(sorted[..k + 1], bundle) == Sizes(sorted[..k], bundle) + |Encode(bundle[sorted[k]])|
    ensures Sizes(sorted[..k + 1], bundle) <= Sizes(sorted, bundle)
  {
    assert sorted[k] in sorted;
    assert forall p | p in sorted[..k + 1] :: p in sorted;
    assert sorted[..k + 1] == sorted[..k] + [sorted[k]];
    SizesJoin(sorted[..k], [sorted[k]], bundle);
    assert [sorted[k]][1..] == [];
    assert sorted == sorted[..k + 1] + sorted[k + 1..];
    SizesJoin(sorted[..k + 1], sorted[k + 1..], bundle);
  }

  lemma {:induction false} ScanOne(entries: seq<Entry>, names: set<string>, total: nat)
    requires entries != [] && SafeSourcePath(entries[0].name) && entries[0].name !in names
    requires |names + {entries[0].name}| <= MAX_FILES + 1
    requires |entries[0].body| <= (if entries[0].name == SOURCE_MANIFEST then MAX_MANIFEST_BYTES
        else MAX_SOURCE_FILE_BYTES)
    requires total + |entries[0].body| <= MAX_SOURCE_BYTES + MAX_MANIFEST_BYTES
    ensures Scan(entries, names, total) == Scan(entries[1..], names + {entries[0].name}, total + |entries[0].body|)
  {
    SafeHasNoSlash(entries[0].name);
  }

  lemma {:induction false} FileFits(t: Text)
    requires Readable(t)
    ensures AllScalars(t) && |Encode(t)| <= MAX_SOURCE_FILE_BYTES
  {
  }

  lemma {:induction false} EntryAt(sorted: seq<string>, bundle: map<string, Text>, k: nat) returns (e: Entry)
    requires Ready(sorted, bundle) && k < |sorted|
    ensures Packed(sorted, bundle)[k] == e && e.name == sorted[k]
    ensures SafeSourcePath(e.name) && e.name != SOURCE_MANIFEST && |e.body| <= MAX_SOURCE_FILE_BYTES
    ensures Listed(sorted[..k], bundle) && Listed(sorted[..k + 1], bundle)
    ensures Sizes(sorted[..k + 1], bundle) == Sizes(sorted[..k], bundle) + |e.body| <= MAX_SOURCE_BYTES
  {
    hide SafeSourcePath, Readable, SOURCE_MANIFEST, Sizes;
    SizesSoFar(sorted, bundle, k);
    assert sorted[k] in sorted;
    FileFits(bundle[sorted[k]]);
    e := Entry(sorted[k], Encode(bundle[sorted[k]]));
  }

  lemma {:induction false} ScanInto(entries: seq<Entry>, k: nat, names: set<string>, more: set<string>, total: nat)
    requires k < |entries| && SafeSourcePath(entries[k].name) && entries[k].name != SOURCE_MANIFEST
    requires entries[k].name !in names && more == names + {entries[k].name} && |more| <= MAX_FILES + 1
    requires |entries[k].body| <= MAX_SOURCE_FILE_BYTES && total + |entries[k].body| <= MAX_SOURCE_BYTES
    ensures Scan(entries[k..], names, total) == Scan(entries[k + 1..], more, total + |entries[k].body|)
  {
    hide SafeSourcePath, Scan;
    assert entries[k..][1..] == entries[k + 1..];
    ScanOne(entries[k..], names, total);
  }

  lemma {:induction false} ScanStep(sorted: seq<string>, bundle: map<string, Text>, manifest: Entry, k: nat)
    requires Ready(sorted, bundle) && k < |sorted|
    ensures Listed(sorted[..k], bundle) && Listed(sorted[..k + 1], bundle)
    ensures var entries := Packed(sorted, bundle) + [manifest];
      Scan(entries[k..], NamesOf(sorted[..k]), Sizes(sorted[..k], bundle))
        == Scan(entries[k + 1..], NamesOf(sorted[..k + 1]), Sizes(sorted[..k + 1], bundle))
  {
    hide *;
    ReadyApart(sorted, bundle);
    var e := EntryAt(sorted, bundle, k);
    NamesGrow(sorted, k);
    var entries := Packed(sorted, bundle) + [manifest];
    assert entries[k] == e;
    ScanInto(entries, k, NamesOf(sorted[..k]), NamesOf(sorted[..k + 1]), Sizes(sorted[..k], bundle));
  }

  lemma {:induction false} ScanLast(names: set<string>, total: nat, manifest: Entry)
    requires manifest.name == SOURCE_MANIFEST && manifest.name !in names && |names| <= MAX_FILES
    requires |manifest.body| <= MAX_MANIFEST_BYTES && total <= MAX_SOURCE_BYTES
    ensures Scan([manifest], names, total) == None
  {
    hide SafeSourcePath;
    ManifestIsSafe();
    ScanOne([manifest], names, total);
    assert [manifest][1..] == [];
  }

  lemma {:induction false} ScanAccepts(sorted: seq<string>, bundle: map<string, Text>, manifest: Entry, k: nat)
    requires Ready(sorted, bundle) && k <= |sorted| && Listed(sorted[..k], bundle)
    requires manifest.name == SOURCE_MANIFEST && |manifest.body| <= MAX_MANIFEST_BYTES
    ensures Scan((Packed(sorted, bundle) + [manifest])[k..], NamesOf(sorted[..k]), Sizes(sorted[..k], bundle)) == None
    decreases |sorted| - k
  {
    hide SafeSourcePath, Readable, Scan, Sizes;
    if k == |sorted| {
      assert sorted[..k] == sorted;
      NamesBound(sorted);
      assert (Packed(sorted, bundle) + [manifest])[k..] == [manifest];
      ScanLast(NamesOf(sorted), Sizes(sorted, bundle), manifest);
    } else {
      ScanStep(sorted, bundle, manifest, k);
      ScanAccepts(sorted, bundle, manifest, k + 1);
    }
  }

  // ------------------------------------------------------- and so does everything else

  /** The entries of a packed bundle, one by one. */
  ghost predicate Holds(entries: seq<Entry>, sorted: seq<string>) {
    && |entries| == |sorted| && Apart(sorted) && SOURCE_MANIFEST !in sorted
    && (forall k | 0 <= k < |sorted| ::
        entries[k].name == sorted[k] && SafeSourcePath(sorted[k]) && ReadText(entries[k].body).Some?)
  }

  lemma {:induction false} PackedHolds(sorted: seq<string>, bundle: map<string, Text>)
    requires Ready(sorted, bundle)
    ensures Holds(Packed(sorted, bundle), sorted)
  {
    hide SafeSourcePath;
    forall k | 0 <= k < |sorted| ensures ReadText(Packed(sorted, bundle)[k].body).Some? { assert sorted[k] in sorted; }
    forall k | 0 <= k < |sorted| ensures SafeSourcePath(sorted[k]) { assert sorted[k] in sorted; }
  }

  lemma {:induction false} HoldsRest(entries: seq<Entry>, sorted: seq<string>)
    requires Holds(entries, sorted) && entries != []
    ensures Holds(entries[1..], sorted[1..])
    ensures sorted[0] !in sorted[1..] && entries[0].name == sorted[0] && SafeSourcePath(sorted[0])
        && sorted[0] != SOURCE_MANIFEST
  {
    hide SafeSourcePath, SOURCE_MANIFEST, ReadText;
    assert forall p | p in sorted[1..] :: p in sorted;
    assert sorted[0] in sorted;
  }

  lemma {:induction false} OnlyManifest(manifest: Entry)
    requires manifest.name == SOURCE_MANIFEST
    ensures Kept([manifest]) == [manifest] && SourcesOf([manifest]) == []
        && Body([manifest], SOURCE_MANIFEST) == Some(manifest.body)
  {
    ManifestIsSafe();
    SafeHasNoSlash(SOURCE_MANIFEST);
    hide SafeSourcePath, SOURCE_MANIFEST;
    assert [manifest][1..] == [];
  }

  lemma {:induction false} HeadKept(e: Entry, rest: seq<Entry>)
    requires SafeSourcePath(e.name) && e.name != SOURCE_MANIFEST
    ensures Kept([e] + rest) == [e] + Kept(rest)
    ensures SourcesOf([e] + rest) == [e.name] + SourcesOf(rest)
    ensures Body([e] + rest, SOURCE_MANIFEST) == Body(rest, SOURCE_MANIFEST)
  {
    SafeHasNoSlash(e.name);
    hide SafeSourcePath, SOURCE_MANIFEST;
    assert ([e] + rest)[1..] == rest;
  }

  lemma {:induction false} AllKept(entries: seq<Entry>, sorted: seq<string>, manifest: Entry)
    requires Holds(entries, sorted) && manifest.name == SOURCE_MANIFEST
    ensures Kept(entries + [manifest]) == entries + [manifest]
    ensures SourcesOf(entries + [manifest]) == sorted
    ensures Body(entries + [manifest], SOURCE_MANIFEST) == Some(manifest.body)
    decreases |entries|
  {
    if entries == [] {
      assert [] + [manifest] == [manifest] && sorted == [];
      OnlyManifest(manifest);
    } else {
      hide SafeSourcePath, Holds, SOURCE_MANIFEST, Kept, SourcesOf, Body;
      HoldsRest(entries, sorted);
      AllKept(entries[1..], sorted[1..], manifest);
      HeadKept(entries[0], entries[1..] + [manifest]);
      assert entries + [manifest] == [entries[0]] + (entries[1..] + [manifest]);
      assert sorted == [sorted[0]] + sorted[1..];
    }
  }

  lemma {:induction false} BodyAt(entries: seq<Entry>, sorted: seq<string>, manifest: Entry, k: nat)
    requires Holds(entries, sorted) && k < |entries|
    ensures Body(entries + [manifest], sorted[k]) == Some(entries[k].body)
  {
    HoldsRest(entries, sorted);
    hide SafeSourcePath, Holds;
    assert (entries + [manifest])[1..] == entries[1..] + [manifest];
    if k > 0 {
      assert sorted[k] == sorted[1..][k - 1];
      BodyAt(entries[1..], sorted[1..], manifest, k - 1);
    }
  }

  lemma {:induction false} NamesDiffer(entries: seq<Entry>, sorted: seq<string>, manifest: Entry)
    requires Holds(entries, sorted) && manifest.name == SOURCE_MANIFEST
    ensures NamesApart(entries + [manifest])
  {
    hide SafeSourcePath, SOURCE_MANIFEST, ReadText;
    var all := entries + [manifest];
    forall j, k | 0 <= j < k < |all| ensures all[j].name != all[k].name {
      if k == |entries| { assert sorted[j] in sorted; }
    }
  }

  lemma {:induction false} TextsRead(entries: seq<Entry>, sorted: seq<string>, manifest: Entry)
    requires Holds(entries, sorted) && manifest.name == SOURCE_MANIFEST
    ensures AllReadable(entries + [manifest])
  {
    hide SafeSourcePath, SOURCE_MANIFEST, ReadText;
  }

  lemma {:induction false} DistinctCount(paths: seq<string>)
    requires Apart(paths)
    ensures |NamesOf(paths)| == |paths|
  {
    if paths == [] {
      assert NamesOf(paths) == {};
    } else {
      DistinctCount(paths[1..]);
      assert NamesOf(paths) == NamesOf(paths[1..]) + {paths[0]};
      assert paths[0] !in NamesOf(paths[1..]);
    }
  }

  lemma {:induction false} RowPaths(entries: seq<Entry>, sorted: seq<string>, lib: Library)
    requires Holds(entries, sorted)
    ensures (set row | row in RowsOf(entries, lib) :: row.path) == NamesOf(sorted)
  {
    hide SafeSourcePath, SOURCE_MANIFEST, ReadText;
    var rows := RowsOf(entries, lib);
    forall p | p in NamesOf(sorted) ensures exists row :: row in rows && row.path == p {
      var k :| 0 <= k < |sorted| && sorted[k] == p;
      assert rows[k] in rows && rows[k].path == p;
    }
  }

  lemma {:induction false} RowsHold(entries: seq<Entry>, sorted: seq<string>, manifest: Entry, lib: Library)
    requires Holds(entries, sorted)
    ensures forall row | row in RowsOf(entries, lib) :: RowHolds(row, entries + [manifest], lib)
  {
    var rows := RowsOf(entries, lib);
    forall row | row in rows ensures RowHolds(row, entries + [manifest], lib) {
      var k :| 0 <= k < |rows| && rows[k] == row;
      BodyAt(entries, sorted, manifest, k);
    }
  }

  lemma {:induction false} ManifestPasses(entries: seq<Entry>, sorted: seq<string>, manifest: Entry, m: Manifest,
                                          lib: Library)
    requires Holds(entries, sorted) && manifest.name == SOURCE_MANIFEST
    requires m.version == 1 && !AllSpace(m.release) && m.files == RowsOf(entries, lib)
    ensures CheckManifest(m, m.release, entries + [manifest], lib) == None
  {
    AllKept(entries, sorted, manifest);
    DistinctCount(sorted);
    RowPaths(entries, sorted, lib);
    RowsHold(entries, sorted, manifest, lib);
    hide SafeSourcePath, SOURCE_MANIFEST, ReadText, AllSpace, SourcesOf, RowHolds;
  }

  lemma {:induction false} ApartCounts(a: seq<string>, x: string)
    requires Apart(a)
    ensures multiset(a)[x] <= 1
  {
    if a != [] {
      ApartCounts(a[1..], x);
      assert a == [a[0]] + a[1..];
      assert a[0] !in a[1..];
    }
  }

  lemma {:induction false} ApartPermutes(a: seq<string>, b: seq<string>)
    requires Apart(a) && multiset(a) == multiset(b)
    ensures Apart(b)
  {
    forall j, k | 0 <= j < k < |b| ensures b[j] != b[k] {
      ApartCounts(a, b[k]);
      assert b == b[..k] + b[k..];
      assert b[k] in b[k..] && b[j] in b[..k];
    }
  }

  lemma {:induction false} SourcesSafe(c: Collected, choice: Choice, p: string)
    requires Sound(c, choice) && p in c.bundle
    ensures SafeSourcePath(p) && p != SOURCE_MANIFEST && Readable(c.bundle[p]) && Meets(p, choice)
  {
    hide Meets;
    SourcesAreNotTheManifest(p, choice.includes);
    WantedIff(p, choice);
  }

  lemma {:induction false} CollectedSays(c: Collected, choice: Choice)
    requires Sound(c, choice)
    ensures Apart(c.order) && |c.order| == c.files <= MAX_FILES && Listed(c.order, c.bundle)
        && Sizes(c.order, c.bundle) <= MAX_SOURCE_BYTES
    ensures forall p :: p in c.order <==> p in c.bundle
  {
  }

  lemma {:induction false} SortedReady(c: Collected, choice: Choice, lib: Library)
    requires Faithful(lib) && Sound(c, choice)
    ensures Ready(lib.sort(c.order), c.bundle)
  {
    var sorted := lib.sort(c.order);
    SortedSame(c.order, lib);
    CollectedSays(c, choice);
    assert multiset(sorted) == multiset(c.order);
    hide Sound, Faithful, SafeSourcePath, SOURCE_MANIFEST, Readable, Sizes, Apart;
    assert Listed(sorted, c.bundle) by { assert forall p | p in sorted :: p in c.order; }
    ApartPermutes(c.order, sorted);
    SizesPermute(c.order, sorted, c.bundle);
    forall p | p in sorted ensures SafeSourcePath(p) && p != SOURCE_MANIFEST && Readable(c.bundle[p]) {
      SourcesSafe(c, choice, p);
    }
  }

  // ------------------------------------------------------------------ the round trip

  /** Whatever was collected and packed is accepted for its release, as long as the
      archive and the manifest are within the inspection's own limits: the same paths,
      each safe and none of them the manifest, and the manifest that describes them. */
  lemma {:induction false} PackedIsAccepted(c: Collected, release: string, source: Origin, choice: Choice, lib: Library)
    returns (bytes: Bytes, m: Manifest)
    requires Faithful(lib) && Sound(c, choice) && c.files > 0 && !AllSpace(release)
    ensures Listed(lib.sort(c.order), c.bundle)
    ensures m == Manifest(1, release, source, RowsOf(Packed(lib.sort(c.order), c.bundle), lib))
    ensures bytes == lib.zip(Packed(lib.sort(c.order), c.bundle) + [Entry(SOURCE_MANIFEST, lib.render(m))])
    ensures |lib.render(m)| <= MAX_MANIFEST_BYTES && |bytes| <= MAX_SOURCE_BYTES + MAX_MANIFEST_BYTES ==>
              Inspect(bytes, release, lib) == Ok(Inspected(lib.sort(c.order), Some(m)))
    ensures forall p | p in lib.sort(c.order) :: p in c.bundle && SafeSourcePath(p) && p != SOURCE_MANIFEST
    ensures forall p | p in lib.sort(c.order) :: Meets(p, choice)
    ensures Apart(lib.sort(c.order)) && forall p | p in c.bundle :: p in lib.sort(c.order)
  {
    hide Ready, Holds, Sound, Faithful, SafeSourcePath, Scan, Kept, AllReadable, Body, CheckManifest, SourcesOf,
         ReadText, Packed, RowsOf, SOURCE_MANIFEST, AllSpace, Apart, Listed, Meets;
    var sorted := lib.sort(c.order);
    SortedReady(c, choice, lib);
    SortedSame(c.order, lib);
    CollectedSays(c, choice);
    ReadyApart(sorted, c.bundle);
    PackedHolds(sorted, c.bundle);
    forall p | p in sorted ensures p in c.bundle && SafeSourcePath(p) && p != SOURCE_MANIFEST && Meets(p, choice) {
      SourcesSafe(c, choice, p);
    }
    var entries := Packed(sorted, c.bundle);
    m := Manifest(1, release, source, RowsOf(entries, lib));
    var manifest := Entry(SOURCE_MANIFEST, lib.render(m));
    bytes := lib.zip(entries + [manifest]);
    Unpacks(c, entries, sorted, manifest, m, lib);
    assert |manifest.body| <= MAX_MANIFEST_BYTES ==> Scan(entries + [manifest], {}, 0) == None by {
      if |manifest.body| <= MAX_MANIFEST_BYTES { ScansWhole(sorted, c.bundle, manifest); }
    }
  }

  lemma {:induction false} ScansWhole(sorted: seq<string>, bundle: map<string, Text>, manifest: Entry)
    requires Ready(sorted, bundle) && Listed(sorted, bundle)
    requires manifest.name == SOURCE_MANIFEST && |manifest.body| <= MAX_MANIFEST_BYTES
    ensures Scan(Packed(sorted, bundle) + [manifest], {}, 0) == None
  {
    var all := Packed(sorted, bundle) + [manifest];
    ScanAccepts(sorted, bundle, manifest, 0);
    assert all[0..] == all && sorted[..0] == [] && NamesOf([]) == {};
  }

  lemma {:induction false} Unpacks(c: Collected, entries: seq<Entry>, sorted: seq<string>, manifest: Entry, m: Manifest,
                                   lib: Library)
    requires Faithful(lib) && Holds(entries, sorted) && sorted == lib.sort(c.order) && |sorted| > 0
    requires manifest == Entry(SOURCE_MANIFEST, lib.render(m)) && m.version == 1 && !AllSpace(m.release)
        && m.files == RowsOf(entries, lib)
    ensures var all := entries + [manifest];
      && lib.unzip(lib.zip(all)) == all && Kept(all) == all && SourcesOf(all) == sorted && AllReadable(all)
      && Body(all, SOURCE_MANIFEST) == Some(manifest.body)
      && ReadText(manifest.body).Some? && lib.parse(ReadText(manifest.body).value) == Some(m)
      && CheckManifest(m, m.release, all, lib) == None && lib.sort(sorted) == sorted
  {
    hide Holds, CheckManifest, Kept, SourcesOf, AllReadable, Body, ReadText, SOURCE_MANIFEST, RowsOf, AllSpace,
         NamesApart;
    NamesDiffer(entries, sorted, manifest);
    AllKept(entries, sorted, manifest);
    TextsRead(entries, sorted, manifest);
    ManifestPasses(entries, sorted, manifest, m, lib);
  }
}
