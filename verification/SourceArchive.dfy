/** `packSources` and `inspectSourceArchive` in `sdk/cli/src/srcbundle.ts`. */
module SourceArchive {
  import opened Prelude
  import opened SourcePaths
  import opened SourceWanted
  import opened Utf8

  type Bytes = seq<Byte>
  type Text = seq<Scalar>

  const MAX_SOURCE_FILE_BYTES: nat := 512 * 1024
  const MAX_SOURCE_BYTES: nat := 64 * 1024 * 1024
  const MAX_FILES: nat := 10000
  const MAX_MANIFEST_BYTES: nat := 4 * 1024 * 1024

  datatype Entry = Entry(name: string, body: Bytes)

  datatype Row = Row(path: string, bytes: nat, sha256: string)

  datatype Origin = Directory | GitTag(tag: string, commit: string)

  datatype Manifest = Manifest(version: int, release: string, source: Origin, files: seq<Row>)

  datatype Refusal = Blank | TooLarge | UnsafePath | TooMany | OverLimit | Empty | NotText | Unmatched
    | BadManifest | WrongRelease | FileList | Checksum

  datatype Result<+T> = Ok(value: T) | Err(refusal: Refusal)

  /** Archive, JSON, digest and sort, which this file gets from libraries. */
  datatype Library = Library(
    zip: seq<Entry> -> Bytes,
    unzip: Bytes -> seq<Entry>,
    render: Manifest -> Bytes,
    parse: Text -> Option<Manifest>,
    sha256: Bytes -> string,
    sort: seq<string> -> seq<string>)

  predicate NamesApart(entries: seq<Entry>) {
    forall j, k | 0 <= j < k < |entries| :: entries[j].name != entries[k].name
  }

  /** An archive unpacks to what was packed, in order; a manifest reads back as it was
      written, as text; sorting rearranges, and does nothing the second time. */
  ghost predicate Faithful(lib: Library) {
    && (forall es | NamesApart(es) :: lib.unzip(lib.zip(es)) == es)
    && (forall m :: ReadText(lib.render(m)).Some? && lib.parse(ReadText(lib.render(m)).value) == Some(m))
    && (forall s :: multiset(lib.sort(s)) == multiset(s) && lib.sort(lib.sort(s)) == lib.sort(s))
  }

  // ------------------------------------------------------------------------ text

  /** UTF-8 without a zero byte; a leading byte order mark is dropped. */
  function ReadText(bytes: Bytes): Option<Text> {
    if 0 in bytes then None
    else
      match Decode(bytes)
      case None => None
      case Some(cps) => Some(if cps != [] && cps[0] == 0xfeff then cps[1..] else cps)
  }

  /** The bytes of a text, which may have a byte order mark before it. */
  predicate Spells(bytes: Bytes, t: Text) {
    AllScalars(t) && (bytes == Encode(t) || bytes == Encode([0xfeff as Scalar]) + Encode(t))
  }

  /** What is read is spelled by the bytes, has no mark of its own left unless it had two, and
      there is nothing to read exactly where a byte is zero or the bytes spell no text. */
  lemma {:induction false} ReadTextIff(bytes: Bytes)
    ensures ReadText(bytes).Some? <==> 0 !in bytes && exists t :: Spells(bytes, t)
    ensures ReadText(bytes).Some? ==>
      var t := ReadText(bytes).value;
      Spells(bytes, t) && (bytes == Encode(t) ==> t == [] || t[0] != 0xfeff)
  {
    hide Spells, Decode, Encode;
    if t :| Spells(bytes, t) { SpelledDecodes(bytes, t); }
    if ReadText(bytes).Some? { ReadSpells(bytes); }
  }

  lemma {:induction false} SpelledDecodes(bytes: Bytes, t: Text)
    requires Spells(bytes, t)
    ensures Decode(bytes).Some?
  {
    hide Decode, Encode;
    DecodeEncode(t);
    if bytes != Encode(t) {
      MarkFirst(t);
      DecodeEncode([0xfeff as Scalar] + t);
    }
  }

  lemma {:induction false} ReadSpells(bytes: Bytes)
    requires ReadText(bytes).Some?
    ensures var t := ReadText(bytes).value;
      Spells(bytes, t) && (bytes == Encode(t) ==> t == [] || t[0] != 0xfeff)
  {
    hide Decode, Encode;
    EncodeDecode(bytes);
    var cps, t := Decode(bytes).value, ReadText(bytes).value;
    TailIsScalars(cps);
    DecodeEncode(t);
    if t != cps {
      MarkFirst(t);
      assert cps == [0xfeff as Scalar] + t;
    }
  }

  lemma {:induction false} TailIsScalars(cps: Text)
    requires AllScalars(cps)
    ensures cps != [] ==> AllScalars(cps[1..])
  {
  }

  lemma {:induction false} MarkFirst(t: Text)
    requires AllScalars(t)
    ensures Encode([0xfeff as Scalar] + t) == Encode([0xfeff as Scalar]) + Encode(t)
    ensures AllScalars([0xfeff as Scalar] + t) && |Encode([0xfeff as Scalar])| > 0
  {
    var mark := [0xfeff as Scalar];
    assert (mark + t)[1..] == t && mark[1..] == [];
  }

  /** Written back the text is readable again, and no longer than it was. */
  lemma {:induction false} WrittenBack(bytes: Bytes)
    requires ReadText(bytes).Some?
    ensures var t := ReadText(bytes).value;
      AllScalars(t) && ReadText(Encode(t)).Some? && |Encode(t)| <= |bytes|
  {
    EncodeDecode(bytes);
    var cps, t := Decode(bytes).value, ReadText(bytes).value;
    DecodeEncode(t);
    if t != cps {
      assert bytes == Encode1(cps[0]) + Encode(t);
      assert forall b | b in Encode(t) :: b in bytes;
    }
  }

  // ------------------------------------------------------------------- collecting

  /** The collected texts, the order they came in, and the counts kept beside them. */
  datatype Collected = Collected(bundle: map<string, Text>, order: seq<string>, files: nat, bytes: nat)

  const NOTHING := Collected(map[], [], 0, 0)

  predicate Readable(t: Text) {
    AllScalars(t) && ReadText(Encode(t)).Some? && |Encode(t)| <= MAX_SOURCE_FILE_BYTES
  }

  predicate Listed(paths: seq<string>, bundle: map<string, Text>) {
    forall p | p in paths :: p in bundle && AllScalars(bundle[p])
  }

  function Sizes(paths: seq<string>, bundle: map<string, Text>): nat
    requires Listed(paths, bundle)
  {
    if paths == [] then 0 else |Encode(bundle[paths[0]])| + Sizes(paths[1..], bundle)
  }

  predicate Apart(paths: seq<string>) {
    forall j, k | 0 <= j < k < |paths| :: paths[j] != paths[k]
  }

  ghost predicate Sound(c: Collected, choice: Choice) {
    && Apart(c.order) && (forall p :: p in c.order <==> p in c.bundle)
    && (forall p | p in c.bundle :: Wanted(p, choice) && Readable(c.bundle[p]))
    && |c.order| == c.files <= MAX_FILES
    && Sizes(c.order, c.bundle) <= c.bytes <= MAX_SOURCE_BYTES
  }

  function Added(c: Collected, path: string, bytes: Bytes): Result<Collected> {
    if path in c.bundle then Ok(c)
    else if |bytes| > MAX_SOURCE_FILE_BYTES then Err(OverLimit)
    else if c.bytes + |bytes| > MAX_SOURCE_BYTES || c.files >= MAX_FILES then Err(TooMany)
    else
      match ReadText(bytes)
      case None => Err(NotText)
      case Some(text) => Ok(Collected(c.bundle[path := text], c.order + [path], c.files + 1, c.bytes + |bytes|))
  }

  lemma {:induction false} SizesGrow(paths: seq<string>, path: string, bundle: map<string, Text>, text: Text)
    requires Listed(paths, bundle)
    requires path !in paths && AllScalars(text)
    ensures Sizes(paths + [path], bundle[path := text]) == Sizes(paths, bundle) + |Encode(text)|
  {
    if paths == [] {
      assert [path][1..] == [];
    } else {
      SizesGrow(paths[1..], path, bundle, text);
      assert (paths + [path])[1..] == paths[1..] + [path];
    }
  }

  lemma {:induction false} AddedSound(c: Collected, path: string, bytes: Bytes, choice: Choice)
    requires Sound(c, choice) && Wanted(path, choice) && Added(c, path, bytes).Ok?
    ensures Sound(Added(c, path, bytes).value, choice)
  {
    hide Wanted, ReadText, Encode, AllScalars;
    if path !in c.bundle {
      WrittenBack(bytes);
      var text := ReadText(bytes).value;
      SizesGrow(c.order, path, c.bundle, text);
    }
  }

  lemma {:induction false} NothingSound(choice: Choice)
    ensures Sound(NOTHING, choice)
  {
  }

  // -------------------------------------------------------------- what is collected

  /** A file the walk or the tag offers. */
  type Offer = (string, Bytes)

  predicate Has(fs: seq<Offer>, path: string) {
    exists f | f in fs :: f.0 == path
  }

  /** Of the first `k` offers those wanted, each path where it first comes. */
  function Firsts(offered: seq<Offer>, k: nat, choice: Choice): (fs: seq<Offer>)
    requires k <= |offered|
  {
    if k == 0 then []
    else
      var fs := Firsts(offered, k - 1, choice);
      if Wanted(offered[k - 1].0, choice) && !Has(fs, offered[k - 1].0) then fs + [offered[k - 1]] else fs
  }

  function Total(fs: seq<Offer>): nat {
    if fs == [] then 0 else Total(fs[..|fs| - 1]) + |fs[|fs| - 1].1|
  }

  predicate AllText(fs: seq<Offer>) {
    forall f | f in fs :: ReadText(f.1).Some?
  }

  predicate Bounded(fs: seq<Offer>) {
    |fs| <= MAX_FILES && Total(fs) <= MAX_SOURCE_BYTES && AllText(fs)
  }

  /** No wanted file is too big, all are text, and together they are within the limits. */
  predicate WithinLimits(offered: seq<Offer>, k: nat, choice: Choice)
    requires k <= |offered|
  {
    && (forall j | 0 <= j < k && Wanted(offered[j].0, choice) :: |offered[j].1| <= MAX_SOURCE_FILE_BYTES)
    && Bounded(Firsts(offered, k, choice))
  }

  /** Some wanted file is under the path asked for. */
  predicate Matched(offered: seq<Offer>, k: nat, choice: Choice, item: string)
    requires k <= |offered|
  {
    exists j | 0 <= j < k :: Wanted(offered[j].0, choice) && Selected(offered[j].0, [item], [])
  }

  /** When the collecting succeeds. A tag must have something under every path asked for. */
  predicate Collectable(offered: seq<Offer>, choice: Choice, tagged: bool) {
    && WithinLimits(offered, |offered|, choice)
    && Firsts(offered, |offered|, choice) != []
    && (tagged ==> forall item | item in choice.includes :: Matched(offered, |offered|, choice, item))
  }

  /** What it yields: each path with its text, in the order the paths came. */
  ghost predicate Gathered(c: Collected, fs: seq<Offer>) {
    && |c.order| == |fs| == c.files && c.bytes == Total(fs) && AllText(fs)
    && (forall j | 0 <= j < |fs| :: c.order[j] == fs[j].0)
    && (forall p :: p in c.bundle <==> Has(fs, p))
    && (forall j | 0 <= j < |fs| :: fs[j].0 in c.bundle && c.bundle[fs[j].0] == ReadText(fs[j].1).value)
  }

  lemma {:induction false} FirstsGrow(offered: seq<Offer>, j: nat, k: nat, choice: Choice)
    requires j <= k <= |offered|
    ensures |Firsts(offered, j, choice)| <= |Firsts(offered, k, choice)|
    ensures Total(Firsts(offered, j, choice)) <= Total(Firsts(offered, k, choice))
    ensures forall f | f in Firsts(offered, j, choice) :: f in Firsts(offered, k, choice)
  {
    hide Wanted, Has;
    if j < k {
      FirstsGrow(offered, j, k - 1, choice);
      var fs := Firsts(offered, k - 1, choice);
      assert (fs + [offered[k - 1]])[..|fs|] == fs;
    }
  }

  /** The `j`-th offer is the first of its path. */
  ghost predicate FirstOffer(offered: seq<Offer>, j: int, p: string) {
    0 <= j < |offered| && offered[j].0 == p && forall i | 0 <= i < j :: offered[i].0 != p
  }

  ghost predicate Early(offered: seq<Offer>, k: nat, f: Offer) {
    exists j :: j < k && FirstOffer(offered, j, f.0) && offered[j] == f
  }

  ghost predicate EarlyPath(offered: seq<Offer>, k: nat, p: string) {
    exists j :: j < k && FirstOffer(offered, j, p)
  }

  lemma {:induction false} FirstsAre(offered: seq<Offer>, k: nat, choice: Choice)
    requires k <= |offered|
    ensures forall f :: f in Firsts(offered, k, choice) <==> Wanted(f.0, choice) && Early(offered, k, f)
    ensures forall p :: Has(Firsts(offered, k, choice), p) <==> Wanted(p, choice) && EarlyPath(offered, k, p)
  {
    hide Wanted, FirstOffer, Early, EarlyPath, Has;
    NoneEarly(offered);
    if k == 0 {
      NoneHas();
    } else {
      FirstsAre(offered, k - 1, choice);
      var fs, f := Firsts(offered, k - 1, choice), offered[k - 1];
      forall g ensures Early(offered, k, g)
          <==> Early(offered, k - 1, g) || (g == f && !EarlyPath(offered, k - 1, f.0)) {
        EarlyStep(offered, k - 1, g);
      }
      forall p ensures EarlyPath(offered, k, p) <==> EarlyPath(offered, k - 1, p) || p == f.0 {
        EarlyPathStep(offered, k - 1, p);
      }
      forall p ensures Has(fs + [f], p) <==> Has(fs, p) || p == f.0 { HasOneMore(fs, f, p); }
    }
  }

  lemma {:induction false} NoneEarly(offered: seq<Offer>)
    ensures forall f :: !Early(offered, 0, f)
    ensures forall p :: !EarlyPath(offered, 0, p)
  {
  }

  lemma {:induction false} NoneHas()
    ensures forall p :: !Has([], p)
  {
  }

  lemma {:induction false} HasOneMore(fs: seq<Offer>, f: Offer, p: string)
    ensures Has(fs + [f], p) <==> Has(fs, p) || p == f.0
  {
    if Has(fs, p) {
      var g :| g in fs && g.0 == p;
      assert g in fs + [f];
    }
    assert f in fs + [f];
  }

  lemma {:induction false} EarlyStep(offered: seq<Offer>, k: nat, g: Offer)
    requires k < |offered|
    ensures Early(offered, k + 1, g) <==>
            Early(offered, k, g) || (g == offered[k] && !EarlyPath(offered, k, offered[k].0))
  {
    FirstAt(offered, k);
    hide FirstOffer;
  }

  lemma {:induction false} EarlyPathStep(offered: seq<Offer>, k: nat, p: string)
    requires k < |offered|
    ensures EarlyPath(offered, k + 1, p) <==> EarlyPath(offered, k, p) || p == offered[k].0
  {
    FirstAt(offered, k);
    hide FirstOffer;
  }

  /** An offer is the first of its path, or an earlier one is. */
  lemma {:induction false} FirstAt(offered: seq<Offer>, k: nat)
    requires k < |offered|
    ensures FirstOffer(offered, k, offered[k].0) <==> !EarlyPath(offered, k, offered[k].0)
    ensures forall p | FirstOffer(offered, k, p) :: p == offered[k].0
  {
    var p := offered[k].0;
    if !FirstOffer(offered, k, p) {
      var i :| 0 <= i < k && offered[i].0 == p;
      var j := EarliestOffer(offered, i);
    }
  }

  lemma {:induction false} EarliestOffer(offered: seq<Offer>, i: nat) returns (j: nat)
    requires i < |offered|
    ensures j <= i && FirstOffer(offered, j, offered[i].0)
  {
    j := i;
    if h :| 0 <= h < i && offered[h].0 == offered[i].0 { j := EarliestOffer(offered, h); }
  }

  lemma {:induction false} EarlyAtAll(offered: seq<Offer>, p: string)
    ensures EarlyPath(offered, |offered|, p) <==> exists j :: FirstOffer(offered, j, p)
  {
  }

  /** What is collected, said of the offers and the characters of their paths alone. */
  lemma {:induction false} CollectedExactly(c: Collected, offered: seq<Offer>, choice: Choice)
    requires Gathered(c, Firsts(offered, |offered|, choice))
    ensures forall p :: p in c.bundle <==> Meets(p, choice) && exists j :: FirstOffer(offered, j, p)
    ensures forall j | 0 <= j < |offered| && FirstOffer(offered, j, offered[j].0) && Meets(offered[j].0, choice) ::
              ReadText(offered[j].1).Some? && offered[j].0 in c.bundle
              && c.bundle[offered[j].0] == ReadText(offered[j].1).value
  {
    var fs := Firsts(offered, |offered|, choice);
    FirstsAre(offered, |offered|, choice);
    hide Firsts, Wanted, Meets, ReadText, Has, FirstOffer;
    forall p ensures p in c.bundle <==> Meets(p, choice) && exists j :: FirstOffer(offered, j, p) {
      WantedIff(p, choice);
      EarlyAtAll(offered, p);
      assert p in c.bundle <==> Has(fs, p);
    }
    forall j | 0 <= j < |offered| && FirstOffer(offered, j, offered[j].0) && Meets(offered[j].0, choice)
      ensures ReadText(offered[j].1).Some? && offered[j].0 in c.bundle
              && c.bundle[offered[j].0] == ReadText(offered[j].1).value
    {
      WantedIff(offered[j].0, choice);
      assert Early(offered, |offered|, offered[j]);
      var i :| 0 <= i < |fs| && fs[i] == offered[j];
    }
  }

  /** When it succeeds: every file that meets the choice is within its size, the first of each
      path are texts and within the limits together, there is one, and for a tag one at or
      below each path asked for. */
  lemma {:induction false} CollectableExactly(offered: seq<Offer>, choice: Choice, tagged: bool)
    ensures var fs := Firsts(offered, |offered|, choice);
      Collectable(offered, choice, tagged) <==>
      && (forall j | 0 <= j < |offered| && Meets(offered[j].0, choice) :: |offered[j].1| <= MAX_SOURCE_FILE_BYTES)
      && |fs| <= MAX_FILES && Total(fs) <= MAX_SOURCE_BYTES && (forall f | f in fs :: ReadText(f.1).Some?)
      && (exists j | 0 <= j < |offered| :: Meets(offered[j].0, choice))
      && (tagged ==> forall x | x in choice.includes :: Reached(offered, choice, x))
  {
    hide Wanted, Meets, ReadText, Matched, Reached, Firsts, Total, WithinLimits;
    SizesAgree(offered, choice);
    SomeFirst(offered, choice);
    MeetsEach(offered, choice);
    forall x ensures Matched(offered, |offered|, choice, x) <==> Reached(offered, choice, x) {
      ReachedIff(offered, choice, x);
    }
  }

  lemma {:induction false} SizesAgree(offered: seq<Offer>, choice: Choice)
    ensures WithinLimits(offered, |offered|, choice) <==>
            && (forall j | 0 <= j < |offered| && Meets(offered[j].0, choice) :: |offered[j].1| <= MAX_SOURCE_FILE_BYTES)
            && Bounded(Firsts(offered, |offered|, choice))
  {
    hide Wanted, Meets, Firsts, Bounded;
    MeetsEach(offered, choice);
  }

  /** Something that meets the choice is at or below the path. */
  ghost predicate Reached(offered: seq<Offer>, choice: Choice, x: string) {
    exists j | 0 <= j < |offered| ::
      Meets(offered[j].0, choice) && (x == "." || x == offered[j].0 || Below(offered[j].0, x))
  }

  lemma {:induction false} MeetsEach(offered: seq<Offer>, choice: Choice)
    ensures forall j | 0 <= j < |offered| :: Wanted(offered[j].0, choice) <==> Meets(offered[j].0, choice)
  {
    forall j | 0 <= j < |offered| ensures Wanted(offered[j].0, choice) <==> Meets(offered[j].0, choice) {
      WantedIff(offered[j].0, choice);
    }
  }

  lemma {:induction false} ReachedIff(offered: seq<Offer>, choice: Choice, x: string)
    ensures Matched(offered, |offered|, choice, x) <==> Reached(offered, choice, x)
  {
    MeetsEach(offered, choice);
    forall j | 0 <= j < |offered|
      ensures Selected(offered[j].0, [x], []) <==> x == "." || x == offered[j].0 || Below(offered[j].0, x)
    {
      OnlySelected(offered[j].0, x);
    }
    hide Wanted, Meets, Selected, Below;
  }

  lemma {:induction false} OnlySelected(p: string, x: string)
    ensures Selected(p, [x], []) <==> x == "." || x == p || Below(p, x)
  {
    UnderIff(p, x);
    hide Under, Below;
    assert x in [x] && forall y | y in [x] :: y == x;
  }

  lemma {:induction false} SomeFirst(offered: seq<Offer>, choice: Choice)
    ensures Firsts(offered, |offered|, choice) != [] <==> exists j | 0 <= j < |offered| :: Wanted(offered[j].0, choice)
  {
    var fs := Firsts(offered, |offered|, choice);
    FirstsAre(offered, |offered|, choice);
    hide Firsts, Wanted, Has, FirstOffer;
    if j :| 0 <= j < |offered| && Wanted(offered[j].0, choice) {
      var i := EarliestOffer(offered, j);
      FirstIsItself(offered, i, offered[j].0);
      assert Early(offered, |offered|, offered[i]);
    }
    if fs != [] { assert fs[0] in fs; }
  }

  lemma {:induction false} FirstIsItself(offered: seq<Offer>, i: nat, p: string)
    requires FirstOffer(offered, i, p)
    ensures i < |offered| && offered[i].0 == p
  {
  }

  /** What is over a limit early stays over it. */
  lemma {:induction false} LimitsLast(offered: seq<Offer>, k: nat, choice: Choice)
    requires k <= |offered| && WithinLimits(offered, |offered|, choice)
    ensures WithinLimits(offered, k, choice)
  {
    hide Wanted, ReadText, Total, Firsts;
    FirstsGrow(offered, k, |offered|, choice);
  }

  lemma {:induction false} TotalOf(fs: seq<Offer>, f: Offer)
    ensures Total(fs + [f]) == Total(fs) + |f.1|
  {
    assert (fs + [f])[..|fs|] == fs;
  }

  lemma {:induction false} GatheredOne(c: Collected, fs: seq<Offer>, f: Offer)
    requires Gathered(c, fs) && f.0 !in c.bundle && ReadText(f.1).Some?
    ensures Gathered(Collected(c.bundle[f.0 := ReadText(f.1).value], c.order + [f.0], c.files + 1, c.bytes + |f.1|),
                     fs + [f])
  {
    hide ReadText;
    TotalOf(fs, f);
    var d := Collected(c.bundle[f.0 := ReadText(f.1).value], c.order + [f.0], c.files + 1, c.bytes + |f.1|);
    forall p ensures p in d.bundle <==> Has(fs + [f], p) {
      assert Has(fs + [f], p) <==> Has(fs, p) || f.0 == p by {
        if Has(fs, p) {
          var g :| g in fs && g.0 == p;
          assert g in fs + [f];
        }
        assert f in fs + [f];
      }
    }
    forall j | 0 <= j < |fs + [f]|
      ensures (fs + [f])[j].0 in d.bundle && d.bundle[(fs + [f])[j].0] == ReadText((fs + [f])[j].1).value
    {
      if j < |fs| { assert fs[j].0 in c.bundle; }
    }
  }

  lemma {:induction false} BoundedOne(fs: seq<Offer>, f: Offer)
    requires Bounded(fs)
    ensures Bounded(fs + [f]) <==> |fs| < MAX_FILES && Total(fs) + |f.1| <= MAX_SOURCE_BYTES && ReadText(f.1).Some?
  {
    TotalOf(fs, f);
    hide ReadText, Total;
    assert f in fs + [f] && forall g | g in fs + [f] :: g in fs || g == f;
  }

  /** A wanted file within the size adds to the limits what `add` checks. */
  lemma {:induction false} OneMore(offered: seq<Offer>, k: nat, choice: Choice)
    requires k < |offered| && WithinLimits(offered, k, choice)
    requires Wanted(offered[k].0, choice) && |offered[k].1| <= MAX_SOURCE_FILE_BYTES
    ensures var fs, f := Firsts(offered, k, choice), offered[k];
      && Firsts(offered, k + 1, choice) == (if Has(fs, f.0) then fs else fs + [f])
      && (WithinLimits(offered, k + 1, choice) <==>
            Has(fs, f.0) || (|fs| < MAX_FILES && Total(fs) + |f.1| <= MAX_SOURCE_BYTES && ReadText(f.1).Some?))
  {
    hide Wanted, ReadText, Total, Has, Bounded;
    BoundedOne(Firsts(offered, k, choice), offered[k]);
  }

  /** `add` accepts a wanted file exactly when the limits still hold with it. */
  lemma {:induction false} AddedIff(c: Collected, offered: seq<Offer>, k: nat, choice: Choice)
    requires k < |offered| && WithinLimits(offered, k, choice) && Gathered(c, Firsts(offered, k, choice))
    requires Wanted(offered[k].0, choice) && |offered[k].1| <= MAX_SOURCE_FILE_BYTES
    ensures var added := Added(c, offered[k].0, offered[k].1);
      && (added.Ok? <==> WithinLimits(offered, k + 1, choice))
      && (added.Ok? ==> Gathered(added.value, Firsts(offered, k + 1, choice)))
  {
    hide *;
    var fs, f := Firsts(offered, k, choice), offered[k];
    OneMore(offered, k, choice);
    GatheredSays(c, fs, f.0);
    AddedWhen(c, f.0, f.1);
    if !Has(fs, f.0) && ReadText(f.1).Some? { GatheredOne(c, fs, f); }
  }

  lemma {:induction false} AddedWhen(c: Collected, path: string, bytes: Bytes)
    requires |bytes| <= MAX_SOURCE_FILE_BYTES
    ensures var added := Added(c, path, bytes);
      && (added.Ok? <==> path in c.bundle
                         || (c.files < MAX_FILES && c.bytes + |bytes| <= MAX_SOURCE_BYTES && ReadText(bytes).Some?))
      && (path in c.bundle ==> added.value == c)
      && (path !in c.bundle && added.Ok? ==>
            added.value == Collected(c.bundle[path := ReadText(bytes).value], c.order + [path], c.files + 1,
                                     c.bytes + |bytes|))
  {
    hide ReadText;
  }

  lemma {:induction false} GatheredSays(c: Collected, fs: seq<Offer>, p: string)
    requires Gathered(c, fs)
    ensures c.files == |fs| && c.bytes == Total(fs) && (p in c.bundle <==> Has(fs, p))
  {
  }

  lemma {:induction false} Unwanting(offered: seq<Offer>, k: nat, choice: Choice)
    requires k < |offered| && !Wanted(offered[k].0, choice)
    ensures Firsts(offered, k + 1, choice) == Firsts(offered, k, choice)
    ensures WithinLimits(offered, k, choice) ==> WithinLimits(offered, k + 1, choice)
  {
    hide Wanted, ReadText;
  }

  lemma {:induction false} TooBig(offered: seq<Offer>, k: nat, choice: Choice)
    requires k < |offered| && Wanted(offered[k].0, choice) && |offered[k].1| > MAX_SOURCE_FILE_BYTES
    ensures !WithinLimits(offered, k + 1, choice)
  {
    hide Wanted, ReadText, Firsts;
  }

  lemma {:induction false} NothingGathered(offered: seq<Offer>, choice: Choice)
    ensures WithinLimits(offered, 0, choice) && Gathered(NOTHING, Firsts(offered, 0, choice))
    ensures MatchedBy(offered, 0, choice) == {}
  {
  }

  /** The paths asked for that the first `k` wanted offers have something under. */
  function MatchedBy(offered: seq<Offer>, k: nat, choice: Choice): set<string>
    requires k <= |offered|
  {
    set item | item in choice.includes && Matched(offered, k, choice, item)
  }

  lemma {:induction false} MatchedStep(offered: seq<Offer>, k: nat, choice: Choice)
    requires k < |offered|
    ensures MatchedBy(offered, k + 1, choice) == MatchedBy(offered, k, choice) +
            if Wanted(offered[k].0, choice)
                then set item | item in choice.includes && Selected(offered[k].0, [item], []) else {}
  {
    hide Wanted, Selected;
    forall item ensures Matched(offered, k + 1, choice, item) <==>
      Matched(offered, k, choice, item) || (Wanted(offered[k].0, choice) && Selected(offered[k].0, [item], []))
    {
    }
  }

  /** One wanted file: its size is checked before `add` is called. */
  method Take(c: Collected, offered: seq<Offer>, k: nat, choice: Choice) returns (r: Result<Collected>)
    requires k < |offered| && Wanted(offered[k].0, choice)
    requires Sound(c, choice) && WithinLimits(offered, k, choice) && Gathered(c, Firsts(offered, k, choice))
    ensures r.Ok? <==> WithinLimits(offered, k + 1, choice)
    ensures r.Ok? ==> Sound(r.value, choice) && Gathered(r.value, Firsts(offered, k + 1, choice))
  {
    hide Wanted, Sound, Gathered, Added, WithinLimits, Firsts;
    var (path, bytes) := offered[k];
    if |bytes| > MAX_SOURCE_FILE_BYTES {
      TooBig(offered, k, choice);
      return Err(OverLimit);
    }
    AddedIff(c, offered, k, choice);
    r := Added(c, path, bytes);
    if r.Ok? { AddedSound(c, path, bytes, choice); }
  }

  /** The files offered, filtered and accumulated: every wanted path with its text, in
      order, or a refusal of the whole exactly where a limit is exceeded, a file is no
      text, or nothing is there. */
  method Collect(offered: seq<Offer>, choice: Choice, tagged: bool) returns (r: Result<Collected>)
    ensures r.Ok? <==> Collectable(offered, choice, tagged)
    ensures r.Ok? ==> Sound(r.value, choice) && Gathered(r.value, Firsts(offered, |offered|, choice))
    ensures r.Ok? ==> forall p :: p in r.value.bundle <==> Meets(p, choice) && exists j :: FirstOffer(offered, j, p)
    ensures r.Ok? ==> forall j | 0 <= j < |offered| && FirstOffer(offered, j, offered[j].0)
        && Meets(offered[j].0, choice) ::
              ReadText(offered[j].1).Some? && offered[j].0 in r.value.bundle
              && r.value.bundle[offered[j].0] == ReadText(offered[j].1).value
  {
    hide *;
    var c := NOTHING;
    var matched: set<string> := {};
    var k := 0;
    NothingSound(choice);
    NothingGathered(offered, choice);
    while k < |offered|
      invariant k <= |offered| && Sound(c, choice)
      invariant WithinLimits(offered, k, choice) && Gathered(c, Firsts(offered, k, choice))
      invariant matched == MatchedBy(offered, k, choice)
    {
      var path := offered[k].0;
      MatchedStep(offered, k, choice);
      if Wanted(path, choice) {
        var taken := Take(c, offered, k, choice);
        if taken.Err? {
          NotCollectable(offered, k + 1, choice, tagged);
          return taken;
        }
        matched := matched + set item | item in choice.includes && Selected(path, [item], []);
        c := taken.value;
      } else {
        Unwanting(offered, k, choice);
      }
      k := k + 1;
    }
    CollectableIff(c, matched, offered, choice, tagged);
    if tagged && exists item :: item in choice.includes && item !in matched { return Err(Unmatched); }
    if c.files == 0 { return Err(Empty); }
    CollectedExactly(c, offered, choice);
    return Ok(c);
  }

  lemma {:induction false} NotCollectable(offered: seq<Offer>, k: nat, choice: Choice, tagged: bool)
    requires k <= |offered| && !WithinLimits(offered, k, choice)
    ensures !Collectable(offered, choice, tagged)
  {
    hide WithinLimits, Wanted;
    if WithinLimits(offered, |offered|, choice) { LimitsLast(offered, k, choice); }
  }

  lemma {:induction false} CollectableIff(c: Collected, matched: set<string>, offered: seq<Offer>, choice: Choice,
                                          tagged: bool)
    requires WithinLimits(offered, |offered|, choice) && Gathered(c, Firsts(offered, |offered|, choice))
    requires matched == MatchedBy(offered, |offered|, choice)
    ensures Collectable(offered, choice, tagged) <==>
            c.files > 0 && !(tagged && exists item :: item in choice.includes && item !in matched)
  {
    hide WithinLimits, Wanted, Firsts, Matched;
  }

  // ----------------------------------------------------------------------- packing

  function Packed(sorted: seq<string>, bundle: map<string, Text>): (entries: seq<Entry>)
    requires Listed(sorted, bundle)
    ensures |entries| == |sorted|
  {
    seq(|sorted|, k requires 0 <= k < |sorted| => Entry(sorted[k], Encode(bundle[sorted[k]])))
  }

  function RowsOf(entries: seq<Entry>, lib: Library): seq<Row> {
    seq(|entries|, k requires 0 <= k < |entries| => Row(entries[k].name, |entries[k].body|,
                                                        lib.sha256(entries[k].body)))
  }

  /** White space as `trim` has it. */
  predicate Space(c: char) {
    var n := c as int;
    n in {9, 10, 11, 12, 13, 32, 160, 5760, 8232, 8233, 8239, 8287, 12288, 65279} || 8192 <= n <= 8202
  }

  predicate AllSpace(s: string) {
    forall c | c in s :: Space(c)
  }

  lemma {:induction false} PackedNone(bundle: map<string, Text>, lib: Library)
    ensures Listed([], bundle) && Packed([], bundle) == [] && RowsOf([], lib) == []
  {
  }

  lemma {:induction false} PackedOne(sorted: seq<string>, k: nat, bundle: map<string, Text>, lib: Library)
    requires Listed(sorted, bundle) && k < |sorted|
    ensures Listed(sorted[..k], bundle) && Listed(sorted[..k + 1], bundle) && sorted[k] in bundle
        && AllScalars(bundle[sorted[k]])
    ensures var e := Entry(sorted[k], Encode(bundle[sorted[k]]));
      && Packed(sorted[..k + 1], bundle) == Packed(sorted[..k], bundle) + [e]
      && RowsOf(Packed(sorted[..k], bundle) + [e], lib)
           == RowsOf(Packed(sorted[..k], bundle), lib) + [Row(e.name, |e.body|, lib.sha256(e.body))]
  {
    assert sorted[k] in sorted;
    assert forall p | p in sorted[..k + 1] :: p in sorted;
    assert forall p | p in sorted[..k] :: p in sorted;
  }

  /** `packSources` after the collecting. */
  method Pack(c: Collected, release: string, source: Origin, choice: Choice, lib: Library)
    returns (r: Result<(Bytes, Manifest)>)
    requires Faithful(lib) && Sound(c, choice)
    ensures r.Err? <==> AllSpace(release)
    ensures r.Ok? ==>
              var sorted := lib.sort(c.order);
              && Listed(sorted, c.bundle)
              && var entries := Packed(sorted, c.bundle);
              && r.value.1 == Manifest(1, release, source, RowsOf(entries, lib))
              && r.value.0 == lib.zip(entries + [Entry(SOURCE_MANIFEST, lib.render(r.value.1))])
  {
    if AllSpace(release) { return Err(Blank); }
    var sorted := lib.sort(c.order);
    SortedSame(c.order, lib);
    assert Listed(sorted, c.bundle);
    hide Sound, Faithful, Encode, Listed, Packed, RowsOf, AllSpace;
    PackedNone(c.bundle, lib);
    var entries: seq<Entry> := [];
    var rows: seq<Row> := [];
    var k := 0;
    while k < |sorted|
      invariant k <= |sorted| && Listed(sorted[..k], c.bundle)
      invariant entries == Packed(sorted[..k], c.bundle) && rows == RowsOf(entries, lib)
    {
      var path := sorted[k];
      PackedOne(sorted, k, c.bundle, lib);
      var body := Encode(c.bundle[path]);
      entries := entries + [Entry(path, body)];
      rows := rows + [Row(path, |body|, lib.sha256(body))];
      k := k + 1;
    }
    assert sorted[..k] == sorted;
    var manifest := Manifest(1, release, source, rows);
    return Ok((lib.zip(entries + [Entry(SOURCE_MANIFEST, lib.render(manifest))]), manifest));
  }

  lemma {:induction false} SortedSame(order: seq<string>, lib: Library)
    requires Faithful(lib)
    ensures |lib.sort(order)| == |order| && forall p :: p in lib.sort(order) <==> p in order
  {
    var sorted := lib.sort(order);
    assert multiset(sorted) == multiset(order);
    assert |multiset(sorted)| == |multiset(order)|;
    forall p ensures p in sorted <==> p in order { assert p in multiset(sorted) <==> p in multiset(order); }
  }
}
