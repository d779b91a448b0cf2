/** Which paths are wanted, said of the characters of a path alone, and that the predicates of
    `SourcePaths`, which split it first, say the same. */
module SourceWanted {
  import opened SourcePaths

  /** `p` lies below the directory `x`. */
  predicate Below(p: string, x: string) {
    |x| < |p| && p[..|x|] == x && p[|x|] == '/'
  }

  /** A stretch between two slashes, or the ends. */
  predicate IsPart(p: string, i: int, j: int) {
    && 0 <= i <= j <= |p|
    && (i == 0 || p[i - 1] == '/') && (j == |p| || p[j] == '/')
    && forall k | i <= k < j :: p[k] != '/'
  }

  /** The last dot of the last part, which is not its first character, begins an extension
      of source code. */
  predicate EndsAsSource(p: string) {
    exists k | 0 < k < |p| :: DotsLast(p, k) && LowerCase(p[k..]) in SOURCE_EXTS
  }

  predicate DotsLast(p: string, k: nat)
    requires 0 < k < |p|
  {
    p[k] == '.' && p[k - 1] != '/' && forall j | k < j < |p| :: p[j] != '.' && p[j] != '/'
  }

  /** Someone asked for this directory by name, or for something below it. */
  predicate AskedFor(dir: string, includes: seq<string>) {
    exists x | x in includes :: x == dir || Below(x, dir)
  }

  /** A short relative path of plain characters with a source extension, none of whose parts
      is empty or starts with a dot, or is a skipped directory nobody asked for; at or below a
      path asked for, and neither at nor below an excluded one. */
  ghost predicate Meets(p: string, choice: Choice) {
    && 0 < |p| <= 1024 && (forall c | c in p :: c != '\\' && c != ':' && c as int >= 0x20)
    && (forall i, j | IsPart(p, i, j) :: i < j && p[i] != '.')
    && (forall i, j | IsPart(p, i, j) && p[i..j] in SKIP_DIRS :: AskedFor(p[..j], choice.includes))
    && EndsAsSource(p)
    && (exists x | x in choice.includes :: x == "." || x == p || Below(p, x))
    && forall x | x in choice.excludes :: x != "." && x != p && !Below(p, x)
  }

  // ------------------------------------------------------------------------ parts

  /** The `k`-th part ends where the first `k + 1` of them, joined, do. */
  ghost predicate Spans(p: string, k: nat) {
    k < |Split(p)| && EndsWith(p, Split(p)[k], Join(Split(p)[..k + 1]))
  }

  /** The path starts with `upTo`, and the end of that is the given part. */
  predicate EndsWith(p: string, part: string, upTo: string) {
    var j := |upTo|;
    |part| <= j <= |p| && IsPart(p, j - |part|, j) && p[j - |part|..j] == part && p[..j] == upTo
  }

  lemma {:induction false} JoinTwo(a: string, rest: seq<string>)
    requires rest != []
    ensures Join([a] + rest) == a + "/" + Join(rest)
  {
    assert ([a] + rest)[1..] == rest;
  }

  lemma {:induction false} JoinHead(c: char, parts: seq<string>)
    requires parts != []
    ensures Join([[c] + parts[0]] + parts[1..]) == [c] + Join(parts)
  {
    var longer := [[c] + parts[0]] + parts[1..];
    if |parts| > 1 {
      assert longer[1..] == parts[1..];
      assert [c] + (parts[0] + "/" + Join(parts[1..])) == ([c] + parts[0]) + "/" + Join(parts[1..]);
    }
  }

  lemma {:induction false} PartShifts(p: string, i: nat, j: nat)
    requires p != "" && IsPart(p[1..], i, j)
    ensures i > 0 || p[0] == '/' ==> IsPart(p, i + 1, j + 1)
    ensures p[0] != '/' && i == 0 ==> IsPart(p, 0, j + 1)
  {
  }

  lemma {:induction false} EmptyPartSpans(p: string)
    requires p == "" || p[0] == '/'
    ensures Spans(p, 0)
  {
    assert Split(p)[..1] == [""];
    hide Split;
    assert p[..0] == "" && p[0..0] == "";
  }

  lemma {:induction false} PartSpans(p: string, k: nat)
    requires k < |Split(p)|
    ensures Spans(p, k)
  {
    SplitHead(p);
    hide Split, Join, Spans;
    var parts := Split(p);
    if p == "" || (p[0] == '/' && k == 0) {
      EmptyPartSpans(p);
    } else {
      var rest := Split(p[1..]);
      if p[0] == '/' {
        PartSpans(p[1..], k - 1);
        assert parts[..k + 1] == [""] + rest[..k];
        JoinTwo("", rest[..k]);
        SpansShift(p, k - 1, k);
      } else {
        PartSpans(p[1..], k);
        assert parts[..k + 1] == [[p[0]] + rest[..k + 1][0]] + rest[..k + 1][1..];
        JoinHead(p[0], rest[..k + 1]);
        SpansShift(p, k, k);
      }
    }
  }

  /** The same part, one character further on, or one longer at the start. */
  lemma {:induction false} SpansShift(p: string, k: nat, l: nat)
    requires p != "" && Spans(p[1..], k) && l < |Split(p)|
    requires Join(Split(p)[..l + 1]) == [p[0]] + Join(Split(p[1..])[..k + 1])
    requires Split(p)[l] == if p[0] != '/' && k == 0 then [p[0]] + Split(p[1..])[k] else Split(p[1..])[k]
    ensures Spans(p, l)
  {
    var q := p[1..];
    var part, upTo := Split(q)[k], Join(Split(q)[..k + 1]);
    hide Split, Join, EndsWith;
    if p[0] != '/' && k == 0 {
      FirstJoin(q);
      GrowsAtStart(p, part);
    } else {
      StartsLater(q, k, p[0] == '/');
      MovesOn(p, part, upTo);
    }
  }

  lemma {:induction false} MovesOn(p: string, part: string, upTo: string)
    requires p != "" && EndsWith(p[1..], part, upTo) && (p[0] == '/' || |part| < |upTo|)
    ensures EndsWith(p, part, [p[0]] + upTo)
  {
    PartShifts(p, |upTo| - |part|, |upTo|);
    hide IsPart;
    SliceShifts(p, |upTo| - |part|, |upTo|);
  }

  lemma {:induction false} GrowsAtStart(p: string, part: string)
    requires p != "" && EndsWith(p[1..], part, part) && p[0] != '/'
    ensures EndsWith(p, [p[0]] + part, [p[0]] + part)
  {
    PartShifts(p, 0, |part|);
    hide IsPart;
    SliceShifts(p, 0, |part|);
  }

  lemma {:induction false} SliceShifts(p: string, i: nat, j: nat)
    requires p != "" && i <= j < |p|
    ensures p[..j + 1] == [p[0]] + p[1..][..j] && p[i + 1..j + 1] == p[1..][i..j]
    ensures i == 0 ==> p[0..j + 1] == [p[0]] + p[1..][i..j]
  {
  }

  lemma {:induction false} FirstJoin(p: string)
    ensures Join(Split(p)[..1]) == Split(p)[0]
  {
    assert Split(p)[..1] == [Split(p)[0]];
  }

  /** Only the first part starts where the path does. */
  lemma {:induction false} StartsLater(p: string, k: nat, free: bool)
    requires k < |Split(p)| && (free || k > 0)
    ensures free || |Join(Split(p)[..k + 1])| > |Split(p)[k]|
  {
    if k > 0 {
      var parts := Split(p)[..k + 1];
      JoinLast(parts);
    }
  }

  lemma {:induction false} JoinLast(parts: seq<string>)
    requires |parts| > 1
    ensures |Join(parts)| > |parts[|parts| - 1]|
  {
    if |parts| > 2 {
      JoinLast(parts[1..]);
    } else {
      assert parts[1..] == [parts[1]];
    }
  }

  /** And every part is one of those. */
  lemma {:induction false} PartIsSplit(p: string, i: nat, j: nat) returns (k: nat)
    requires IsPart(p, i, j)
    ensures k < |Split(p)| && Split(p)[k] == p[i..j] && Join(Split(p)[..k + 1]) == p[..j]
  {
    hide Split, Join;
    if i == 0 {
      k := 0;
      FirstJoin(p);
      FirstPart(p, j);
    } else {
      var q := p[1..];
      var l := PartIsSplit(q, i - 1, j - 1);
      SliceShifts(p, i - 1, j - 1);
      k := l + if p[0] == '/' then 1 else 0;
      if p[0] != '/' && l == 0 { FirstJoin(q); }
      SplitShifts(p, l);
    }
  }

  /** The parts of a path and of what follows its first character. */
  lemma {:induction false} SplitShifts(p: string, l: nat)
    requires p != "" && l < |Split(p[1..])| && (p[0] != '/' ==> l > 0)
    ensures var k := l + if p[0] == '/' then 1 else 0;
      && k < |Split(p)| && Split(p)[k] == Split(p[1..])[l]
      && Join(Split(p)[..k + 1]) == [p[0]] + Join(Split(p[1..])[..l + 1])
  {
    SplitHead(p);
    var rest := Split(p[1..]);
    hide Split;
    if p[0] == '/' {
      assert Split(p)[..l + 2] == [""] + rest[..l + 1];
      JoinTwo("", rest[..l + 1]);
    } else {
      assert Split(p)[..l + 1] == [[p[0]] + rest[..l + 1][0]] + rest[..l + 1][1..];
      JoinHead(p[0], rest[..l + 1]);
    }
  }

  lemma {:induction false} FirstPart(p: string, j: nat)
    requires IsPart(p, 0, j)
    ensures Split(p)[0] == p[..j]
  {
    SplitHead(p);
    if p != "" && j > 0 {
      FirstPart(p[1..], j - 1);
      assert p[..j] == [p[0]] + p[1..][..j - 1];
    }
  }

  // ----------------------------------------------------------------- the predicates

  lemma {:induction false} UnderIff(p: string, x: string)
    ensures Under(p, x) <==> x == "." || x == p || Below(p, x)
  {
    if Below(p, x) {
      assert p[..|x| + 1] == x + "/";
    }
    if x + "/" <= p {
      assert p[..|x|] == (x + "/")[..|x|] == x;
      assert p[|x|] == (x + "/")[|x|];
    }
  }

  lemma {:induction false} SelectedIff(p: string, choice: Choice)
    ensures Selected(p, choice.includes, choice.excludes) <==>
            && (exists x | x in choice.includes :: x == "." || x == p || Below(p, x))
            && forall x | x in choice.excludes :: x != "." && x != p && !Below(p, x)
  {
    forall x ensures Under(p, x) <==> x == "." || x == p || Below(p, x) { UnderIff(p, x); }
    hide Under, Below;
  }

  lemma {:induction false} AskedIff(dir: string, includes: seq<string>)
    ensures AskedFor(dir, includes) <==> exists x | x in includes :: x == dir || dir + "/" <= x
  {
    forall x ensures Below(x, dir) <==> dir + "/" <= x && x != dir {
      if Below(x, dir) { assert x[..|dir| + 1] == dir + "/"; }
      if dir + "/" <= x {
        assert x[..|dir|] == (dir + "/")[..|dir|] == dir;
        assert x[|dir|] == (dir + "/")[|dir|];
      }
    }
    hide Below;
  }

  /** No part is empty, a dot or two, hidden, or skipped and not asked for. */
  ghost predicate PartsFine(p: string, includes: seq<string>) {
    && (forall i, j | IsPart(p, i, j) :: i < j && p[i] != '.')
    && forall i, j | IsPart(p, i, j) && p[i..j] in SKIP_DIRS :: AskedFor(p[..j], includes)
  }

  ghost predicate SplitFine(p: string, includes: seq<string>) {
    && (forall part | part in Split(p) :: part != "" && part != "." && part != "..")
    && !exists k | 0 <= k < |Split(p)| :: Unwanted(Split(p), k, includes)
  }

  ghost predicate FineAt(p: string, k: nat, includes: seq<string>)
    requires k < |Split(p)|
  {
    var part := Split(p)[k];
    part != "" && part[0] != '.' && (part in SKIP_DIRS ==> AskedFor(Join(Split(p)[..k + 1]), includes))
  }

  lemma {:induction false} FineAtIff(p: string, k: nat, includes: seq<string>)
    requires k < |Split(p)|
    ensures FineAt(p, k, includes) <==>
            Split(p)[k] != "" && Split(p)[k] != "." && Split(p)[k] != ".." && !Unwanted(Split(p), k, includes)
  {
    hide SKIP_DIRS, Split;
    AskedIff(Join(Split(p)[..k + 1]), includes);
  }

  lemma {:induction false} SplitFineIff(p: string, includes: seq<string>)
    ensures SplitFine(p, includes) <==> forall k | 0 <= k < |Split(p)| :: FineAt(p, k, includes)
  {
    var parts := Split(p);
    forall k | 0 <= k < |parts| ensures
      FineAt(p, k, includes) <==>
      parts[k] != "" && parts[k] != "." && parts[k] != ".." && !Unwanted(parts, k, includes)
    {
      FineAtIff(p, k, includes);
    }
    hide FineAt, Unwanted, Split;
    if SplitFine(p, includes) {
      forall k | 0 <= k < |parts| ensures FineAt(p, k, includes) {
        assert parts[k] in parts && !Unwanted(parts, k, includes);
      }
    }
  }

  lemma {:induction false} PartsFineIff(p: string, includes: seq<string>)
    ensures PartsFine(p, includes) <==> SplitFine(p, includes)
  {
    SplitFineIff(p, includes);
    hide SplitFine, PartsFine, FineAt, Split;
    if PartsFine(p, includes) {
      forall k | 0 <= k < |Split(p)| ensures FineAt(p, k, includes) { PartFine(p, k, includes); }
    } else if forall k | 0 <= k < |Split(p)| :: FineAt(p, k, includes) {
      AllFine(p, includes);
    }
  }

  lemma {:induction false} PartFine(p: string, k: nat, includes: seq<string>)
    requires PartsFine(p, includes) && k < |Split(p)|
    ensures FineAt(p, k, includes)
  {
    hide SKIP_DIRS, AskedFor, IsPart, Join, Split;
    PartSpans(p, k);
    var j, n := |Join(Split(p)[..k + 1])|, |Split(p)[k]|;
    assert IsPart(p, j - n, j);
  }

  lemma {:induction false} AllFine(p: string, includes: seq<string>)
    requires forall k | 0 <= k < |Split(p)| :: FineAt(p, k, includes)
    ensures PartsFine(p, includes)
  {
    hide SKIP_DIRS, AskedFor, Join, Split;
    forall i, j | IsPart(p, i, j)
      ensures i < j && p[i] != '.' && (p[i..j] in SKIP_DIRS ==> AskedFor(p[..j], includes))
    {
      var k := PartIsSplit(p, i, j);
      assert FineAt(p, k, includes);
    }
  }

  // -------------------------------------------------------------------- the extension

  lemma {:induction false} LastDotIs(name: string)
    ensures -1 <= LastDot(name) < |name| && (LastDot(name) >= 0 ==> name[LastDot(name)] == '.')
    ensures forall k | LastDot(name) < k < |name| :: name[k] != '.'
  {
    if name != "" && name[|name| - 1] != '.' { LastDotIs(name[..|name| - 1]); }
  }

  lemma {:induction false} JoinAll(p: string)
    ensures Join(Split(p)) == p
  {
    SplitHead(p);
    if p != "" {
      JoinAll(p[1..]);
      if p[0] == '/' { JoinTwo("", Split(p[1..])); } else { JoinHead(p[0], Split(p[1..])); }
      assert [p[0]] + p[1..] == p;
    }
  }

  /** The last part is what follows the last slash. */
  lemma {:induction false} NameIs(p: string)
    ensures var name := Split(p)[|Split(p)| - 1];
      |name| <= |p| && IsPart(p, |p| - |name|, |p|) && p[|p| - |name|..] == name
  {
    hide Split, Join, IsPart;
    var n := |Split(p)|;
    assert Split(p)[..n] == Split(p);
    JoinAll(p);
    PartSpans(p, n - 1);
    assert p[..|p|] == p;
  }

  lemma {:induction false} ExtensionIff(p: string)
    ensures LowerCase(Extension(p)) in SOURCE_EXTS <==> EndsAsSource(p)
  {
    var name := Split(p)[|Split(p)| - 1];
    NameIs(p);
    LastDotIs(name);
    NoEmptyExtension();
    hide Split, SOURCE_EXTS, LowerCase, IsPart, DotsLast, LastDot;
    if LastDot(name) > 0 {
      DotOfName(p, name);
    }
    if EndsAsSource(p) {
      var k :| 0 < k < |p| && DotsLast(p, k) && LowerCase(p[k..]) in SOURCE_EXTS;
      OneDotLast(p, name, k);
      assert p[k..] == name[LastDot(name)..];
    }
  }

  lemma {:induction false} DotOfName(p: string, name: string)
    requires |name| <= |p| && IsPart(p, |p| - |name|, |p|) && p[|p| - |name|..] == name && LastDot(name) > 0
    ensures var k := |p| - |name| + LastDot(name);
      0 < k < |p| && DotsLast(p, k) && p[k..] == name[LastDot(name)..]
  {
    LastDotIs(name);
    var i := |p| - |name|;
    assert forall k | i <= k < |p| :: p[k] == name[k - i];
    assert p[i + LastDot(name)..] == name[LastDot(name)..];
  }

  lemma {:induction false} OneDotLast(p: string, name: string, k: nat)
    requires |name| <= |p| && IsPart(p, |p| - |name|, |p|) && p[|p| - |name|..] == name
    requires 0 < k < |p| && DotsLast(p, k)
    ensures LastDot(name) > 0 && k == |p| - |name| + LastDot(name)
  {
    LastDotIs(name);
    var i := |p| - |name|;
    assert forall l | i <= l < |p| :: p[l] == name[l - i];
    assert k > i;
    assert name[k - i] == '.';
  }

  lemma {:induction false} NoEmptyExtension()
    ensures "" !in SOURCE_EXTS && LowerCase("") == ""
  {
  }

  // --------------------------------------------------------------------- both together

  lemma {:induction false} NoSlashFirst(p: string, includes: seq<string>)
    requires p != "" && PartsFine(p, includes)
    ensures p[0] != '/'
  {
    assert p[0] == '/' ==> IsPart(p, 0, 0);
  }

  /** A path is wanted exactly when its characters say so. */
  lemma {:induction false} WantedIff(p: string, choice: Choice)
    ensures Wanted(p, choice) <==> Meets(p, choice)
  {
    hide Selected, SOURCE_EXTS, SKIP_DIRS, IsPart, AskedFor, Below, EndsAsSource, Extension, Split, Unwanted;
    SelectedIff(p, choice);
    ExtensionIff(p);
    PartsFineIff(p, choice.includes);
    if p != "" && PartsFine(p, choice.includes) { NoSlashFirst(p, choice.includes); }
  }
}
