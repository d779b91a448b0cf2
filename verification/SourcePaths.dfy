/** Which paths a source archive may hold: the predicates of `sdk/cli/src/srcbundle.ts`. */
module SourcePaths {
  const SOURCE_MANIFEST := "sentori-" + "source-" + "manifest" + ".json"

  const SOURCE_EXTS: set<string> := {
    ".swift", ".kt", ".kts", ".java", ".m", ".mm", ".h", ".c", ".cc", ".cpp", ".hpp", ".js", ".jsx", ".ts", ".tsx",
    ".vue", ".svelte", ".rs", ".go", ".py", ".rb", ".php", ".cs", ".dart"}

  const SKIP_DIRS: set<string> := {
    "node_modules", "build", "Pods", "DerivedData", "dist", "target", "vendor", "__pycache__"}

  function Split(path: string): (parts: seq<string>)
    ensures |parts| > 0
  {
    if path == "" then [""]
    else
      var rest := Split(path[1..]);
      if path[0] == '/' then [""] + rest else [[path[0]] + rest[0]] + rest[1..]
  }

  function Join(parts: seq<string>): string {
    if parts == [] then "" else if |parts| == 1 then parts[0] else parts[0] + "/" + Join(parts[1..])
  }

  predicate SafeSourcePath(path: string) {
    && 0 < |path| <= 1024
    && (forall c | c in path :: c != '\\' && c != ':' && c as int >= 0x20)
    && path[0] != '/'
    && forall part | part in Split(path) :: part != "" && part != "." && part != ".."
  }

  predicate Under(path: string, parent: string) {
    parent == "." || path == parent || parent + "/" <= path
  }

  predicate Selected(path: string, includes: seq<string>, excludes: seq<string>) {
    (exists p | p in includes :: Under(path, p)) && !exists p | p in excludes :: Under(path, p)
  }

  function LastDot(name: string): int {
    if name == "" then -1 else if name[|name| - 1] == '.' then |name| - 1 else LastDot(name[..|name| - 1])
  }

  /** `extname`: from the last dot of the last part, unless that dot comes first. */
  function Extension(path: string): string {
    var parts := Split(path);
    var name := parts[|parts| - 1];
    if 0 < LastDot(name) < |name| then name[LastDot(name)..] else ""
  }

  function Lower(c: char): char {
    if 'A' <= c <= 'Z' then (c as int + 32) as char else c
  }

  function LowerCase(s: string): string {
    seq(|s|, i requires 0 <= i < |s| => Lower(s[i]))
  }

  /** A hidden part, or a directory of products nobody asked for by name. */
  predicate Unwanted(parts: seq<string>, index: nat, includes: seq<string>)
    requires index < |parts|
  {
    || "." <= parts[index]
    || (parts[index] in SKIP_DIRS
        && !exists i | i in includes :: i == Join(parts[..index + 1]) || Join(parts[..index + 1]) + "/" <= i)
  }

  predicate SourcePath(path: string, includes: seq<string>) {
    && SafeSourcePath(path) && LowerCase(Extension(path)) in SOURCE_EXTS
    && !exists k | 0 <= k < |Split(path)| :: Unwanted(Split(path), k, includes)
  }

  /** The paths asked for, and those excluded from them. */
  datatype Choice = Choice(includes: seq<string>, excludes: seq<string>)

  predicate Wanted(path: string, choice: Choice) {
    Selected(path, choice.includes, choice.excludes) && SourcePath(path, choice.includes)
  }

  // -------------------------------------------------------- never the manifest

  lemma {:induction false} LastPartEnds(path: string)
    ensures var parts := Split(path); var name := parts[|parts| - 1];
      && |name| <= |path| && path[|path| - |name|..] == name
      && (|parts| == 1 ==> name == path)
  {
    SplitHead(path);
    hide Split;
    if path != "" {
      LastPartEnds(path[1..]);
      var rest := Split(path[1..]);
      var name := rest[|rest| - 1];
      if path[0] == '/' || |rest| > 1 {
        assert path[|path| - |name|..] == path[1..][|path| - 1 - |name|..];
      } else {
        assert [path[0]] + path[1..] == path;
      }
    }
  }

  lemma {:induction false} SplitHead(path: string)
    ensures path == "" ==> Split(path) == [""]
    ensures path != "" ==>
      Split(path) == (var rest := Split(path[1..]); if path[0] == '/' then [""] + rest
          else [[path[0]] + rest[0]] + rest[1..])
  {
  }

  /** The extension of a path with one ends the path. */
  lemma {:induction false} ExtensionEnds(path: string)
    requires Extension(path) != ""
    ensures path != "" && LowerCase(Extension(path))[|Extension(path)| - 1] == Lower(path[|path| - 1])
  {
    LastPartEnds(path);
    hide Split;
    var parts := Split(path);
    var name := parts[|parts| - 1];
    assert path[|path| - 1] == name[|name| - 1];
  }

  lemma {:induction false} NoSourceEndsInN(ext: string)
    requires ext in SOURCE_EXTS
    ensures ext != "" && ext[|ext| - 1] != 'n'
  {
  }

  lemma {:induction false} ManifestEndsInN()
    ensures SOURCE_MANIFEST != "" && SOURCE_MANIFEST[|SOURCE_MANIFEST| - 1] == 'n'
  {
  }

  lemma {:induction false} EndsOtherwise(path: string)
    requires LowerCase(Extension(path)) in SOURCE_EXTS
    ensures path != "" && path[|path| - 1] != 'n'
  {
    hide SOURCE_EXTS;
    NoSourceEndsInN(LowerCase(Extension(path)));
    ExtensionEnds(path);
  }

  /** No source file can take the manifest's name. */
  lemma {:induction false} SourcesAreNotTheManifest(path: string, includes: seq<string>)
    requires SourcePath(path, includes)
    ensures path != SOURCE_MANIFEST
  {
    EndsOtherwise(path);
    ManifestEndsInN();
  }
}
