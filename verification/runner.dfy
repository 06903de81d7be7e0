/**
  The `tomltest` library (runner.go): which tests exist for a TOML version, which of
  them a run selects, and how one test's outcome is decided. The file system is a map
  from path to contents, glob matching is a parameter, and the parser under test is a
  function from its input to what it reported.
*/
module TomlTest {
  import opened Common
  import opened Text
  import opened Sorting

  datatype TestType = TypeValid | TypeEncoder | TypeInvalid

  const DefaultVersion: string := "1.0.0"

  /** An `fs.FS`: file path → contents; directories are implied by the paths. */
  type FS = map<string, string>

  /** `filepath.Match(pattern, name)`; a malformed pattern matches nothing. */
  type Matcher = (string, string) -> bool

  /**
    What one run of the parser reported: its output, whether the output came from
    stderr, an unrecoverable error, and whether the timeout expired.
  */
  datatype Reply = Reply(output: string, fromStderr: bool, err: Option<string>, timedOut: bool)

  type Parser = string -> Reply

  /**
    Compares the wanted file with the parser's output (TOML for encoder tests, JSON
    for decoder tests): "" when they agree, otherwise the failure message.
  */
  type Comparer = (bool, string, string) -> string

  /** One entry of the versions table: tests excluded, and the version it extends. */
  datatype VersionSpec = VersionSpec(exclude: seq<string>, inherit: string)

  type Versions = map<string, VersionSpec>

  datatype Runner = Runner(
    files: Option<FS>,
    decoder: Parser,
    encoder: Option<Parser>,
    runTests: seq<string>,
    skipTests: seq<string>,
    version: string,
    errors: map<string, string>,
    skipMustError: bool)

  datatype Test = Test(
    path: string,
    skipped: bool,
    failure: string,
    input: string,
    output: string,
    want: string,
    fromStderr: bool)

  function NewTest(path: string): Test {
    Test(path, false, "", "", "", "", false)
  }

  // ---------------------------------------------------------------- NewRunner

  function NormalizeVersion(v: string): (r: string)
    ensures v == "" || v == "1.0" ==> r == "1.0.0"
    ensures v == "1.1" ==> r == "1.1.0"
    ensures v == "latest" ==> r == DefaultVersion
    ensures v != "" && v != "1.0" && v != "1.1" && v != "latest" ==> r == v
  {
    if v == "" || v == "1.0" then "1.0.0"
    else if v == "1.1" then "1.1.0"
    else if v == "latest" then DefaultVersion
    else v
  }

  /** The name `TestCases` gives the second copy of a `valid…` path. */
  function Mirror(p: string): string
    requires StartsWith(p, "valid")
  {
    "encoder" + p[5..]
  }

  lemma MirrorBack(p: string)
    requires StartsWith(p, "valid")
    ensures StartsWith(Mirror(p), "encoder")
    ensures "valid" + Mirror(p)[7..] == p
  {
    assert Mirror(p)[7..] == p[5..];
    assert p == p[..5] + p[5..];
  }

  /**
    The embedded test files, with every `valid…` path present a second time as
    `encoder…`. The walk visits `encoder…` before `valid…`, so where both exist the
    copy of the `valid…` file wins.
  */
  function TestCases(src: FS): (r: FS)
    ensures forall p :: p in src ==> p in r
    ensures forall p :: p in src && StartsWith(p, "valid") ==> Mirror(p) in r && r[Mirror(p)] == src[p]
    ensures forall p :: p in src && !(StartsWith(p, "encoder") && "valid" + p[7..] in src) ==> r[p] == src[p]
    ensures forall p :: p in r && p !in src ==> StartsWith(p, "encoder") && "valid" + p[7..] in src
  {
    var mirrors := set q | q in src && StartsWith(q, "valid") :: Mirror(q);
    assert forall p :: p in mirrors ==> StartsWith(p, "encoder") && "valid" + p[7..] in src by {
      forall p | p in mirrors
        ensures StartsWith(p, "encoder") && "valid" + p[7..] in src
      {
        var q :| q in src && StartsWith(q, "valid") && p == Mirror(q);
        MirrorBack(q);
      }
    }
    assert forall q :: q in src && StartsWith(q, "valid") ==> "valid" + Mirror(q)[7..] == q by {
      forall q | q in src && StartsWith(q, "valid")
        ensures "valid" + Mirror(q)[7..] == q
      {
        MirrorBack(q);
      }
    }
    map p | p in src.Keys + mirrors ::
      if StartsWith(p, "encoder") && "valid" + p[7..] in src then src["valid" + p[7..]] else src[p]
  }

  /** `NewRunner`: the version spelled out, and the embedded tests when no files are given. */
  function NewRunner(r: Runner, embedded: FS): (n: Runner)
    ensures n.version == NormalizeVersion(r.version)
    ensures n.files == if r.files.None? then Some(TestCases(embedded)) else r.files
    ensures n == r.(version := n.version, files := n.files)
  {
    r.(version := NormalizeVersion(r.version),
       files := if r.files.None? then Some(TestCases(embedded)) else r.files)
  }

  lemma NewRunnerIdempotent(r: Runner, embedded: FS)
    ensures NewRunner(NewRunner(r, embedded), embedded) == NewRunner(r, embedded)
  {
    var v := r.version;
    assert NormalizeVersion(NormalizeVersion(v)) == NormalizeVersion(v);
  }

  // ---------------------------------------------------------------- test kinds

  /** `Test.Type`: the path prefix decides; `invalid` is checked first. */
  function Type(path: string): (t: TestType)
    ensures t == TypeInvalid <==> StartsWith(path, "invalid")
    ensures t == TypeEncoder <==> StartsWith(path, "encoder")
    ensures t == TypeValid <==> !StartsWith(path, "invalid") && !StartsWith(path, "encoder")
  {
    if StartsWith(path, "invalid") then TypeInvalid
    else if StartsWith(path, "encoder") then TypeEncoder
    else TypeValid
  }

  predicate Encoder(path: string) {
    Type(path) == TypeEncoder
  }

  predicate Invalid(path: string) {
    Type(path) == TypeInvalid
  }

  predicate Failed(t: Test) {
    t.failure != ""
  }

  const BugPrefix: string := "BUG IN TEST CASE: "

  function Fail(t: Test, msg: string): (r: Test)
    ensures r == t.(failure := msg)
    ensures Failed(r) <==> msg != ""
  {
    t.(failure := msg)
  }

  /** `Test.bug`: a failure blamed on the test case itself; it always fails. */
  function Bug(t: Test, msg: string): (r: Test)
    ensures r == t.(failure := r.failure)
    ensures StartsWith(r.failure, BugPrefix) && r.failure[|BugPrefix|..] == msg
    ensures Failed(r)
  {
    t.(failure := BugPrefix + msg)
  }

  // ---------------------------------------------------------------- files of a test

  /** The file sent to the parser: JSON for encoder tests, TOML otherwise. */
  function InputPath(path: string): string {
    path + (if Encoder(path) then ".json" else ".toml")
  }

  /** The file holding the expected result; invalid tests have none (the source panics). */
  function WantPath(path: string): string
    requires !Invalid(path)
  {
    path + (if Encoder(path) then ".toml" else ".json")
  }

  /** A valid or encoder test reads one of its two files and compares with the other. */
  lemma InputWantSwap(path: string)
    requires !Invalid(path)
    ensures Encoder(path) ==> InputPath(path) == path + ".json" && WantPath(path) == path + ".toml"
    ensures !Encoder(path) ==> InputPath(path) == path + ".toml" && WantPath(path) == path + ".json"
    ensures InputPath(path) != WantPath(path)
  {
    var i := InputPath(path);
    var w := WantPath(path);
    assert i[|path| + 1] != w[|path| + 1];
  }

  function NotExist(path: string): string {
    "open " + path + ": file does not exist"
  }

  function ReadFile(fs: FS, path: string): (r: Result<string>)
    ensures r.Ok? <==> path in fs
    ensures r.Ok? ==> r.value == fs[path]
    ensures r.Err? ==> r.msg != ""
  {
    if path in fs then Ok(fs[path]) else Err(NotExist(path))
  }

  // ---------------------------------------------------------------- one test

  const TimeoutMsg: string := "command timed out; increase -timeout if this isn't an infinite loop or pathological behaviour"
  const NoErrorMsg: string := "Expected an error, but no error was reported."
  const EmptyStdoutMsg: string := "stdout is empty"

  /** `Test.runInvalid`: the parser must report an error on stderr. */
  function RunInvalid(t: Test, fs: FS, p: Parser): Test {
    match ReadFile(fs, InputPath(t.path))
    case Err(m) => Bug(t, m)
    case Ok(input) =>
      var rep := p(input);
      var t := t.(input := input, output := rep.output, fromStderr := rep.fromStderr);
      if rep.timedOut then Fail(t, TimeoutMsg)
      else if rep.err.Some? then Fail(t, rep.err.value)
      else if !rep.fromStderr then Fail(t, NoErrorMsg)
      else t
  }

  /** `Test.runValid`: the parser must succeed and its output must match the wanted file. */
  function RunValid(t: Test, fs: FS, p: Parser, compare: Comparer): Test
    requires !Invalid(t.path)
  {
    match ReadFile(fs, InputPath(t.path))
    case Err(m) => Bug(t, m)
    case Ok(input) =>
      var rep := p(input);
      var t := t.(input := input, output := rep.output, fromStderr := rep.fromStderr);
      if rep.timedOut then Fail(t, TimeoutMsg)
      else if rep.err.Some? then Fail(t, rep.err.value)
      else if rep.fromStderr then Fail(t, rep.output)
      else if rep.output == "" then Fail(t, EmptyStdoutMsg)
      else
        match ReadFile(fs, WantPath(t.path))
        case Err(m) => if Encoder(t.path) then Bug(t, m) else Fail(t, m)
        case Ok(want) =>
          var t := t.(want := want);
          Fail(t, compare(Encoder(t.path), want, rep.output))
  }

  /** `Test.Run`. */
  function RunTest(t: Test, fs: FS, p: Parser, compare: Comparer): (r: Test)
    ensures r.path == t.path && r.skipped == t.skipped
  {
    if Invalid(t.path) then RunInvalid(t, fs, p) else RunValid(t, fs, p, compare)
  }

  /**
    An invalid test passes exactly when its input exists and the parser reported its
    error on stderr, without an unrecoverable error and within the timeout.
  */
  lemma InvalidOutcome(path: string, fs: FS, p: Parser, compare: Comparer)
    requires Invalid(path)
    requires InputPath(path) in fs ==> p(fs[InputPath(path)]).err != Some("")
    ensures !Failed(RunTest(NewTest(path), fs, p, compare))
        <==> InputPath(path) in fs
             && var rep := p(fs[InputPath(path)]);
                !rep.timedOut && rep.err.None? && rep.fromStderr
  {
  }

  /**
    A valid or encoder test passes exactly when the parser wrote non-empty output to
    stdout without error or timeout, the wanted file exists, and the comparison agrees.
  */
  lemma ValidOutcome(path: string, fs: FS, p: Parser, compare: Comparer)
    requires !Invalid(path)
    requires InputPath(path) in fs ==> p(fs[InputPath(path)]).err != Some("")
    requires InputPath(path) in fs ==> p(fs[InputPath(path)]).fromStderr ==> p(fs[InputPath(path)]).output != ""
    ensures !Failed(RunTest(NewTest(path), fs, p, compare))
        <==> InputPath(path) in fs
             && var rep := p(fs[InputPath(path)]);
                !rep.timedOut && rep.err.None? && !rep.fromStderr && rep.output != ""
                && WantPath(path) in fs
                && compare(Encoder(path), fs[WantPath(path)], rep.output) == ""
  {
  }

  // ---------------------------------------------------------------- List

  /** A missing entry of the versions table reads as the zero value. */
  function Lookup(versions: Versions, v: string): VersionSpec {
    if v in versions then versions[v] else VersionSpec([], "")
  }

  /** The `inherit` chain from `spec` ends within `n` steps. */
  predicate ChainEnds(versions: Versions, spec: VersionSpec, n: nat)
    decreases n
  {
    spec.inherit == "" || (n > 0 && ChainEnds(versions, Lookup(versions, spec.inherit), n - 1))
  }

  /** The `encoder…` copies of the `valid…` patterns, in order. */
  function Mirrors(ex: seq<string>): (r: seq<string>)
    ensures forall i :: 0 <= i < |ex| && StartsWith(ex[i], "valid") ==> Mirror(ex[i]) in r
    ensures forall i :: 0 <= i < |r| ==> StartsWith(r[i], "encoder")
  {
    if |ex| == 0 then []
    else
      var last := ex[|ex| - 1];
      var rest := Mirrors(ex[..|ex| - 1]);
      assert forall i :: 0 <= i < |ex| - 1 ==> ex[..|ex| - 1][i] == ex[i];
      if StartsWith(last, "valid") then
        assert StartsWith(Mirror(last), "encoder");
        rest + [Mirror(last)]
      else rest
  }

  /** One version's own exclusions: its patterns followed by their mirrors. */
  function Own(spec: VersionSpec): seq<string> {
    spec.exclude + Mirrors(spec.exclude)
  }

  /** The exclusions collected along the `inherit` chain. */
  function ExcludeChain(versions: Versions, spec: VersionSpec, n: nat): seq<string>
    requires ChainEnds(versions, spec, n)
    decreases n
  {
    if spec.inherit == "" then Own(spec)
    else Own(spec) + ExcludeChain(versions, Lookup(versions, spec.inherit), n - 1)
  }

  /** The `k`-th version along the chain (0 is `spec` itself). */
  function ChainAt(versions: Versions, spec: VersionSpec, k: nat): VersionSpec
    decreases k
  {
    if k == 0 then spec else ChainAt(versions, Lookup(versions, spec.inherit), k - 1)
  }

  /** How many versions the chain visits. */
  function ChainLength(versions: Versions, spec: VersionSpec, n: nat): (len: nat)
    requires ChainEnds(versions, spec, n)
    ensures 1 <= len <= n + 1
    decreases n
  {
    if spec.inherit == "" then 1 else 1 + ChainLength(versions, Lookup(versions, spec.inherit), n - 1)
  }

  /** The exclusions are the union of the own exclusions of every version on the chain. */
  lemma {:induction false} ExcludeChainUnion(versions: Versions, spec: VersionSpec, n: nat, x: string)
    requires ChainEnds(versions, spec, n)
    ensures x in ExcludeChain(versions, spec, n)
        <==> exists k :: 0 <= k < ChainLength(versions, spec, n) && x in Own(ChainAt(versions, spec, k))
    decreases n
  {
    var len := ChainLength(versions, spec, n);
    assert ChainAt(versions, spec, 0) == spec;
    if spec.inherit == "" {
      assert len == 1;
      if x in Own(spec) {
        assert 0 < len && x in Own(ChainAt(versions, spec, 0));
      }
    } else {
      var parent := Lookup(versions, spec.inherit);
      var plen := ChainLength(versions, parent, n - 1);
      assert ExcludeChain(versions, spec, n) == Own(spec) + ExcludeChain(versions, parent, n - 1);
      assert len == 1 + plen;
      ExcludeChainUnion(versions, parent, n - 1, x);
      if x in ExcludeChain(versions, spec, n) {
        if x in Own(spec) {
          assert 0 < len && x in Own(ChainAt(versions, spec, 0));
        } else {
          var k :| 0 <= k < plen && x in Own(ChainAt(versions, parent, k));
          assert ChainAt(versions, spec, k + 1) == ChainAt(versions, parent, k);
          assert 0 <= k + 1 < len && x in Own(ChainAt(versions, spec, k + 1));
        }
        assert exists k :: 0 <= k < len && x in Own(ChainAt(versions, spec, k));
      }
      forall k | 0 <= k < len && x in Own(ChainAt(versions, spec, k))
        ensures x in ExcludeChain(versions, spec, n)
      {
        if k > 0 {
          assert ChainAt(versions, spec, k) == ChainAt(versions, parent, k - 1);
          assert 0 <= k - 1 < plen && x in Own(ChainAt(versions, parent, k - 1));
          assert exists j :: 0 <= j < plen && x in Own(ChainAt(versions, parent, j));
        }
      }
    }
  }

  /** No path starts with both `valid` and `encoder`. */
  lemma ValidNotEncoder(x: string)
    ensures !(StartsWith(x, "valid") && StartsWith(x, "encoder"))
  {
    if StartsWith(x, "valid") {
      assert x[0] == 'v';
    }
  }

  /** Every `valid…` exclusion also excludes its `encoder…` copy. */
  lemma {:induction false} ExcludeChainMirrored(versions: Versions, spec: VersionSpec, n: nat, x: string)
    requires ChainEnds(versions, spec, n)
    requires x in ExcludeChain(versions, spec, n) && StartsWith(x, "valid")
    ensures Mirror(x) in ExcludeChain(versions, spec, n)
    decreases n
  {
    if x in Own(spec) {
      ValidNotEncoder(x);
      assert x !in Mirrors(spec.exclude);
      assert x in spec.exclude;
      assert Mirror(x) in Mirrors(spec.exclude);
    } else {
      ExcludeChainMirrored(versions, Lookup(versions, spec.inherit), n - 1, x);
    }
  }

  /** Some exclusion pattern matches `path`. */
  predicate Excluded(exclude: seq<string>, glob: Matcher, path: string) {
    exists i :: 0 <= i < |exclude| && glob(exclude[i], path)
  }

  function TrimToml(p: string): string
    requires EndsWith(p, ".toml")
  {
    p[..|p| - 5]
  }

  /** The paths of `ps` inside directory `dir`, in order. */
  function Within(ps: seq<string>, dir: string): (r: seq<string>)
    ensures forall x :: x in r <==> x in ps && StartsWith(x, dir + "/")
  {
    if |ps| == 0 then []
    else
      var rest := Within(ps[..|ps| - 1], dir);
      assert ps == ps[..|ps| - 1] + [ps[|ps| - 1]];
      rest + (if StartsWith(ps[|ps| - 1], dir + "/") then [ps[|ps| - 1]] else [])
  }

  /** The files `fs.WalkDir(fsys, dir)` visits, in its order. */
  function Walk(fs: FS, dir: string): seq<string> {
    Within(SortSet(WalkOrder, fs.Keys), dir)
  }

  /** The tests named by the walked files: `.toml` files, suffix removed, exclusions dropped. */
  function FindTomlSpec(walk: seq<string>, exclude: seq<string>, glob: Matcher): (r: seq<string>)
    ensures |r| <= |walk|
    ensures forall i :: 0 <= i < |r| ==> !Excluded(exclude, glob, r[i])
  {
    if |walk| == 0 then []
    else
      var p := walk[|walk| - 1];
      FindTomlSpec(walk[..|walk| - 1], exclude, glob)
        + (if EndsWith(p, ".toml") && !Excluded(exclude, glob, TrimToml(p)) then [TrimToml(p)] else [])
  }

  /** Every listed name is a walked `.toml` file minus its suffix ... */
  lemma {:induction false} FindTomlSound(walk: seq<string>, exclude: seq<string>, glob: Matcher, x: string)
    requires x in FindTomlSpec(walk, exclude, glob)
    ensures x + ".toml" in walk
    decreases |walk|
  {
    var p := walk[|walk| - 1];
    if x in FindTomlSpec(walk[..|walk| - 1], exclude, glob) {
      FindTomlSound(walk[..|walk| - 1], exclude, glob, x);
      assert x + ".toml" in walk[..|walk| - 1];
    } else {
      assert x == p[..|p| - 5];
      assert p == p[..|p| - 5] + ".toml";
    }
  }

  /** ... and every walked `.toml` file that no pattern excludes is listed. */
  lemma {:induction false} FindTomlComplete(walk: seq<string>, exclude: seq<string>, glob: Matcher, j: nat)
    requires j < |walk| && EndsWith(walk[j], ".toml")
    requires !Excluded(exclude, glob, TrimToml(walk[j]))
    ensures TrimToml(walk[j]) in FindTomlSpec(walk, exclude, glob)
    decreases |walk|
  {
    if j < |walk| - 1 {
      FindTomlComplete(walk[..|walk| - 1], exclude, glob, j);
    }
  }

  lemma WithinStep(ps: seq<string>, i: nat, dir: string)
    requires i < |ps|
    ensures Within(ps[..i + 1], dir)
         == Within(ps[..i], dir) + (if StartsWith(ps[i], dir + "/") then [ps[i]] else [])
  {
    assert ps[..i + 1][..i] == ps[..i];
  }

  lemma FindTomlStep(found: seq<string>, p: string, exclude: seq<string>, glob: Matcher)
    ensures FindTomlSpec(found + [p], exclude, glob)
         == FindTomlSpec(found, exclude, glob)
            + (if EndsWith(p, ".toml") && !Excluded(exclude, glob, TrimToml(p)) then [TrimToml(p)] else [])
  {
    assert (found + [p])[..|found|] == found;
  }

  /** `fs.Stat` finds `dir`: a file of that name, or files below it. */
  predicate DirExists(fs: FS, dir: string) {
    exists p :: p in fs && (p == dir || StartsWith(p, dir + "/"))
  }

  /** The callback `findTOML` passes to the walk, applied to every visited path in turn. */
  method FindTomlWalk(walk: seq<string>, dir: string, ls: seq<string>, exclude: seq<string>, glob: Matcher)
    returns (out: seq<string>)
    ensures out == ls + FindTomlSpec(Within(walk, dir), exclude, glob)
  {
    out := ls;
    var i := 0;
    while i < |walk|
      invariant 0 <= i <= |walk|
      invariant out == ls + FindTomlSpec(Within(walk[..i], dir), exclude, glob)
    {
      var p := walk[i];
      var found := Within(walk[..i], dir);
      WithinStep(walk, i, dir);
      if StartsWith(p, dir + "/") {
        assert Within(walk[..i + 1], dir) == found + [p];
        FindTomlStep(found, p, exclude, glob);
        if EndsWith(p, ".toml") {
          var name := TrimToml(p);
          if !Excluded(exclude, glob, name) {
            out := out + [name];
          }
        }
      } else {
        assert Within(walk[..i + 1], dir) == found;
      }
      assert out == ls + FindTomlSpec(Within(walk[..i + 1], dir), exclude, glob);
      i := i + 1;
    }
    assert walk[..i] == walk;
  }

  /** The tests `findTOML` finds below `dir`; a missing directory holds none. */
  function FoundIn(fs: FS, dir: string, exclude: seq<string>, glob: Matcher): seq<string> {
    if DirExists(fs, dir) then FindTomlSpec(Walk(fs, dir), exclude, glob) else []
  }

  /** `findTOML`: appends the tests found below `dir`. */
  method FindToml(fs: FS, dir: string, ls: seq<string>, exclude: seq<string>, glob: Matcher)
    returns (out: seq<string>)
    ensures out == ls + FoundIn(fs, dir, exclude, glob)
  {
    if !DirExists(fs, dir) {
      return ls;
    }
    out := FindTomlWalk(SortSet(WalkOrder, fs.Keys), dir, ls, exclude, glob);
  }

  function UnknownVersion(version: string, supported: seq<string>): string {
    "tomltest.Runner.Run: unknown version: \"" + version + "\" (supported: \"" + Join(supported, "\", \"") + "\")"
  }

  /** What `List` returns: valid tests, then encoder tests, then invalid tests. */
  function ListSpec(fs: FS, version: string, versions: Versions, glob: Matcher): Result<seq<string>>
    requires version in versions ==> ChainEnds(versions, versions[version], |versions|)
  {
    if version !in versions then Err(UnknownVersion(version, SortSet(Bytes, versions.Keys)))
    else
      var exclude := ExcludeChain(versions, versions[version], |versions|);
      Ok(FoundIn(fs, "valid", exclude, glob)
         + FoundIn(fs, "encoder", exclude, glob)
         + FoundIn(fs, "invalid", exclude, glob))
  }

  /** The inner loop of `List`: a version's patterns, then their `encoder` mirrors. */
  method OwnExclude(v: VersionSpec) returns (ex: seq<string>)
    ensures ex == Own(v)
  {
    ex := v.exclude;
    var i := 0;
    while i < |v.exclude|
      invariant 0 <= i <= |v.exclude|
      invariant ex == v.exclude + Mirrors(v.exclude[..i])
    {
      assert v.exclude[..i + 1][..i] == v.exclude[..i];
      if StartsWith(v.exclude[i], "valid") {
        ex := ex + ["encoder" + v.exclude[i][5..]];
      }
      i := i + 1;
    }
    assert v.exclude[..i] == v.exclude;
  }

  /** `Runner.List`. */
  method List(r: Runner, versions: Versions, glob: Matcher) returns (res: Result<seq<string>>)
    requires r.files.Some?
    requires r.version in versions ==> ChainEnds(versions, versions[r.version], |versions|)
    ensures res == ListSpec(r.files.value, r.version, versions, glob)
  {
    if r.version !in versions {
      // Go collects the keys in map order and sorts them; the sorted list is unique.
      return Err(UnknownVersion(r.version, SortSet(Bytes, versions.Keys)));
    }
    var v := versions[r.version];
    var n: nat := |versions|;
    var exclude: seq<string> := [];
    while true
      invariant ChainEnds(versions, v, n)
      invariant exclude + ExcludeChain(versions, v, n)
             == ExcludeChain(versions, versions[r.version], |versions|)
      decreases n
    {
      var ex := OwnExclude(v);
      if v.inherit == "" {
        exclude := exclude + ex;
        assert exclude == ExcludeChain(versions, versions[r.version], |versions|);
        break;
      }
      assert exclude + ExcludeChain(versions, v, n)
          == (exclude + ex) + ExcludeChain(versions, Lookup(versions, v.inherit), n - 1);
      exclude := exclude + ex;
      v := Lookup(versions, v.inherit);
      n := n - 1;
    }
    var fs := r.files.value;
    assert exclude == ExcludeChain(versions, versions[r.version], |versions|);
    var ls := FindToml(fs, "valid", [], exclude, glob);
    assert ls == FoundIn(fs, "valid", exclude, glob);
    ls := FindToml(fs, "encoder", ls, exclude, glob);
    ls := FindToml(fs, "invalid", ls, exclude, glob);
    return Ok(ls);
  }

  /** The test group a listed path belongs to, in the order results are reported. */
  function Rank(p: string): nat {
    if StartsWith(p, "valid/") then 0
    else if StartsWith(p, "encoder/") then 1
    else 2
  }

  predicate Grouped(p: string) {
    StartsWith(p, "valid/") || StartsWith(p, "encoder/") || StartsWith(p, "invalid/")
  }

  /** Removing `.toml` keeps the directory prefix (no directory name here contains a dot). */
  lemma TrimKeepsDir(p: string, dir: string)
    requires '.' !in dir
    requires StartsWith(p, dir + "/") && EndsWith(p, ".toml")
    ensures StartsWith(TrimToml(p), dir + "/")
  {
    assert forall j :: 0 <= j < |dir| + 1 ==> p[j] == (dir + "/")[j];
    assert forall j :: 0 <= j < |dir| + 1 ==> (dir + "/")[j] != '.';
    assert p[|p| - 5] == '.';
  }

  /** Everything found below `dir` keeps the `dir/` prefix. */
  lemma FoundInDir(fs: FS, dir: string, prefix: string, exclude: seq<string>, glob: Matcher)
    requires '.' !in dir && prefix == dir + "/"
    ensures forall x :: x in FoundIn(fs, dir, exclude, glob) ==> StartsWith(x, prefix)
  {
    forall x | x in FoundIn(fs, dir, exclude, glob)
      ensures StartsWith(x, dir + "/")
    {
      FindTomlSound(Walk(fs, dir), exclude, glob, x);
      var p := x + ".toml";
      assert TrimToml(p) == x;
      TrimKeepsDir(p, dir);
    }
  }

  lemma RankOf(x: string)
    ensures StartsWith(x, "valid/") ==> Rank(x) == 0
    ensures StartsWith(x, "encoder/") ==> Rank(x) == 1
    ensures StartsWith(x, "invalid/") ==> Rank(x) == 2
  {
    if |x| > 0 {
      assert StartsWith(x, "valid/") ==> x[0] == 'v';
      assert StartsWith(x, "encoder/") ==> x[0] == 'e';
      assert StartsWith(x, "invalid/") ==> x[0] == 'i';
    }
  }

  /** Three groups laid end to end are ordered by rank. */
  lemma ConcatRanked(a: seq<string>, b: seq<string>, c: seq<string>, ls: seq<string>)
    requires forall x :: x in a ==> StartsWith(x, "valid/")
    requires forall x :: x in b ==> StartsWith(x, "encoder/")
    requires forall x :: x in c ==> StartsWith(x, "invalid/")
    requires ls == a + b + c
    ensures forall i :: 0 <= i < |ls| ==> Grouped(ls[i])
    ensures forall i, j :: 0 <= i < j < |ls| ==> Rank(ls[i]) <= Rank(ls[j])
  {
    forall i | 0 <= i < |ls|
      ensures Grouped(ls[i])
      ensures i < |a| ==> Rank(ls[i]) == 0
      ensures |a| <= i < |a| + |b| ==> Rank(ls[i]) == 1
      ensures |a| + |b| <= i ==> Rank(ls[i]) == 2
    {
      RankOf(ls[i]);
      if i < |a| {
        assert ls[i] in a;
      } else if i < |a| + |b| {
        assert ls[i] == b[i - |a|];
      } else {
        assert ls[i] == c[i - |a| - |b|];
      }
    }
  }

  /** The three directories' tests, laid end to end, are grouped in report order. */
  lemma FoundOrdered(fs: FS, exclude: seq<string>, glob: Matcher, ls: seq<string>)
    requires ls == FoundIn(fs, "valid", exclude, glob) + FoundIn(fs, "encoder", exclude, glob)
                   + FoundIn(fs, "invalid", exclude, glob)
    ensures forall i :: 0 <= i < |ls| ==> Grouped(ls[i])
    ensures forall i, j :: 0 <= i < j < |ls| ==> Rank(ls[i]) <= Rank(ls[j])
  {
    var a := FoundIn(fs, "valid", exclude, glob);
    var b := FoundIn(fs, "encoder", exclude, glob);
    var c := FoundIn(fs, "invalid", exclude, glob);
    FoundInDir(fs, "valid", "valid/", exclude, glob);
    FoundInDir(fs, "encoder", "encoder/", exclude, glob);
    FoundInDir(fs, "invalid", "invalid/", exclude, glob);
    ConcatRanked(a, b, c, ls);
  }

  /** Every listed test lies in one of the three directories, grouped in report order. */
  lemma ListOrdered(fs: FS, version: string, versions: Versions, glob: Matcher)
    requires version in versions ==> ChainEnds(versions, versions[version], |versions|)
    requires ListSpec(fs, version, versions, glob).Ok?
    ensures var ls := ListSpec(fs, version, versions, glob).value;
      (forall i :: 0 <= i < |ls| ==> Grouped(ls[i]))
      && forall i, j :: 0 <= i < j < |ls| ==> Rank(ls[i]) <= Rank(ls[j])
  {
    FoundOrdered(fs, ExcludeChain(versions, versions[version], |versions|), glob,
                 ListSpec(fs, version, versions, glob).value);
  }

  // ---------------------------------------------------------------- findTests

  /** Some pattern of `patterns` matches `name`. */
  predicate AnyMatch(patterns: seq<string>, glob: Matcher, name: string) {
    exists i :: 0 <= i < |patterns| && glob(patterns[i], name)
  }

  /** The listed tests some pattern selects, in list order. */
  function Selected(ls: seq<string>, patterns: seq<string>, glob: Matcher): (r: seq<string>)
    ensures |r| <= |ls|
    ensures forall x :: x in r <==> x in ls && AnyMatch(patterns, glob, x)
  {
    if |ls| == 0 then []
    else
      var last := ls[|ls| - 1];
      assert ls == ls[..|ls| - 1] + [last];
      Selected(ls[..|ls| - 1], patterns, glob) + (if AnyMatch(patterns, glob, last) then [last] else [])
  }

  /**
    Drops the `.multi` entries; each must have its `.toml` file, and the first one
    without it is the error.
  */
  function ExpandMulti(run: seq<string>, fs: FS): (r: Result<seq<string>>)
    ensures r.Ok? ==> forall x :: x in r.value <==> x in run && !EndsWith(x, ".multi")
    ensures r.Ok? <==> forall x :: x in run && EndsWith(x, ".multi") ==> x + ".toml" in fs
  {
    if |run| == 0 then Ok([])
    else
      var last := run[|run| - 1];
      assert run == run[..|run| - 1] + [last];
      match ExpandMulti(run[..|run| - 1], fs)
      case Err(m) => Err(m)
      case Ok(e) =>
        if !EndsWith(last, ".multi") then Ok(e + [last])
        else if last + ".toml" in fs then Ok(e)
        else Err(NotExist(last + ".toml"))
  }

  /** What `findTests` makes of the listed tests: the skip count and the tests to run. */
  function SelectSpec(ls: seq<string>, runTests: seq<string>, fs: FS, glob: Matcher): Result<(nat, seq<string>)> {
    var run := if |runTests| == 0 then ls else Selected(ls, runTests, glob);
    match ExpandMulti(run, fs)
    case Err(m) => Err(m)
    case Ok(e) => Ok((|ls| - |run|, e))
  }

  /** What `findTests` leaves: the skip count and the tests to run. */
  function FindTestsSpec(r: Runner, versions: Versions, glob: Matcher): Result<(nat, seq<string>)>
    requires r.files.Some?
    requires r.version in versions ==> ChainEnds(versions, versions[r.version], |versions|)
  {
    match ListSpec(r.files.value, r.version, versions, glob)
    case Err(m) => Err(m)
    case Ok(ls) => SelectSpec(ls, r.runTests, r.files.value, glob)
  }

  /** The selection loop of `findTests`. */
  method SelectTests(ls: seq<string>, patterns: seq<string>, glob: Matcher) returns (run: seq<string>)
    ensures run == Selected(ls, patterns, glob)
  {
    run := [];
    var i := 0;
    while i < |ls|
      invariant 0 <= i <= |ls|
      invariant run == Selected(ls[..i], patterns, glob)
    {
      assert ls[..i + 1][..i] == ls[..i];
      if AnyMatch(patterns, glob, ls[i]) {
        run := run + [ls[i]];
      }
      i := i + 1;
    }
    assert ls[..i] == ls;
  }

  /** The `.multi` expansion loop of `findTests`. */
  method ExpandTests(runTests: seq<string>, fs: FS) returns (res: Result<seq<string>>)
    ensures res == ExpandMulti(runTests, fs)
  {
    var expanded: seq<string> := [];
    var i := 0;
    while i < |runTests|
      invariant 0 <= i <= |runTests|
      invariant ExpandMulti(runTests[..i], fs) == Ok(expanded)
    {
      var path := runTests[i];
      assert runTests[..i + 1][..i] == runTests[..i];
      if !EndsWith(path, ".multi") {
        expanded := expanded + [path];
      } else if path + ".toml" !in fs {
        ExpandMultiErrSticks(runTests, i + 1, fs);
        return Err(NotExist(path + ".toml"));
      }
      i := i + 1;
    }
    assert runTests[..i] == runTests;
    return Ok(expanded);
  }

  /** `Runner.findTests`. */
  method FindTests(r: Runner, versions: Versions, glob: Matcher) returns (res: Result<(nat, seq<string>)>)
    requires r.files.Some?
    requires r.version in versions ==> ChainEnds(versions, versions[r.version], |versions|)
    ensures res == FindTestsSpec(r, versions, glob)
  {
    var listed := List(r, versions, glob);
    if listed.Err? {
      return Err(listed.msg);
    }
    var ls := listed.value;
    var skip := 0;
    var runTests := r.runTests;
    if |r.runTests| == 0 {
      runTests := ls;
    } else {
      var run := SelectTests(ls, r.runTests, glob);
      runTests, skip := run, |ls| - |run|;
    }
    var expanded := ExpandTests(runTests, r.files.value);
    if expanded.Err? {
      res := Err(expanded.msg);
    } else {
      res := Ok((skip, expanded.value));
    }
    assert res == SelectSpec(ls, r.runTests, r.files.value, glob);
  }

  lemma {:induction false} ExpandMultiErrSticks(run: seq<string>, k: nat, fs: FS)
    requires k <= |run|
    requires ExpandMulti(run[..k], fs).Err?
    ensures ExpandMulti(run, fs) == ExpandMulti(run[..k], fs)
    decreases |run| - k
  {
    if k < |run| {
      assert run[..k + 1][..k] == run[..k];
      ExpandMultiErrSticks(run, k + 1, fs);
    } else {
      assert run[..k] == run;
    }
  }

  /** A listed test's `.toml` file is in the file system. */
  lemma ListedHasFile(fs: FS, dir: string, exclude: seq<string>, glob: Matcher, x: string)
    requires x in FoundIn(fs, dir, exclude, glob)
    ensures x + ".toml" in fs
  {
    FindTomlSound(Walk(fs, dir), exclude, glob, x);
  }

  /**
    After a successful listing, `findTests` cannot fail: a listed `.multi` test exists
    because its `.toml` file was walked.
  */
  lemma FindTestsAfterList(r: Runner, versions: Versions, glob: Matcher)
    requires r.files.Some?
    requires r.version in versions ==> ChainEnds(versions, versions[r.version], |versions|)
    requires ListSpec(r.files.value, r.version, versions, glob).Ok?
    ensures FindTestsSpec(r, versions, glob).Ok?
  {
    var fs := r.files.value;
    var exclude := ExcludeChain(versions, versions[r.version], |versions|);
    var a := FoundIn(fs, "valid", exclude, glob);
    var b := FoundIn(fs, "encoder", exclude, glob);
    var c := FoundIn(fs, "invalid", exclude, glob);
    var ls := a + b + c;
    assert ListSpec(fs, r.version, versions, glob).value == ls;
    forall x | x in ls
      ensures x + ".toml" in fs
    {
      if x in a {
        ListedHasFile(fs, "valid", exclude, glob, x);
      } else if x in b {
        ListedHasFile(fs, "encoder", exclude, glob, x);
      } else {
        ListedHasFile(fs, "invalid", exclude, glob, x);
      }
    }
    var run := if |r.runTests| == 0 then ls else Selected(ls, r.runTests, glob);
    assert forall x :: x in run ==> x in ls;
    assert ExpandMulti(run, fs).Ok?;
  }

  /** The tests to run never end in `.multi`, and the skip count covers the rest of the list. */
  lemma FindTestsCounts(r: Runner, versions: Versions, glob: Matcher)
    requires r.files.Some?
    requires r.version in versions ==> ChainEnds(versions, versions[r.version], |versions|)
    requires FindTestsSpec(r, versions, glob).Ok?
    ensures var (skip, run) := FindTestsSpec(r, versions, glob).value;
      var ls := ListSpec(r.files.value, r.version, versions, glob).value;
      (forall x :: x in run ==> !EndsWith(x, ".multi") && x in ls)
      && (|r.runTests| == 0 ==> skip == 0)
      && (|r.runTests| > 0 ==>
            skip == |ls| - |Selected(ls, r.runTests, glob)|
            && forall x :: x in run ==> AnyMatch(r.runTests, glob, x))
  {
  }
}
