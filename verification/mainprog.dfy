/**
  The driver of the stand-alone `toml-test` program (main.go): flag handling for the
  skip list and the encoder switch, choosing and naming the tests to run, and the
  final tally and exit status.
*/
module MainProg {
  import opened Common
  import opened Text
  import opened Results
  import ParserRun
  import GoPath
  import TomlCmp

  /** What a test run needs from outside: the test files, the parser command and the
      decoders used to read the expected documents and the parser's output. */
  datatype Env = Env(files: ParserRun.Files, cmd: ParserRun.Command,
                     decodeJson: ParserRun.JsonDecoder, decodeToml: ParserRun.TomlDecoder,
                     eqv: TomlCmp.Eqv)

  // ---------------------------------------------------------------- names

  /** `stripSuffix`: cuts `fname` at the last `.toml` if there is one, else at the last
      `.json`, else leaves it alone. */
  function StripSuffix(fname: string): (r: string)
    ensures |r| <= |fname| && r == fname[..|r|]
    ensures (exists i :: OccursAt(fname, ".toml", i)) ==>
              OccursAt(fname, ".toml", |r|) && forall j :: j > |r| ==> !OccursAt(fname, ".toml", j)
    ensures (forall i :: !OccursAt(fname, ".toml", i)) && (exists i :: OccursAt(fname, ".json", i)) ==>
              OccursAt(fname, ".json", |r|) && forall j :: j > |r| ==> !OccursAt(fname, ".json", j)
    ensures (forall i :: !OccursAt(fname, ".toml", i) && !OccursAt(fname, ".json", i)) ==> r == fname
  {
    var t := LastIndex(fname, ".toml");
    if t > -1 then fname[..t]
    else
      var j := LastIndex(fname, ".json");
      if j > -1 then fname[..j] else fname
  }

  /** A file name without dots loses exactly the extension it was given. */
  lemma StripExtension(n: string, ext: string)
    requires '.' !in n
    requires ext == ".toml" || ext == ".json"
    ensures StripSuffix(n + ext) == n
  {
    var f := n + ext;
    assert OccursAt(f, ext, |n|);
    forall i | 0 <= i < |n|
      ensures !OccursAt(f, ".toml", i) && !OccursAt(f, ".json", i)
    {
      assert f[i] == n[i] && n[i] != '.';
    }
    forall i | i > |n|
      ensures !OccursAt(f, ".toml", i) && !OccursAt(f, ".json", i)
    {
    }
    if ext == ".json" {
      assert !OccursAt(f, ".toml", |n|) by {
        assert f[|n| + 1] == 'j';
      }
    }
  }

  /** `hasSkip`: a result marked skipped when `test` is one of `skip`, compared exactly. */
  function HasSkip(test: string, skip: seq<string>): (res: (TestResult, bool))
    ensures res.1 <==> test in skip
    ensures res.1 ==> res.0 == NewResult(test, false).(skipped := true)
    ensures !res.1 ==> res.0 == NewResult("", false)
  {
    if |skip| == 0 then (NewResult("", false), false)
    else if skip[0] == test then (NewResult(test, false).(skipped := true), true)
    else HasSkip(test, skip[1..])
  }

  /** `indent`: `n` spaces in front of every line of `s`, trailing newlines dropped. */
  function Indent(s: string, n: nat): (r: string)
    ensures StartsWith(r, Repeat(' ', n))
  {
    PadLines(s, Repeat(' ', n))
  }

  /** The lines of `Indent(s, n)` are the lines of `s`, each behind `n` spaces. */
  lemma IndentLines(s: string, n: nat)
    ensures Split(Indent(s, n), '\n') == PrefixAll(Split(TrimRightBy(s, IsNewline), '\n'), Repeat(' ', n))
  {
    PadLinesSplit(s, Repeat(' ', n));
  }

  // ---------------------------------------------------------------- flags

  /** Neither starting nor ending with a space. */
  predicate Bare(s: string) {
    s == [] || (!IsGoSpace(s[0]) && !IsGoSpace(s[|s| - 1]))
  }

  /** The `-skip` value: blank means none, otherwise the comma-separated pieces, trimmed. */
  function ParseSkip(flagSkip: string): (r: seq<string>)
    ensures TrimSpace(flagSkip) == "" <==> r == []
  {
    var fs := TrimSpace(flagSkip);
    if fs == "" then []
    else TrimAll(Split(fs, ','))
  }

  /** Each piece trimmed: none is left with a space at either end. */
  function TrimAll(parts: seq<string>): (r: seq<string>)
    ensures |r| == |parts|
    decreases |parts|
  {
    if |parts| == 0 then []
    else [TrimSpace(parts[0])] + TrimAll(parts[1..])
  }

  /** `TrimAll` trims each piece in its place. */
  lemma {:induction false} TrimAllAt(parts: seq<string>)
    ensures forall i :: 0 <= i < |parts| ==> TrimAll(parts)[i] == TrimSpace(parts[i])
    decreases |parts|
  {
    if |parts| > 0 {
      TrimAllAt(parts[1..]);
      assert forall i :: 0 < i < |parts| ==> TrimAll(parts)[i] == TrimAll(parts[1..])[i - 1];
    }
  }

  /** The trimming loop of `parseFlags`: each piece trimmed in place. */
  method TrimPieces(parts: seq<string>) returns (out: seq<string>)
    ensures out == TrimAll(parts)
  {
    ghost var t := TrimAll(parts);
    TrimAllAt(parts);
    out := parts;
    var i := 0;
    while i < |out|
      invariant 0 <= i <= |out| == |parts| == |t|
      invariant out[..i] == t[..i]
      invariant out[i..] == parts[i..]
    {
      assert out[i] == parts[i];
      out := out[i := TrimSpace(out[i])];
      i := i + 1;
    }
    assert out == out[..i] && t == t[..i];
  }

  /** No name parsed from `-skip` has a space at either end. */
  lemma ParseSkipBare(flagSkip: string)
    ensures forall i :: 0 <= i < |ParseSkip(flagSkip)| ==> Bare(ParseSkip(flagSkip)[i])
  {
    var fs := TrimSpace(flagSkip);
    if fs != "" {
      var parts := Split(fs, ',');
      var r := ParseSkip(flagSkip);
      assert r == TrimAll(parts);
      TrimAllAt(parts);
      forall i | 0 <= i < |r|
        ensures Bare(r[i])
      {
        var t := TrimSpace(parts[i]);
        assert r[i] == t;
      }
    }
  }

  /** No name parsed from `-skip` holds a comma. */
  lemma ParseSkipNoComma(flagSkip: string)
    ensures forall i :: 0 <= i < |ParseSkip(flagSkip)| ==> ',' !in ParseSkip(flagSkip)[i]
  {
    var fs := TrimSpace(flagSkip);
    if fs != "" {
      var parts := Split(fs, ',');
      var r := ParseSkip(flagSkip);
      assert r == TrimAll(parts);
      TrimAllAt(parts);
      SplitNoSep(fs, ',');
      forall i | 0 <= i < |r|
        ensures ',' !in r[i]
      {
        TrimSpaceKeeps(parts[i], ',');
        assert r[i] == TrimSpace(parts[i]);
      }
    }
  }

  /** A list of non-empty names without commas or surrounding spaces, passed as
      `-skip a,b,...`, is read back unchanged. */
  lemma ParseSkipJoin(names: seq<string>)
    requires |names| >= 1
    requires forall i :: 0 <= i < |names| ==>
               names[i] != [] && ',' !in names[i] && !IsGoSpace(names[i][0]) && !IsGoSpace(names[i][|names[i]| - 1])
    ensures ParseSkip(Join(names, ",")) == names
  {
    var s := Join(names, ",");
    assert s != "" && TrimSpace(s) == s by {
      JoinEnds(names, ",");
      TrimSpaceFixed(s);
    }
    assert Split(s, ',') == names by {
      assert "," == [','];
      SplitJoin(names, ',');
    }
    ParseSkipOf(s, names);
  }

  lemma ParseSkipOf(fs: string, parts: seq<string>)
    requires fs != "" && TrimSpace(fs) == fs && Split(fs, ',') == parts
    requires forall i :: 0 <= i < |parts| ==> Bare(parts[i])
    ensures ParseSkip(fs) == parts
  {
    assert ParseSkip(fs) == TrimAll(parts);
    TrimAllFixed(parts);
  }

  lemma BareTail(parts: seq<string>)
    requires |parts| > 0
    requires forall i :: 0 <= i < |parts| ==> Bare(parts[i])
    ensures forall i :: 0 <= i < |parts| - 1 ==> Bare(parts[1..][i])
  {
    var rest := parts[1..];
    forall i | 0 <= i < |rest|
      ensures Bare(rest[i])
    {
      assert rest[i] == parts[i + 1];
    }
  }

  lemma {:induction false} TrimAllFixed(parts: seq<string>)
    requires forall i :: 0 <= i < |parts| ==> Bare(parts[i])
    ensures TrimAll(parts) == parts
    decreases |parts|
  {
    if |parts| > 0 {
      assert TrimAll(parts[1..]) == parts[1..] by {
        BareTail(parts);
        TrimAllFixed(parts[1..]);
      }
      assert TrimSpace(parts[0]) == parts[0] by {
        TrimSpaceFixed(parts[0]);
      }
      assert TrimAll(parts) == [TrimSpace(parts[0])] + TrimAll(parts[1..]);
      assert parts == [parts[0]] + parts[1..];
    }
  }


  /** A join of pieces whose first piece and last piece are non-empty starts with the
      first piece's first character and ends with the last piece's last character. */
  lemma {:induction false} JoinEnds(parts: seq<string>, sep: string)
    requires |parts| >= 1 && parts[0] != [] && parts[|parts| - 1] != []
    ensures var s := Join(parts, sep);
      |s| > 0 && s[0] == parts[0][0] && s[|s| - 1] == parts[|parts| - 1][|parts[|parts| - 1]| - 1]
    decreases |parts|
  {
    if |parts| > 1 {
      var last := parts[|parts| - 1];
      var init := parts[..|parts| - 1];
      assert parts == init + [last];
      JoinSnoc(init, last, sep);
      JoinCons(parts[0], parts[1..], sep);
    }
  }

  /** The package-level settings of the program that `parseFlags` adjusts. */
  class Settings {
    var flagEncoder: bool
    var dirValid: string
    var dirInvalid: string
    var invalidExt: string

    /** Both test directories are named. */
    ghost predicate Valid()
      reads this
    {
      dirValid != "" && dirInvalid != ""
    }

    /** The initial values of the package variables. */
    constructor()
      ensures Valid()
      ensures !flagEncoder && dirValid == "valid" && dirInvalid == "invalid" && invalidExt == "toml"
    {
      flagEncoder := false;
      dirValid := "valid";
      dirInvalid := "invalid";
      invalidExt := "toml";
    }

    /** The part of `parseFlags` that reads `-encoder` and `-skip`: the encoder switch
        moves the invalid tests to `invalid-encoder` with the `json` extension. */
    method ParseFlags(encoder: bool, flagSkip: string) returns (skip: seq<string>)
      requires Valid()
      modifies this
      ensures Valid()
      ensures skip == ParseSkip(flagSkip)
      ensures flagEncoder == encoder && dirValid == old(dirValid)
      ensures encoder ==> dirInvalid == "invalid-encoder" && invalidExt == "json"
      ensures !encoder ==> dirInvalid == old(dirInvalid) && invalidExt == old(invalidExt)
    {
      flagEncoder := encoder;
      skip := [];
      var fs := TrimSpace(flagSkip);
      if fs != "" {
        skip := TrimPieces(Split(fs, ','));
      }
      if encoder {
        dirInvalid := "invalid-encoder";
        invalidExt := "json";
      }
    }

    /** `runTestByName`: a name containing `dirInvalid/` is an invalid test. */
    function RunTestByName(env: Env, name: string): (r: TestResult)
      reads this
      ensures r.testName == name && !r.skipped
      ensures r.valid <==> !Contains(name, dirInvalid + "/")
    {
      RunOne(env, flagEncoder, !Contains(name, dirInvalid + "/"), name)
    }

    /** The tests named on the command line, in order. */
    method RunNamed(env: Env, names: seq<string>) returns (results: seq<TestResult>)
      ensures |results| == |names|
      ensures forall i :: 0 <= i < |names| ==> results[i] == RunTestByName(env, names[i])
    {
      results := [];
      for i := 0 to |names|
        invariant |results| == i
        invariant forall j :: 0 <= j < i ==> results[j] == RunTestByName(env, names[j])
      {
        results := results + [RunTestByName(env, names[i])];
      }
    }

    /** `runAllTests`: every invalid file ending in `.invalidExt`, then every valid file
        ending in `.toml`, in directory order; a listing that cannot be read is fatal. */
    method RunAllTests(env: Env, skip: seq<string>,
                       invalidList: Option<seq<string>>, validList: Option<seq<string>>)
      returns (res: Result<seq<TestResult>>)
      requires Valid()
      ensures res == AllTests(env, flagEncoder, dirValid, dirInvalid, invalidExt, skip, invalidList, validList)
    {
      if invalidList.None? {
        return Err("Cannot read invalid directory " + dirInvalid);
      }
      if validList.None? {
        return Err("Cannot read valid directory " + dirValid);
      }
      var results := RunDir(env, flagEncoder, false, dirInvalid, "." + invalidExt, skip, invalidList.value);
      var vresults := RunDir(env, flagEncoder, true, dirValid, ".toml", skip, validList.value);
      return Ok(results + vresults);
    }

    /** What `main` runs: every test when no names are given, else the named ones. */
    method Collect(env: Env, skip: seq<string>, names: seq<string>,
                   invalidList: Option<seq<string>>, validList: Option<seq<string>>)
      returns (res: Result<seq<TestResult>>)
      requires Valid()
      ensures |names| == 0 ==>
                res == AllTests(env, flagEncoder, dirValid, dirInvalid, invalidExt, skip, invalidList, validList)
      ensures |names| > 0 ==> res.Ok? && |res.value| == |names|
                              && forall i :: 0 <= i < |names| ==> res.value[i] == RunTestByName(env, names[i])
    {
      if |names| == 0 {
        res := RunAllTests(env, skip, invalidList, validList);
      } else {
        var results := RunNamed(env, names);
        res := Ok(results);
      }
    }
  }

  // ---------------------------------------------------------------- choosing tests

  /** One test run: `runValidTest` or `runInvalidTest`. */
  function RunOne(env: Env, flagEncoder: bool, valid: bool, name: string): (r: TestResult)
    ensures r.testName == name && r.valid == valid && !r.skipped
  {
    if valid then
      ParserRun.RunValidTest(name, flagEncoder, env.files, env.cmd, env.decodeJson, env.decodeToml, env.eqv)
    else ParserRun.RunInvalidTest(name, flagEncoder, env.files, env.cmd)
  }

  /** The names in a directory listing that end in `suffix`, in order. */
  function Kept(names: seq<string>, suffix: string): (r: seq<string>)
    ensures forall i :: 0 <= i < |r| ==> EndsWith(r[i], suffix) && r[i] in names
    ensures forall n :: n in names && EndsWith(n, suffix) ==> n in r
  {
    if |names| == 0 then []
    else
      var init := Kept(names[..|names| - 1], suffix);
      var n := names[|names| - 1];
      assert forall m :: m in names ==> m in names[..|names| - 1] || m == n;
      if EndsWith(n, suffix) then init + [n] else init
  }

  /** The test of one kept file: its result as skipped, or the result of running it. */
  function PickOne(env: Env, flagEncoder: bool, valid: bool, dir: string, skip: seq<string>, f: string): TestResult
    requires dir != ""
  {
    var tname := GoPath.Join2(dir, StripSuffix(f));
    var (r, skipped) := HasSkip(tname, skip);
    if skipped then r else RunOne(env, flagEncoder, valid, tname)
  }

  /** The results of one directory's loop in `runAllTests`. */
  function Pick(env: Env, flagEncoder: bool, valid: bool, dir: string, suffix: string,
                skip: seq<string>, names: seq<string>): seq<TestResult>
    requires dir != ""
  {
    if |names| == 0 then []
    else
      var init := Pick(env, flagEncoder, valid, dir, suffix, skip, names[..|names| - 1]);
      var f := names[|names| - 1];
      if EndsWith(f, suffix) then init + [PickOne(env, flagEncoder, valid, dir, skip, f)] else init
  }

  /** One directory's loop in `runAllTests`: the files ending in `suffix`, in listing order,
      each skipped or run. */
  method RunDir(env: Env, flagEncoder: bool, valid: bool, dir: string, suffix: string,
                skip: seq<string>, names: seq<string>) returns (results: seq<TestResult>)
    requires dir != ""
    ensures results == Pick(env, flagEncoder, valid, dir, suffix, skip, names)
  {
    results := [];
    for i := 0 to |names|
      invariant results == Pick(env, flagEncoder, valid, dir, suffix, skip, names[..i])
    {
      assert names[..i + 1][..i] == names[..i];
      var f := names[i];
      if !EndsWith(f, suffix) {
        continue;
      }
      var tname := GoPath.Join2(dir, StripSuffix(f));
      var (r, skipped) := HasSkip(tname, skip);
      if skipped {
        results := results + [r];
        continue;
      }
      results := results + [RunOne(env, flagEncoder, valid, tname)];
    }
    assert names[..|names|] == names;
  }

  /** `runAllTests` as a whole. */
  function AllTests(env: Env, flagEncoder: bool, dirValid: string, dirInvalid: string, invalidExt: string,
                    skip: seq<string>, invalidList: Option<seq<string>>, validList: Option<seq<string>>)
    : Result<seq<TestResult>>
    requires dirValid != "" && dirInvalid != ""
  {
    if invalidList.None? then Err("Cannot read invalid directory " + dirInvalid)
    else if validList.None? then Err("Cannot read valid directory " + dirValid)
    else Ok(Pick(env, flagEncoder, false, dirInvalid, "." + invalidExt, skip, invalidList.value)
            + Pick(env, flagEncoder, true, dirValid, ".toml", skip, validList.value))
  }

  /**
    One result per kept file, in listing order, named `dir/stripSuffix(file)`; a test is
    skipped exactly when its name is in the skip list, and otherwise it is run as the
    directory's kind.
  */
  lemma {:induction false} PickKept(env: Env, flagEncoder: bool, valid: bool, dir: string, suffix: string,
                                    skip: seq<string>, names: seq<string>)
    requires dir != ""
    ensures var rs := Pick(env, flagEncoder, valid, dir, suffix, skip, names);
      var ks := Kept(names, suffix);
      && |rs| == |ks|
      && forall i :: 0 <= i < |rs| ==>
           var tname := GoPath.Join2(dir, StripSuffix(ks[i]));
           && rs[i].testName == tname
           && (rs[i].skipped <==> tname in skip)
           && (!rs[i].skipped ==> rs[i] == RunOne(env, flagEncoder, valid, tname))
    decreases |names|
  {
    if |names| > 0 {
      PickKept(env, flagEncoder, valid, dir, suffix, skip, names[..|names| - 1]);
    }
  }

  // ---------------------------------------------------------------- the tally

  /** A result that counts as passed: not failed and not skipped. */
  predicate Passed(r: TestResult) {
    !Failed(r) && !r.skipped
  }

  /** A result that counts as skipped: skipped, and not failed. */
  predicate SkippedOnly(r: TestResult) {
    !Failed(r) && r.skipped
  }

  /** The number of results satisfying `f`. */
  function Count(rs: seq<TestResult>, f: TestResult -> bool): (n: nat)
    ensures n <= |rs|
  {
    if |rs| == 0 then 0
    else Count(rs[..|rs| - 1], f) + (if f(rs[|rs| - 1]) then 1 else 0)
  }

  /** Counting one more result adds one exactly when it satisfies `f`. */
  lemma CountSnoc(rs: seq<TestResult>, i: nat, f: TestResult -> bool)
    requires i < |rs|
    ensures Count(rs[..i + 1], f) == Count(rs[..i], f) + (if f(rs[i]) then 1 else 0)
  {
    assert rs[..i + 1][..i] == rs[..i];
  }

  /** Some result satisfies `f` exactly when the count is positive. */
  lemma {:induction false} CountPositive(rs: seq<TestResult>, f: TestResult -> bool)
    ensures Count(rs, f) > 0 <==> exists i :: 0 <= i < |rs| && f(rs[i])
    decreases |rs|
  {
    if |rs| > 0 {
      var init := rs[..|rs| - 1];
      CountPositive(init, f);
      assert forall i :: 0 <= i < |init| ==> init[i] == rs[i];
    }
  }

  /**
    The counting loop of `main`: a failed result counts as failed even when skipped,
    a skipped one as skipped, the rest as passed; the three add up to the number of
    results, and the exit status is 1 exactly when some result failed.
  */
  method Tally(results: seq<TestResult>) returns (passed: nat, failed: nat, skipped: nat, exit: int)
    ensures passed == Count(results, Passed)
    ensures failed == Count(results, Failed)
    ensures skipped == Count(results, SkippedOnly)
    ensures passed + failed + skipped == |results|
    ensures exit == 1 <==> exists i :: 0 <= i < |results| && Failed(results[i])
    ensures exit == 0 || exit == 1
  {
    passed, failed, skipped := 0, 0, 0;
    for i := 0 to |results|
      invariant passed == Count(results[..i], Passed)
      invariant failed == Count(results[..i], Failed)
      invariant skipped == Count(results[..i], SkippedOnly)
      invariant passed + failed + skipped == i
    {
      CountSnoc(results, i, Passed);
      CountSnoc(results, i, Failed);
      CountSnoc(results, i, SkippedOnly);
      var r := results[i];
      if Failed(r) {
        failed := failed + 1;
      } else if r.skipped {
        skipped := skipped + 1;
      } else {
        passed := passed + 1;
      }
    }
    assert results[..|results|] == results;
    CountPositive(results, Failed);
    exit := if failed > 0 then 1 else 0;
  }
}
