/**
  `Runner.Run`: every selected test is run once (or skipped, or dropped when there is
  no encoder), its outcome is counted in exactly one tally, expected error messages
  are checked against invalid tests, the results are ordered valid, encoder, invalid,
  and expected errors that matched no test are reported.
*/
module TomlTestRun {
  import opened Common
  import opened Text
  import opened Sorting
  import opened TomlTest
  import GoPath

  /** The counters of `Tests`. */
  datatype Tally = Tally(
    skipped: nat,
    passedValid: nat,
    failedValid: nat,
    passedInvalid: nat,
    failedInvalid: nat,
    passedEncoder: nat,
    failedEncoder: nat)

  function Total(c: Tally): nat {
    c.skipped + c.passedValid + c.failedValid + c.passedInvalid + c.failedInvalid
      + c.passedEncoder + c.failedEncoder
  }

  /** `Tests`: the results and their counters. */
  datatype Tests = Tests(tests: seq<Test>, tally: Tally)

  /** Why `Run` returned an error. */
  datatype RunError =
    | FindFailed(msg: string)        // listing or selecting the tests failed
    | Unmatched(keys: set<string>)   // expected errors no test consumed

  // ---------------------------------------------------------------- expected errors

  /** The key an entry of `Errors` is filed under: below `invalid/`, without `.toml`. */
  function ErrorKey(k: string): (r: string)
    ensures StartsWith(k, "invalid/") ==> r == TrimSuffix(k, ".toml")
  {
    var full := if StartsWith(k, "invalid/") then k
                else GoPath.Join2("invalid", k);
    TrimSuffix(full, ".toml")
  }

  lemma SplitInvalid()
    ensures Split("invalid", '/') == ["invalid"]
  {
    assert '/' !in "invalid";
    assert [] + ["invalid"] == ["invalid"];
    SplitJoin(["invalid"], '/');
  }

  /** Trimming `.toml` below `invalid/`: the prefix has no dot, so only `k` decides. */
  lemma TrimBelowInvalid(k: string)
    ensures EndsWith(k, ".toml") ==> TrimSuffix("invalid/" + k, ".toml") == "invalid/" + k[..|k| - 5]
    ensures '.' !in k ==> TrimSuffix("invalid/" + k, ".toml") == "invalid/" + k
  {
    var full := "invalid/" + k;
    if EndsWith(k, ".toml") {
      assert full[|full| - 5..] == k[|k| - 5..];
      assert full[..|full| - 5] == "invalid/" + k[..|k| - 5];
    }
    if '.' !in k && |full| >= 5 {
      if |k| >= 5 {
        assert full[|full| - 5] == k[|k| - 5];
      } else {
        assert full[|full| - 5] == "invalid/"[|full| - 5];
      }
      assert full[|full| - 5..][0] != '.';
    }
  }

  /** A plain relative key `a/b.toml` (or `a/b`) is filed under `invalid/a/b`. */
  lemma ErrorKeyPlain(k: string)
    requires k != "" && k[0] != '/' && !StartsWith(k, "invalid/")
    requires forall i :: 0 <= i < |Split(k, '/')| ==> GoPath.Plain(Split(k, '/')[i])
    ensures EndsWith(k, ".toml") ==> ErrorKey(k) == "invalid/" + k[..|k| - 5]
    ensures '.' !in k ==> ErrorKey(k) == "invalid/" + k
  {
    ErrorKeyJoin(k);
    TrimBelowInvalid(k);
  }

  lemma ErrorKeyJoin(k: string)
    requires k != "" && k[0] != '/' && !StartsWith(k, "invalid/")
    requires forall i :: 0 <= i < |Split(k, '/')| ==> GoPath.Plain(Split(k, '/')[i])
    ensures ErrorKey(k) == TrimSuffix("invalid/" + k, ".toml")
  {
    JoinInvalid(k);
    ErrorKeyOther(k);
  }

  lemma JoinInvalid(k: string)
    requires k != "" && k[0] != '/'
    requires forall i :: 0 <= i < |Split(k, '/')| ==> GoPath.Plain(Split(k, '/')[i])
    ensures GoPath.Join2("invalid", k) == "invalid/" + k
  {
    SplitInvalid();
    assert GoPath.Plain(Split("invalid", '/')[0]);
    assert "invalid" + "/" == "invalid/";
    GoPath.Join2Plain("invalid", k);
  }

  lemma ErrorKeyOther(k: string)
    requires !StartsWith(k, "invalid/")
    ensures ErrorKey(k) == TrimSuffix(GoPath.Join2("invalid", k), ".toml")
  {
  }

  /** `nerr` is a normalisation of `errors`: its keys are exactly their keys' images, and
      each value comes from a key filed there. */
  predicate Normalised(errors: map<string, string>, nerr: map<string, string>) {
    (forall k :: k in errors ==> ErrorKey(k) in nerr)
    && forall n :: n in nerr ==> exists k :: k in errors && ErrorKey(k) == n && errors[k] == nerr[n]
  }

  /** The normalising loop; map order is unspecified, so which value wins on a clash is too. */
  method NormaliseErrors(errors: map<string, string>) returns (nerr: map<string, string>)
    ensures Normalised(errors, nerr)
  {
    nerr := map[];
    var left := errors.Keys;
    while left != {}
      invariant left <= errors.Keys
      invariant forall k :: k in errors && k !in left ==> ErrorKey(k) in nerr
      invariant forall n :: n in nerr ==> exists k :: k in errors && ErrorKey(k) == n && errors[k] == nerr[n]
      decreases left
    {
      var k :| k in left;
      nerr := nerr[ErrorKey(k) := errors[k]];
      left := left - {k};
    }
  }

  // ---------------------------------------------------------------- one test

  /** The state the loop of `Run` carries: the results so far and the unconsumed errors. */
  datatype State = State(tests: Tests, errors: map<string, string>)

  const SkipNotFailedMsg: string := "Test skipped with -skip but didn't fail"

  /** `%q` of a string, without Go's escaping of special characters. */
  function Quote(s: string): string {
    "\"" + s + "\""
  }

  function NotContainedMsg(output: string, e: string): (m: string)
    ensures m != ""
  {
    Quote(output) + " does not contain " + Quote(e)
  }

  /** The counter an executed test bumps: by type, passed or failed. */
  function Count(c: Tally, p: string, failed: bool): (d: Tally)
    ensures Total(d) == Total(c) + 1
    ensures d.skipped == c.skipped
  {
    if failed then
      (if Invalid(p) then c.(failedInvalid := c.failedInvalid + 1)
       else if Encoder(p) then c.(failedEncoder := c.failedEncoder + 1)
       else c.(failedValid := c.failedValid + 1))
    else
      (if Invalid(p) then c.(passedInvalid := c.passedInvalid + 1)
       else if Encoder(p) then c.(passedEncoder := c.passedEncoder + 1)
       else c.(passedValid := c.passedValid + 1))
  }

  /** Encoder tests are left out entirely when there is no encoder. */
  predicate Dropped(r: Runner, p: string) {
    r.encoder.None? && Encoder(p)
  }

  /** Tests matched by `-skip` are only recorded as skipped, unless they must fail. */
  predicate SkippedOnly(r: Runner, glob: Matcher, p: string) {
    AnyMatch(r.skipTests, glob, p) && !r.skipMustError
  }

  /** A test that is actually run. */
  predicate Executed(r: Runner, glob: Matcher, p: string) {
    !Dropped(r, p) && !SkippedOnly(r, glob, p)
  }

  /** The run test after the expected-error check. */
  function Checked(t: Test, errors: map<string, string>): (c: Test)
    ensures c.path == t.path && c.skipped == t.skipped
    ensures Failed(t) ==> c == t
    ensures Invalid(t.path) && t.path in errors && !Failed(c) ==> Contains(c.output, errors[t.path])
    ensures !Failed(c) ==> c == t
  {
    if Invalid(t.path) && t.path in errors && !Failed(t) && !Contains(t.output, errors[t.path])
    then Fail(t, NotContainedMsg(t.output, errors[t.path]))
    else t
  }

  /** What one loop iteration of `Run` does with test `p`. */
  function Step(st: State, p: string, r: Runner, fs: FS, glob: Matcher, compare: Comparer): State {
    var c := st.tests.tally;
    if Dropped(r, p) then st
    else if SkippedOnly(r, glob, p) then
      State(Tests(st.tests.tests + [NewTest(p).(skipped := true)], c.(skipped := c.skipped + 1)),
            st.errors)
    else
      var parser := if Encoder(p) then r.encoder.value else r.decoder;
      var t := Checked(RunTest(NewTest(p), fs, parser, compare), st.errors);
      var errors := st.errors - {p};
      if r.skipMustError && AnyMatch(r.skipTests, glob, p) then
        if Failed(t) then
          State(Tests(st.tests.tests + [t.(skipped := true, failure := "")],
                      c.(skipped := c.skipped + 1)), errors)
        else
          State(Tests(st.tests.tests + [Fail(t, SkipNotFailedMsg)], Count(c, p, true)), errors)
      else
        State(Tests(st.tests.tests + [t], Count(c, p, Failed(t))), errors)
  }

  /** The loop of `Run` over the tests to run, in order. */
  function Steps(st: State, ps: seq<string>, r: Runner, fs: FS, glob: Matcher, compare: Comparer): State
    decreases |ps|
  {
    if |ps| == 0 then st
    else Step(Steps(st, ps[..|ps| - 1], r, fs, glob, compare), ps[|ps| - 1], r, fs, glob, compare)
  }

  // ---------------------------------------------------------------- the whole run

  /** The key results are sorted by: `encoder/` sorts as `wencoder/` and `invalid/` as
      `zinvalid/`, wherever they occur, scanning left to right. */
  function SortKey(s: string): string
    decreases |s|
  {
    if |s| == 0 then ""
    else if StartsWith(s, "encoder/") then "wencoder/" + SortKey(s[8..])
    else if StartsWith(s, "invalid/") then "zinvalid/" + SortKey(s[8..])
    else [s[0]] + SortKey(s[1..])
  }

  function TestKey(t: Test): string {
    SortKey(t.path)
  }

  function InitialState(skip: nat, nerr: map<string, string>): State {
    State(Tests([], Tally(skip, 0, 0, 0, 0, 0, 0)), nerr)
  }

  /** After the loop: the results sorted by key, and the error for unconsumed expected errors. */
  function Finish(st: State): (Tests, Option<RunError>) {
    (st.tests.(tests := SortBy(st.tests.tests, TestKey)),
     if |st.errors| > 0 then Some(Unmatched(st.errors.Keys)) else None)
  }

  /** Running the selected tests `run`, `skip` of the listed tests left unselected. */
  function Execute(skip: nat, run: seq<string>, nerr: map<string, string>,
                   r: Runner, fs: FS, glob: Matcher, compare: Comparer): (Tests, Option<RunError>) {
    Finish(Steps(InitialState(skip, nerr), run, r, fs, glob, compare))
  }

  /** What `Run` returns, given the normalised expected errors. */
  function RunSpec(r: Runner, versions: Versions, glob: Matcher, compare: Comparer,
                   nerr: map<string, string>): (Tests, Option<RunError>)
    requires r.files.Some?
    requires r.version in versions ==> ChainEnds(versions, versions[r.version], |versions|)
  {
    match FindTestsSpec(r, versions, glob)
    case Err(m) => (Tests([], Tally(0, 0, 0, 0, 0, 0, 0)), Some(FindFailed(m)))
    case Ok((skip, run)) => Execute(skip, run, nerr, r, r.files.value, glob, compare)
  }

  /** The loop over the tests to run, from a given state. */
  method RunAll(st0: State, run: seq<string>, r: Runner, fs: FS, glob: Matcher, compare: Comparer)
    returns (st: State)
    ensures st == Steps(st0, run, r, fs, glob, compare)
  {
    var results := st0.tests.tests;
    var tally := st0.tests.tally;
    var errors := st0.errors;
    var i := 0;
    while i < |run|
      invariant 0 <= i <= |run|
      invariant State(Tests(results, tally), errors) == Steps(st0, run[..i], r, fs, glob, compare)
    {
      assert run[..i + 1][..i] == run[..i];
      results, tally, errors := RunStep(results, tally, errors, run[i], r, fs, glob, compare);
      i := i + 1;
    }
    assert run[..i] == run;
    st := State(Tests(results, tally), errors);
  }

  /** One iteration of the loop of `Run`: drop, skip, or run and count test `p`. */
  method RunStep(results0: seq<Test>, tally0: Tally, errors0: map<string, string>, p: string,
                r: Runner, fs: FS, glob: Matcher, compare: Comparer)
    returns (results: seq<Test>, tally: Tally, errors: map<string, string>)
    ensures State(Tests(results, tally), errors)
         == Step(State(Tests(results0, tally0), errors0), p, r, fs, glob, compare)
  {
    results, tally, errors := results0, tally0, errors0;
    if r.encoder.None? && Encoder(p) {
      return;  // dropped
    }
    if AnyMatch(r.skipTests, glob, p) && !r.skipMustError {
      tally := tally.(skipped := tally.skipped + 1);
      results := results + [NewTest(p).(skipped := true)];
      return;
    }
    var parser := r.decoder;
    if Encoder(p) {
      parser := r.encoder.value;
    }
    var t := RunTest(NewTest(p), fs, parser, compare);
    if Invalid(p) && p in errors && !Failed(t) && !Contains(t.output, errors[p]) {
      t := Fail(t, NotContainedMsg(t.output, errors[p]));
    }
    errors := errors - {p};
    if r.skipMustError && AnyMatch(r.skipTests, glob, p) {
      if Failed(t) {
        tally := tally.(skipped := tally.skipped + 1);
        t := t.(skipped := true, failure := "");
      } else {
        t := Fail(t, SkipNotFailedMsg);
        tally := Count(tally, p, true);
      }
    } else {
      tally := Count(tally, p, Failed(t));
    }
    results := results + [t];
  }

  /** `Runner.Run`: ensures the outcome is `RunSpec` for some normalisation of `Errors`. */
  method Run(r: Runner, versions: Versions, glob: Matcher, compare: Comparer)
    returns (tests: Tests, err: Option<RunError>)
    requires r.files.Some?
    requires r.version in versions ==> ChainEnds(versions, versions[r.version], |versions|)
    ensures exists nerr :: Normalised(r.errors, nerr)
                          && (tests, err) == RunSpec(r, versions, glob, compare, nerr)
  {
    var found := FindTests(r, versions, glob);
    var nerr := NormaliseErrors(r.errors);
    if found.Err? {
      tests, err := Tests([], Tally(0, 0, 0, 0, 0, 0, 0)), Some(FindFailed(found.msg));
    } else {
      var (skip, run) := found.value;
      var st := RunAll(InitialState(skip, nerr), run, r, r.files.value, glob, compare);
      tests := st.tests.(tests := SortBy(st.tests.tests, TestKey));
      err := if |st.errors| > 0 then Some(Unmatched(st.errors.Keys)) else None;
    }
    assert (tests, err) == RunSpec(r, versions, glob, compare, nerr);
  }

  // ---------------------------------------------------------------- properties

  /** The paths of a list of results. */
  function Paths(ts: seq<Test>): (r: seq<string>)
    ensures |r| == |ts| && forall i :: 0 <= i < |ts| ==> r[i] == ts[i].path
  {
    seq(|ts|, i requires 0 <= i < |ts| => ts[i].path)
  }

  /** The tests to run that are not dropped, in order. */
  function Kept(r: Runner, ps: seq<string>): (k: seq<string>)
    ensures forall x :: x in k <==> x in ps && !Dropped(r, x)
  {
    if |ps| == 0 then []
    else
      var last := ps[|ps| - 1];
      assert ps == ps[..|ps| - 1] + [last];
      Kept(r, ps[..|ps| - 1]) + (if Dropped(r, last) then [] else [last])
  }

  predicate IsSkipped(t: Test) {
    t.skipped
  }

  /** How many of `ts` satisfy `f`. */
  function CountWhere(ts: seq<Test>, f: Test -> bool): (n: nat)
    ensures n <= |ts|
  {
    if |ts| == 0 then 0 else (if f(ts[0]) then 1 else 0) + CountWhere(ts[1..], f)
  }

  function FailedTotal(c: Tally): nat {
    c.failedValid + c.failedInvalid + c.failedEncoder
  }

  /** What `-skip` does to a recorded test. */
  predicate SkipRule(r: Runner, glob: Matcher, t: Test) {
    if !AnyMatch(r.skipTests, glob, t.path) then !t.skipped
    else if r.skipMustError then
      (t.skipped && t.failure == "") || (!t.skipped && t.failure == SkipNotFailedMsg)
    else t.skipped && t.failure == ""
  }

  /** One step appends at most one result, for its own path, and bumps one counter. */
  lemma StepShape(st: State, p: string, r: Runner, fs: FS, glob: Matcher, compare: Comparer)
    ensures var s := Step(st, p, r, fs, glob, compare);
      && (Dropped(r, p) ==> s == st)
      && (!Dropped(r, p) ==>
            && |s.tests.tests| == |st.tests.tests| + 1
            && var t := s.tests.tests[|st.tests.tests|];
               && s.tests.tests == st.tests.tests + [t]
               && t.path == p
               && SkipRule(r, glob, t)
               && (t.skipped ==> !Failed(t))
               && s.tests.tally.skipped == st.tests.tally.skipped + (if t.skipped then 1 else 0)
               && FailedTotal(s.tests.tally) == FailedTotal(st.tests.tally) + (if Failed(t) then 1 else 0)
               && Total(s.tests.tally) == Total(st.tests.tally) + 1)
      && s.errors == (if Executed(r, glob, p) then st.errors - {p} else st.errors)
  {
    StepTests(st, p, r, fs, glob, compare);
    if !Dropped(r, p) {
      StepTally(st, p, r, fs, glob, compare);
    }
  }

  /** The test list and the expected errors after one step. */
  lemma StepTests(st: State, p: string, r: Runner, fs: FS, glob: Matcher, compare: Comparer)
    ensures var s := Step(st, p, r, fs, glob, compare);
      && (Dropped(r, p) ==> s == st)
      && (!Dropped(r, p) ==>
            && |s.tests.tests| == |st.tests.tests| + 1
            && var t := s.tests.tests[|st.tests.tests|];
               && s.tests.tests == st.tests.tests + [t]
               && t.path == p
               && SkipRule(r, glob, t)
               && (t.skipped ==> !Failed(t)))
      && s.errors == (if Executed(r, glob, p) then st.errors - {p} else st.errors)
  {
  }

  /** The counters after one step that keeps its test. */
  lemma StepTally(st: State, p: string, r: Runner, fs: FS, glob: Matcher, compare: Comparer)
    requires !Dropped(r, p)
    ensures var s := Step(st, p, r, fs, glob, compare);
      && |s.tests.tests| == |st.tests.tests| + 1
      && var t := s.tests.tests[|st.tests.tests|];
         && s.tests.tally.skipped == st.tests.tally.skipped + (if t.skipped then 1 else 0)
         && FailedTotal(s.tests.tally) == FailedTotal(st.tests.tally) + (if Failed(t) then 1 else 0)
         && Total(s.tests.tally) == Total(st.tests.tally) + 1
  {
  }

  lemma PathsAppend(a: seq<Test>, b: seq<Test>)
    ensures Paths(a + b) == Paths(a) + Paths(b)
  {
  }

  lemma {:induction false} CountAppend(a: seq<Test>, b: seq<Test>, f: Test -> bool)
    ensures CountWhere(a + b, f) == CountWhere(a, f) + CountWhere(b, f)
    decreases |a|
  {
    if |a| == 0 {
      assert a + b == b;
    } else {
      assert (a + b)[0] == a[0];
      assert (a + b)[1..] == a[1..] + b;
      CountAppend(a[1..], b, f);
    }
  }

  /** The loop's results: the earlier ones, then one per kept test, in order. */
  lemma {:induction false} StepsPaths(st: State, ps: seq<string>, r: Runner, fs: FS, glob: Matcher, compare: Comparer)
    ensures var s := Steps(st, ps, r, fs, glob, compare);
      Paths(s.tests.tests) == Paths(st.tests.tests) + Kept(r, ps)
    decreases |ps|
  {
    if |ps| > 0 {
      var init := ps[..|ps| - 1];
      var p := ps[|ps| - 1];
      var mid := Steps(st, init, r, fs, glob, compare);
      StepsPaths(st, init, r, fs, glob, compare);
      StepShape(mid, p, r, fs, glob, compare);
      if !Dropped(r, p) {
        var s := Step(mid, p, r, fs, glob, compare);
        PathsAppend(mid.tests.tests, [s.tests.tests[|mid.tests.tests|]]);
      }
    }
  }

  /** The counters track the results: one per result beyond the skip count, the
      skipped counter counts skipped results, the failed counters failed ones. */
  lemma {:induction false} StepsTally(st: State, ps: seq<string>, r: Runner, fs: FS, glob: Matcher, compare: Comparer)
    ensures var s := Steps(st, ps, r, fs, glob, compare);
      var a := st.tests.tests;
      var b := s.tests.tests;
      && |a| <= |b| && b[..|a|] == a
      && Total(s.tests.tally) + |a| == Total(st.tests.tally) + |b|
      && s.tests.tally.skipped + CountWhere(a, IsSkipped) == st.tests.tally.skipped + CountWhere(b, IsSkipped)
      && FailedTotal(s.tests.tally) + CountWhere(a, Failed) == FailedTotal(st.tests.tally) + CountWhere(b, Failed)
      && forall i :: |a| <= i < |b| ==> SkipRule(r, glob, b[i]) && (b[i].skipped ==> !Failed(b[i]))
    decreases |ps|
  {
    if |ps| > 0 {
      var init := ps[..|ps| - 1];
      var p := ps[|ps| - 1];
      var mid := Steps(st, init, r, fs, glob, compare);
      StepsTally(st, init, r, fs, glob, compare);
      StepShape(mid, p, r, fs, glob, compare);
      if !Dropped(r, p) {
        var s := Step(mid, p, r, fs, glob, compare);
        var t := s.tests.tests[|mid.tests.tests|];
        CountAppend(mid.tests.tests, [t], IsSkipped);
        CountAppend(mid.tests.tests, [t], Failed);
        assert s.tests.tests[..|st.tests.tests|] == mid.tests.tests[..|st.tests.tests|];
      }
    }
  }

  /** An expected error is consumed exactly by a test of that path that is run. */
  lemma {:induction false} StepsErrors(st: State, ps: seq<string>, r: Runner, fs: FS, glob: Matcher, compare: Comparer)
    ensures var s := Steps(st, ps, r, fs, glob, compare);
      forall k :: k in s.errors <==> k in st.errors && !(k in ps && Executed(r, glob, k))
    decreases |ps|
  {
    if |ps| > 0 {
      var init := ps[..|ps| - 1];
      var p := ps[|ps| - 1];
      var mid := Steps(st, init, r, fs, glob, compare);
      StepsErrors(st, init, r, fs, glob, compare);
      StepShape(mid, p, r, fs, glob, compare);
      assert ps == init + [p];
    }
  }

  /** Removing the first element of `a` from its permutation `b` keeps them permutations. */
  lemma RemoveMatching<T>(a: seq<T>, b: seq<T>, j: nat)
    requires |a| > 0 && j < |b| && b[j] == a[0]
    requires multiset(a) == multiset(b)
    ensures multiset(b[..j] + b[j + 1..]) == multiset(a[1..])
  {
    var x := a[0];
    assert b == b[..j] + [x] + b[j + 1..];
    assert a == [x] + a[1..];
    calc {
      multiset(b[..j] + b[j + 1..]);
      multiset(b[..j]) + multiset(b[j + 1..]);
      multiset(b) - multiset{x};
      multiset(a) - multiset{x};
      multiset(a[1..]);
    }
  }

  lemma {:induction false} CountRemove(b: seq<Test>, j: nat, f: Test -> bool)
    requires j < |b|
    ensures CountWhere(b, f) == CountWhere(b[..j] + b[j + 1..], f) + (if f(b[j]) then 1 else 0)
    decreases j
  {
    if j == 0 {
      assert b[..0] + b[1..] == b[1..];
    } else {
      var c := b[1..];
      CountRemove(c, j - 1, f);
      var x := b[..j] + b[j + 1..];
      assert x[0] == b[0];
      assert x[1..] == c[..j - 1] + c[j..];
    }
  }

  /** Counting is unaffected by reordering. */
  lemma {:induction false} CountPermutation(a: seq<Test>, b: seq<Test>, f: Test -> bool)
    requires multiset(a) == multiset(b)
    ensures CountWhere(a, f) == CountWhere(b, f)
    decreases |a|
  {
    if |a| == 0 {
      assert b == [];
    } else {
      assert a[0] in multiset(b);
      var j :| 0 <= j < |b| && b[j] == a[0];
      RemoveMatching(a, b, j);
      CountPermutation(a[1..], b[..j] + b[j + 1..], f);
      CountRemove(b, j, f);
    }
  }

  /** Reordering results reorders their paths. */
  lemma {:induction false} PathsPermutation(a: seq<Test>, b: seq<Test>)
    requires multiset(a) == multiset(b)
    ensures multiset(Paths(a)) == multiset(Paths(b))
    decreases |a|
  {
    if |a| == 0 {
      assert b == [];
    } else {
      assert a[0] in multiset(b);
      var j :| 0 <= j < |b| && b[j] == a[0];
      var rest := b[..j] + b[j + 1..];
      RemoveMatching(a, b, j);
      PathsPermutation(a[1..], rest);
      assert b == b[..j] + [b[j]] + b[j + 1..];
      assert a == [a[0]] + a[1..];
      PathsAppend(b[..j] + [b[j]], b[j + 1..]);
      PathsAppend(b[..j], [b[j]]);
      PathsAppend(b[..j], b[j + 1..]);
      PathsAppend([a[0]], a[1..]);
    }
  }

  /** The first character of a grouped path's sort key names its group. */
  lemma SortKeyHead(p: string)
    requires Grouped(p)
    ensures |SortKey(p)| > 0
    ensures SortKey(p)[0] == (if Rank(p) == 0 then 'v' else if Rank(p) == 1 then 'w' else 'z')
  {
    if StartsWith(p, "valid/") {
      assert p[0] == 'v';
      if |p| >= 8 {
        assert p[..8][0] == 'v';
      }
    } else if StartsWith(p, "encoder/") {
    } else {
      assert p[..8][0] == 'i';
    }
  }

  /** Results sorted by key keep the groups in order: valid, encoder, invalid. */
  lemma RankFromKey(p: string, q: string)
    requires Grouped(p) && Grouped(q)
    requires !LexLess(SortKey(q), SortKey(p))
    ensures Rank(p) <= Rank(q)
  {
    SortKeyHead(p);
    SortKeyHead(q);
  }

  /** Sorting keeps what the counters say about the results. */
  lemma FinishCounts(skip: nat, st: State, kept: seq<string>, r: Runner, glob: Matcher)
    requires Total(st.tests.tally) == skip + |st.tests.tests|
    requires st.tests.tally.skipped == skip + CountWhere(st.tests.tests, IsSkipped)
    requires FailedTotal(st.tests.tally) == CountWhere(st.tests.tests, Failed)
    requires Paths(st.tests.tests) == kept
    requires forall i :: 0 <= i < |st.tests.tests| ==> SkipRule(r, glob, st.tests.tests[i])
    ensures var tests := Finish(st).0;
      && Total(tests.tally) == skip + |tests.tests|
      && tests.tally.skipped == skip + CountWhere(tests.tests, IsSkipped)
      && FailedTotal(tests.tally) == CountWhere(tests.tests, Failed)
      && multiset(Paths(tests.tests)) == multiset(kept)
      && forall i :: 0 <= i < |tests.tests| ==> SkipRule(r, glob, tests.tests[i])
  {
    var sorted := SortBy(st.tests.tests, TestKey);
    CountPermutation(st.tests.tests, sorted, IsSkipped);
    CountPermutation(st.tests.tests, sorted, Failed);
    PathsPermutation(st.tests.tests, sorted);
    forall i | 0 <= i < |sorted|
      ensures SkipRule(r, glob, sorted[i])
    {
      assert sorted[i] in multiset(st.tests.tests);
      var j :| 0 <= j < |st.tests.tests| && st.tests.tests[j] == sorted[i];
    }
  }

  /** The counters of a run describe its results, one result per kept test. */
  lemma ExecuteCounts(skip: nat, run: seq<string>, nerr: map<string, string>,
                      r: Runner, fs: FS, glob: Matcher, compare: Comparer)
    ensures var tests := Execute(skip, run, nerr, r, fs, glob, compare).0;
      && Total(tests.tally) == skip + |tests.tests|
      && tests.tally.skipped == skip + CountWhere(tests.tests, IsSkipped)
      && FailedTotal(tests.tally) == CountWhere(tests.tests, Failed)
      && multiset(Paths(tests.tests)) == multiset(Kept(r, run))
      && forall i :: 0 <= i < |tests.tests| ==> SkipRule(r, glob, tests.tests[i])
  {
    var st0 := InitialState(skip, nerr);
    var st := Steps(st0, run, r, fs, glob, compare);
    StepsTally(st0, run, r, fs, glob, compare);
    StepsPaths(st0, run, r, fs, glob, compare);
    assert Paths(st0.tests.tests) + Kept(r, run) == Kept(r, run);
    FinishCounts(skip, st, Kept(r, run), r, glob);
  }

  /** Without an encoder, no encoder test is reported. */
  lemma ExecuteNoEncoder(skip: nat, run: seq<string>, nerr: map<string, string>,
                         r: Runner, fs: FS, glob: Matcher, compare: Comparer)
    requires r.encoder.None?
    ensures var tests := Execute(skip, run, nerr, r, fs, glob, compare).0.tests;
      forall i :: 0 <= i < |tests| ==> !Encoder(tests[i].path)
  {
    ExecuteCounts(skip, run, nerr, r, fs, glob, compare);
    KeptNoEncoder(Execute(skip, run, nerr, r, fs, glob, compare).0.tests, r, run);
  }

  lemma KeptNoEncoder(ts: seq<Test>, r: Runner, run: seq<string>)
    requires r.encoder.None?
    requires multiset(Paths(ts)) == multiset(Kept(r, run))
    ensures forall i :: 0 <= i < |ts| ==> !Encoder(ts[i].path)
  {
    forall i | 0 <= i < |ts|
      ensures !Encoder(ts[i].path)
    {
      assert Paths(ts)[i] in multiset(Kept(r, run));
      assert Paths(ts)[i] in Kept(r, run);
      assert !Dropped(r, ts[i].path);
    }
  }

  /** Results of grouped tests come valid first, then encoder, then invalid. */
  lemma ExecuteOrdered(skip: nat, run: seq<string>, nerr: map<string, string>,
                       r: Runner, fs: FS, glob: Matcher, compare: Comparer)
    requires forall x :: x in run ==> Grouped(x)
    ensures var tests := Execute(skip, run, nerr, r, fs, glob, compare).0.tests;
      forall i, j :: 0 <= i < j < |tests| ==> Rank(tests[i].path) <= Rank(tests[j].path)
  {
    var tests := Execute(skip, run, nerr, r, fs, glob, compare).0.tests;
    ExecuteCounts(skip, run, nerr, r, fs, glob, compare);
    forall i | 0 <= i < |tests|
      ensures Grouped(tests[i].path)
    {
      assert Paths(tests)[i] in multiset(Kept(r, run));
    }
    assert SortedBy(tests, TestKey);
    forall i, j | 0 <= i < j < |tests|
      ensures Rank(tests[i].path) <= Rank(tests[j].path)
    {
      assert !LexLess(TestKey(tests[j]), TestKey(tests[i]));
      RankFromKey(tests[i].path, tests[j].path);
    }
  }

  /** `Run` reports exactly the expected errors that no run test consumed. */
  lemma ExecuteUnmatched(skip: nat, run: seq<string>, nerr: map<string, string>,
                         r: Runner, fs: FS, glob: Matcher, compare: Comparer)
    ensures var err := Execute(skip, run, nerr, r, fs, glob, compare).1;
      && (err.None? <==> forall k :: k in nerr ==> k in run && Executed(r, glob, k))
      && (err.Some? ==> err.value == Unmatched(set k | k in nerr && !(k in run && Executed(r, glob, k))))
  {
    var st0 := InitialState(skip, nerr);
    var st := Steps(st0, run, r, fs, glob, compare);
    StepsErrors(st0, run, r, fs, glob, compare);
    var left := set k | k in nerr && !(k in run && Executed(r, glob, k));
    assert st.errors.Keys == left;
    if |st.errors| == 0 {
      assert st.errors.Keys == {};
    } else {
      var k :| k in st.errors;
      assert k in left;
    }
  }

  /** End to end: the tests `Run` reports are in group order. */
  lemma RunOrdered(r: Runner, versions: Versions, glob: Matcher, compare: Comparer, nerr: map<string, string>)
    requires r.files.Some?
    requires r.version in versions ==> ChainEnds(versions, versions[r.version], |versions|)
    requires FindTestsSpec(r, versions, glob).Ok?
    ensures var tests := RunSpec(r, versions, glob, compare, nerr).0.tests;
      forall i, j :: 0 <= i < j < |tests| ==> Rank(tests[i].path) <= Rank(tests[j].path)
  {
    var fs := r.files.value;
    var (skip, run) := FindTestsSpec(r, versions, glob).value;
    var ls := ListSpec(fs, r.version, versions, glob).value;
    FindTestsCounts(r, versions, glob);
    ListOrdered(fs, r.version, versions, glob);
    assert forall x :: x in run ==> x in ls;
    assert forall x :: x in ls ==> Grouped(x);
    ExecuteOrdered(skip, run, nerr, r, fs, glob, compare);
  }
}
