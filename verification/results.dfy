/**
  The `result` record of the stand-alone `toml-test` program (results.go) and the
  small value-receiver helpers on it: each returns an updated copy.
*/
module Results {
  import opened Common
  import opened Text

  /** `result`: one test's outcome; `err` is an unexpected error, `failure` a test failure. */
  datatype TestResult = TestResult(
    testName: string,
    err: Option<string>,
    valid: bool,
    skipped: bool,
    failure: string,
    key: string,
    input: string,
    output: string,
    want: string,
    fromStderr: bool)

  /** A result with only the test name and kind set. */
  function NewResult(name: string, valid: bool): TestResult {
    TestResult(name, None, valid, false, "", "", "", "", "", false)
  }

  /** `errorf`: records an unexpected error. */
  function Errorf(r: TestResult, msg: string): (s: TestResult)
    ensures s == r.(err := Some(msg))
    ensures Failed(s)
  {
    r.(err := Some(msg))
  }

  /** `failedf`: records a failure message. */
  function Failedf(r: TestResult, msg: string): (s: TestResult)
    ensures s == r.(failure := msg)
    ensures msg != "" ==> Failed(s)
  {
    r.(failure := msg)
  }

  const BugPrefix: string := "BUG IN TEST CASE: "

  /** `bugf`: a failure blamed on the test case; it always fails. */
  function Bugf(r: TestResult, msg: string): (s: TestResult)
    ensures s == r.(failure := s.failure)
    ensures StartsWith(s.failure, BugPrefix) && s.failure[|BugPrefix|..] == msg
    ensures Failed(s)
  {
    var s := Failedf(r, BugPrefix + msg);
    assert s.failure[..|BugPrefix|] == BugPrefix;
    s
  }

  /** `kjoin`: descends into key `k` of the document, extending the dotted key path. */
  function Kjoin(r: TestResult, k: string): (s: TestResult)
    ensures s == r.(key := s.key)
    ensures r.key == "" ==> s.key == k
    ensures r.key != "" ==> s.key == r.key + "." + k
  {
    if |r.key| == 0 then r.(key := k) else r.(key := r.key + "." + k)
  }

  /** Following non-empty keys `ks` from the top gives their dotted path. */
  lemma {:induction false} KjoinPath(r: TestResult, ks: seq<string>)
    requires |ks| >= 1 && forall i :: 0 <= i < |ks| ==> ks[i] != ""
    ensures KjoinAll(r.(key := ""), ks).key == Join(ks, ".")
    decreases |ks|
  {
    if |ks| > 1 {
      var last := ks[|ks| - 1];
      var init := ks[..|ks| - 1];
      KjoinPath(r, init);
      assert ks == init + [last];
      JoinSnoc(init, last, ".");
      assert init[0] != "";
      JoinNonEmpty(init, ".");
    }
  }

  /** `kjoin` applied for each of `ks` in turn. */
  function KjoinAll(r: TestResult, ks: seq<string>): TestResult
    decreases |ks|
  {
    if |ks| == 0 then r else Kjoin(KjoinAll(r, ks[..|ks| - 1]), ks[|ks| - 1])
  }

  lemma {:induction false} JoinSnoc(parts: seq<string>, last: string, sep: string)
    requires |parts| >= 1
    ensures Join(parts + [last], sep) == Join(parts, sep) + sep + last
    decreases |parts|
  {
    if |parts| == 1 {
      assert parts + [last] == [parts[0]] + [last];
      JoinCons(parts[0], [last], sep);
    } else {
      assert parts + [last] == [parts[0]] + (parts[1..] + [last]);
      JoinCons(parts[0], parts[1..] + [last], sep);
      JoinSnoc(parts[1..], last, sep);
      JoinCons(parts[0], parts[1..], sep);
      assert parts == [parts[0]] + parts[1..];
    }
  }

  lemma JoinNonEmpty(parts: seq<string>, sep: string)
    requires |parts| >= 1 && parts[0] != ""
    ensures Join(parts, sep) != ""
  {
    if |parts| > 1 {
      assert parts == [parts[0]] + parts[1..];
      JoinCons(parts[0], parts[1..], sep);
      assert |Join(parts, sep)| >= |parts[0]|;
    }
  }

  /** `s` differs from `r` at most in the key path and the failure message. */
  predicate SameTest(r: TestResult, s: TestResult) {
    s == r.(key := s.key, failure := s.failure)
  }

  /** `failed`: an error or a non-empty failure message. */
  predicate Failed(r: TestResult) {
    r.err.Some? || |r.failure| > 0
  }

  /** `pathTest`: the input file; `.json` when testing an encoder, else `.toml`, for
      valid and invalid tests alike. */
  function PathTest(r: TestResult, flagEncoder: bool): (p: string)
    ensures p == r.testName + (if flagEncoder then ".json" else ".toml")
  {
    var ext := if flagEncoder then "json" else "toml";
    if r.valid then r.testName + "." + ext else r.testName + "." + ext
  }

  /** `pathGold`: the expected output, only for valid tests (Go panics otherwise):
      the other extension than the input's. */
  function PathGold(r: TestResult, flagEncoder: bool): (p: string)
    requires r.valid
    ensures p == r.testName + (if flagEncoder then ".toml" else ".json")
    ensures p != PathTest(r, flagEncoder)
  {
    var p := if flagEncoder then r.testName + ".toml" else r.testName + ".json";
    assert p[|p| - 2] != PathTest(r, flagEncoder)[|p| - 2];
    p
  }
}
