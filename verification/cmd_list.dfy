/**
  The file list of the `toml-test` command (cmd/toml-test/list.go, and the same loop in
  copy.go and main.go): the runner's test names, sorted, each expanded to the files
  that make up the test.
*/
module CmdList {
  import opened Common
  import opened Text
  import opened Sorting
  import TomlTest

  function Id(s: string): string { s }

  /** The files of one listed test: `.json` then `.toml` for a valid test, `.toml` alone
      for the others; an encoder test gives nothing unless `keepEncoder`. */
  function Entry(e: string, keepEncoder: bool): seq<string> {
    if !keepEncoder && StartsWith(e, "encoder/") then []
    else (if StartsWith(e, "valid/") then [e + ".json"] else []) + [e + ".toml"]
  }

  /** The expansion loop of `getList`, over an already sorted list. */
  function Expand(l: seq<string>, keepEncoder: bool): seq<string> {
    if |l| == 0 then [] else Expand(l[..|l| - 1], keepEncoder) + Entry(l[|l| - 1], keepEncoder)
  }

  /** `getList` as a whole: the runner's listing fails, or is sorted and expanded. */
  function GetListSpec(listed: Result<seq<string>>, keepEncoder: bool): Result<seq<string>> {
    match listed
    case Err(m) => Err(m)
    case Ok(l) => Ok(Expand(SortBy(l, Id), keepEncoder))
  }

  /** `getList`: sorts the runner's listing and expands every test to its files. */
  method GetList(r: TomlTest.Runner, versions: TomlTest.Versions, glob: TomlTest.Matcher, keepEncoder: bool)
    returns (res: Result<seq<string>>)
    requires r.files.Some?
    requires r.version in versions ==> TomlTest.ChainEnds(versions, versions[r.version], |versions|)
    ensures res == GetListSpec(TomlTest.ListSpec(r.files.value, r.version, versions, glob), keepEncoder)
  {
    var listed := TomlTest.List(r, versions, glob);
    if listed.Err? {
      return Err(listed.msg);
    }
    var n := ExpandList(SortBy(listed.value, Id), keepEncoder);
    return Ok(n);
  }

  /** The expansion loop of `getList`. */
  method ExpandList(l: seq<string>, keepEncoder: bool) returns (n: seq<string>)
    ensures n == Expand(l, keepEncoder)
  {
    n := [];
    for i := 0 to |l|
      invariant n == Expand(l[..i], keepEncoder)
    {
      assert l[..i + 1][..i] == l[..i];
      var ll := l[i];
      if !keepEncoder && StartsWith(ll, "encoder/") {
        continue;
      }
      if StartsWith(ll, "valid/") {
        n := n + [ll + ".json"];
      }
      n := n + [ll + ".toml"];
    }
    assert l[..|l|] == l;
  }

  // ---------------------------------------------------------------- properties

  /** The number of entries of `l` with prefix `p`. */
  function CountPrefix(l: seq<string>, p: string): (n: nat)
    ensures n <= |l|
  {
    if |l| == 0 then 0
    else CountPrefix(l[..|l| - 1], p) + (if StartsWith(l[|l| - 1], p) then 1 else 0)
  }

  /** The expansion of a concatenation is the concatenation of the expansions, so each
      test's files come together and in the order of the tests. */
  lemma {:induction false} ExpandAppend(a: seq<string>, b: seq<string>, keepEncoder: bool)
    ensures Expand(a + b, keepEncoder) == Expand(a, keepEncoder) + Expand(b, keepEncoder)
    decreases |b|
  {
    if |b| == 0 {
      assert a + b == a;
    } else {
      var init := b[..|b| - 1];
      var last := b[|b| - 1];
      assert (a + b)[..|a + b| - 1] == a + init;
      assert (a + b)[|a + b| - 1] == last;
      assert Expand(a + b, keepEncoder) == Expand(a + init, keepEncoder) + Entry(last, keepEncoder);
      ExpandAppend(a, init, keepEncoder);
      assert Expand(b, keepEncoder) == Expand(init, keepEncoder) + Entry(last, keepEncoder);
    }
  }

  /** One file per non-encoder test plus one more per valid test (every test counted
      when encoder tests are kept). */
  lemma {:induction false} ExpandCount(l: seq<string>, keepEncoder: bool)
    ensures |Expand(l, keepEncoder)|
         == |l| - (if keepEncoder then 0 else CountPrefix(l, "encoder/")) + CountPrefix(l, "valid/")
    decreases |l|
  {
    if |l| > 0 {
      ExpandCount(l[..|l| - 1], keepEncoder);
      var e := l[|l| - 1];
      if StartsWith(e, "encoder/") {
        assert e[0] == 'e';
        assert !StartsWith(e, "valid/");
      }
    }
  }

  /** A file is listed exactly when it belongs to a listed test that is kept. */
  lemma {:induction false} ExpandMember(l: seq<string>, keepEncoder: bool, x: string)
    ensures x in Expand(l, keepEncoder) <==>
      exists e :: e in l && (keepEncoder || !StartsWith(e, "encoder/"))
                  && (x == e + ".toml" || (StartsWith(e, "valid/") && x == e + ".json"))
    decreases |l|
  {
    if |l| > 0 {
      var init := l[..|l| - 1];
      var e := l[|l| - 1];
      ExpandMember(init, keepEncoder, x);
      assert l == init + [e];
      assert forall y :: y in l <==> y in init || y == e;
    }
  }
}
