/**
  `toml-test copy` (cmd/toml-test/copy.go): writes every file of the listed tests, plus
  `.gitattributes`, from the test-file system into one destination directory. The
  destination is modelled as the map of files written, from path to content.
*/
module CmdCopy {
  import opened Common
  import opened Text
  import opened Sorting
  import GoPath
  import TomlTest
  import CmdList

  /** `filepath.Join(d, f)` on slash-separated paths: empty elements are ignored. */
  function JoinPath(d: string, f: string): string {
    if d != "" then GoPath.Join2(d, f)
    else if f == "" then ""
    else GoPath.Clean(f)
  }

  /** The files copied: the listing without encoder tests, then `.gitattributes`. */
  function CopyList(l: seq<string>): (r: seq<string>)
    ensures |r| >= 1 && r[|r| - 1] == ".gitattributes"
  {
    CmdList.Expand(l, false) + [".gitattributes"]
  }

  const OpenPrefix: string := "open "
  const DoesNotExist: string := ": file does not exist"
  /** What `os.MkdirAll("", 0o777)` reports: there is no directory with an empty name. */
  const MkdirEmpty: string := "mkdir : no such file or directory"

  /** The copy loop: each file, in order, read from `fsys` and written under `d`; the
      first file that cannot be opened is fatal. */
  function Written(d: string, files: seq<string>, fsys: TomlTest.FS): Result<map<string, string>> {
    if |files| == 0 then Ok(map[])
    else
      match Written(d, files[..|files| - 1], fsys)
      case Err(m) => Err(m)
      case Ok(out) =>
        var f := files[|files| - 1];
        if f !in fsys then Err(OpenPrefix + f + DoesNotExist)
        else Ok(out[JoinPath(d, f) := fsys[f]])
  }

  /** `cmdCopy` given its arguments and the runner's listing. */
  function CopySpec(args: seq<string>, listed: Result<seq<string>>, fsys: TomlTest.FS): Result<map<string, string>> {
    if |args| != 1 then Err("need exactly one destination directory")
    else
      match CmdList.GetListSpec(listed, false)
      case Err(m) => Err(m)
      case Ok(l) =>
        if args[0] == "" then Err(MkdirEmpty)
        else Written(args[0], l + [".gitattributes"], fsys)
  }

  /** `cmdCopy`: exactly one destination directory, then every listed file copied. */
  method Copy(r: TomlTest.Runner, versions: TomlTest.Versions, glob: TomlTest.Matcher,
              args: seq<string>, fsys: TomlTest.FS)
    returns (res: Result<map<string, string>>)
    requires r.files.Some?
    requires r.version in versions ==> TomlTest.ChainEnds(versions, versions[r.version], |versions|)
    ensures res == CopySpec(args, TomlTest.ListSpec(r.files.value, r.version, versions, glob), fsys)
  {
    if |args| != 1 {
      return Err("need exactly one destination directory");
    }
    var listed := CmdList.GetList(r, versions, glob, false);
    if listed.Err? {
      return Err(listed.msg);
    }
    var files := listed.value + [".gitattributes"];
    var d := args[0];
    if d == "" {
      return Err(MkdirEmpty);
    }
    res := CopyFiles(d, files, fsys);
  }

  /** The loop of `cmdCopy` over the files. */
  method CopyFiles(d: string, files: seq<string>, fsys: TomlTest.FS) returns (res: Result<map<string, string>>)
    ensures res == Written(d, files, fsys)
  {
    var out: map<string, string> := map[];
    for i := 0 to |files|
      invariant Written(d, files[..i], fsys) == Ok(out)
    {
      assert files[..i + 1][..i] == files[..i];
      var f := files[i];
      if f !in fsys {
        WrittenStops(d, files, i + 1, fsys);
        return Err("open " + f + ": file does not exist");
      }
      out := out[JoinPath(d, f) := fsys[f]];
    }
    assert files[..|files|] == files;
    return Ok(out);
  }

  // ---------------------------------------------------------------- properties

  /** Once a prefix of the files fails, the whole copy fails the same way. */
  lemma {:induction false} WrittenStops(d: string, files: seq<string>, k: nat, fsys: TomlTest.FS)
    requires k <= |files| && Written(d, files[..k], fsys).Err?
    ensures Written(d, files, fsys) == Written(d, files[..k], fsys)
    decreases |files| - k
  {
    if k < |files| {
      var init := files[..|files| - 1];
      assert init[..k] == files[..k];
      WrittenStops(d, init, k, fsys);
    } else {
      assert files[..k] == files;
    }
  }

  /** The copy succeeds exactly when every file exists. */
  lemma {:induction false} WrittenOk(d: string, files: seq<string>, fsys: TomlTest.FS)
    ensures Written(d, files, fsys).Ok? <==> forall i :: 0 <= i < |files| ==> files[i] in fsys
    decreases |files|
  {
    if |files| > 0 {
      var init := files[..|files| - 1];
      var f := files[|files| - 1];
      WrittenOk(d, init, fsys);
      assert forall i :: 0 <= i < |init| ==> init[i] == files[i];
      if Written(d, init, fsys).Ok? && f in fsys {
        assert Written(d, files, fsys).Ok?;
      } else {
        assert Written(d, files, fsys).Err?;
      }
    }
  }

  /** A successful copy writes exactly one destination per file. */
  lemma {:induction false} WrittenKeys(d: string, files: seq<string>, fsys: TomlTest.FS)
    requires Written(d, files, fsys).Ok?
    ensures forall p :: p in Written(d, files, fsys).value <==>
              exists i :: 0 <= i < |files| && p == JoinPath(d, files[i])
    decreases |files|
  {
    if |files| > 0 {
      var init := files[..|files| - 1];
      var f := files[|files| - 1];
      WrittenKeys(d, init, fsys);
      var out := Written(d, init, fsys).value;
      assert Written(d, files, fsys).value == out[JoinPath(d, f) := fsys[f]];
      assert forall i :: 0 <= i < |init| ==> init[i] == files[i];
    }
  }

  /** In a successful copy, a file whose destination no later file shares is written
      with its own content. */
  lemma {:induction false} WrittenContent(d: string, files: seq<string>, fsys: TomlTest.FS, i: nat)
    requires Written(d, files, fsys).Ok? && i < |files|
    requires forall j :: i < j < |files| ==> JoinPath(d, files[j]) != JoinPath(d, files[i])
    ensures files[i] in fsys && JoinPath(d, files[i]) in Written(d, files, fsys).value
    ensures Written(d, files, fsys).value[JoinPath(d, files[i])] == fsys[files[i]]
    decreases |files|
  {
    var init := files[..|files| - 1];
    if i < |files| - 1 {
      assert forall j :: i < j < |init| ==> init[j] == files[j];
      WrittenContent(d, init, fsys, i);
    }
  }

  /** A plain relative destination and a plain relative file name are joined with `/`. */
  lemma Destination(d: string, f: string)
    requires d != "" && f != "" && d[0] != '/'
    requires forall i :: 0 <= i < |Split(d, '/')| ==> GoPath.Plain(Split(d, '/')[i])
    requires forall i :: 0 <= i < |Split(f, '/')| ==> GoPath.Plain(Split(f, '/')[i])
    ensures JoinPath(d, f) == d + "/" + f
  {
    GoPath.Join2Plain(d, f);
  }

  /** The copy succeeds exactly when there is one non-empty argument, the listing
      succeeds and every file of the list, `.gitattributes` included, exists. */
  lemma CopySucceeds(args: seq<string>, listed: Result<seq<string>>, fsys: TomlTest.FS)
    ensures CopySpec(args, listed, fsys).Ok? <==>
      && |args| == 1 && args[0] != "" && listed.Ok?
      && forall f :: f in CopyList(SortBy(listed.value, CmdList.Id)) ==> f in fsys
  {
    if |args| == 1 && args[0] != "" && listed.Ok? {
      var files := CopyList(SortBy(listed.value, CmdList.Id));
      WrittenOk(args[0], files, fsys);
      assert forall f :: f in files <==> exists i :: 0 <= i < |files| && files[i] == f;
    }
  }
}
