/**
  Decisions of the `toml-test` command's entry point (cmd/toml-test/main.go): which
  file system holds the tests, what `-color` means, and which files `-cat` combines.
  The file list of `-list-files` is `CmdList.GetList` with encoder tests kept, and
  `indent`/`indentWith` are `Text.PadLines`.
*/
module CmdMain {
  import opened Common
  import opened Text
  import TomlTest

  // ---------------------------------------------------------------- getFS

  /** One entry of a directory listing. */
  datatype DirEntry = DirEntry(name: string, isDir: bool)

  /** Where the tests are read from. */
  datatype TestFS = Embedded | DirFS(dir: string) | SubTests(dir: string)

  /** The number of directories in `ls` whose name is in `names`. */
  function CountDirs(ls: seq<DirEntry>, names: set<string>): (n: nat)
    ensures n <= |ls|
  {
    if |ls| == 0 then 0
    else CountDirs(ls[..|ls| - 1], names) + (if ls[|ls| - 1].isDir && ls[|ls| - 1].name in names then 1 else 0)
  }

  /** `getFS`, given the listing of the test directory when one was set. */
  function GetFSSpec(testDir: string, dirSet: bool, listing: Result<seq<DirEntry>>): Result<TestFS> {
    if !dirSet then Ok(Embedded)
    else if listing.Err? then Err(listing.msg)
    else if CountDirs(listing.value, {"valid", "invalid"}) < 2 then
      if CountDirs(listing.value, {"tests"}) == 0 then
        Err(testDir + " does not seem to contain any tests (no valid and/or invalid directory)")
      else Ok(SubTests(testDir))
    else Ok(DirFS(testDir))
  }

  /** `getFS`: the embedded tests, unless a directory is set; a directory without both
      `valid` and `invalid` is entered through its `tests` sub-directory, and is fatal
      without one. */
  method GetFS(testDir: string, dirSet: bool, listing: Result<seq<DirEntry>>) returns (res: Result<TestFS>)
    ensures res == GetFSSpec(testDir, dirSet, listing)
  {
    if !dirSet {
      return Ok(Embedded);
    }
    if listing.Err? {
      return Err(listing.msg);
    }
    var ls := listing.value;
    var f, t := 0, 0;
    for i := 0 to |ls|
      invariant f == CountDirs(ls[..i], {"valid", "invalid"})
      invariant t == CountDirs(ls[..i], {"tests"})
    {
      assert ls[..i + 1][..i] == ls[..i];
      var l := ls[i];
      if l.isDir && (l.name == "valid" || l.name == "invalid") {
        f := f + 1;
      }
      if l.isDir && l.name == "tests" {
        t := t + 1;
      }
    }
    assert ls[..|ls|] == ls;
    if f < 2 {
      if t == 0 {
        return Err(testDir + " does not seem to contain any tests (no valid and/or invalid directory)");
      }
      return Ok(SubTests(testDir));
    }
    return Ok(DirFS(testDir));
  }

  /** Names in a directory listing are unique. */
  predicate UniqueNames(ls: seq<DirEntry>) {
    forall i, j :: 0 <= i < j < |ls| ==> ls[i].name != ls[j].name
  }

  /** Some entry is a directory called `n`. */
  predicate HasDir(ls: seq<DirEntry>, n: string) {
    exists i :: 0 <= i < |ls| && ls[i].isDir && ls[i].name == n
  }

  /** In a listing with unique names, each of `valid` and `invalid` counts once when it
      is a directory, so the directory's own tests are used exactly when both are. */
  lemma {:induction false} BothDirs(ls: seq<DirEntry>)
    requires UniqueNames(ls)
    ensures CountDirs(ls, {"valid", "invalid"})
         == (if HasDir(ls, "valid") then 1 else 0) + (if HasDir(ls, "invalid") then 1 else 0)
    ensures CountDirs(ls, {"tests"}) == if HasDir(ls, "tests") then 1 else 0
    decreases |ls|
  {
    if |ls| > 0 {
      var init := ls[..|ls| - 1];
      var e := ls[|ls| - 1];
      BothDirs(init);
      assert forall i :: 0 <= i < |init| ==> init[i] == ls[i];
      assert forall n :: HasDir(ls, n) <==> HasDir(init, n) || (e.isDir && e.name == n);
      if e.isDir {
        assert !HasDir(init, e.name);
      }
    }
  }

  // ---------------------------------------------------------------- -color

  /** Whether colour is wanted, and whether errors are only shown in bold. */
  datatype ColorMode = ColorMode(color: bool, boldOnly: bool)

  /** The accepted values of `-color`. */
  const ColorOn: set<string> := {"always", "yes"}
  const ColorOff: set<string> := {"never", "no", "none", "off"}
  const ColorBold: set<string> := {"bold", "monochrome"}

  /** The `-color` switch of `parseFlags`; `noColorSet` says whether `NO_COLOR` is in the
      environment, `flag` is the flag's value when it was given. */
  function Color(noColorSet: bool, flag: Option<string>): (r: Result<ColorMode>)
    ensures r.Ok? <==> flag.None? || flag.value in ColorOn + ColorOff + ColorBold
    ensures flag.None? ==> r == Ok(ColorMode(!noColorSet, false))
    ensures flag.Some? && r.Ok? ==> (r.value.color <==> flag.value !in ColorOff)
                                    && (r.value.boldOnly <==> flag.value in ColorBold)
  {
    if flag.None? then Ok(ColorMode(!noColorSet, false))
    else
      match flag.value
      case "always" => Ok(ColorMode(true, false))
      case "yes" => Ok(ColorMode(true, false))
      case "never" => Ok(ColorMode(false, false))
      case "no" => Ok(ColorMode(false, false))
      case "none" => Ok(ColorMode(false, false))
      case "off" => Ok(ColorMode(false, false))
      case "bold" => Ok(ColorMode(true, true))
      case "monochrome" => Ok(ColorMode(true, true))
      case _ => Err("invalid value for -color: " + flag.value)
  }

  /** A `-color` value given on the command line overrides `NO_COLOR` entirely. */
  lemma ColorOverridesEnv(flag: string)
    ensures Color(true, Some(flag)) == Color(false, Some(flag))
  {
  }

  // ---------------------------------------------------------------- -cat

  /** `doCat`'s test for one line of the file list: a valid `.toml` file that no skip
      pattern matches and, when run patterns are given, some run pattern matches. */
  predicate CatPicked(line: string, run: seq<string>, skip: seq<string>, glob: TomlTest.Matcher) {
    && StartsWith(line, "valid/") && EndsWith(line, ".toml")
    && !TomlTest.AnyMatch(skip, glob, line)
    && (|run| == 0 || TomlTest.AnyMatch(run, glob, line))
  }

  /** The picked lines, in order. */
  function CatLines(lines: seq<string>, run: seq<string>, skip: seq<string>, glob: TomlTest.Matcher): seq<string> {
    if |lines| == 0 then []
    else
      CatLines(lines[..|lines| - 1], run, skip, glob)
      + (if CatPicked(lines[|lines| - 1], run, skip, glob) then [lines[|lines| - 1]] else [])
  }

  /** The file selection of `doCat`: read `files-toml-<version>`, pick lines; an empty
      pick is fatal. */
  function CatSpec(fsys: TomlTest.FS, version: string, run: seq<string>, skip: seq<string>,
                   glob: TomlTest.Matcher): Result<seq<string>>
  {
    var name := "files-toml-" + version;
    if name !in fsys then Err("open " + name + ": file does not exist")
    else
      var picked := CatLines(Split(fsys[name], '\n'), run, skip, glob);
      if |picked| == 0 then Err("all files excluded") else Ok(picked)
  }

  /** The selection loop of `doCat`. */
  method CatFiles(fsys: TomlTest.FS, version: string, run: seq<string>, skip: seq<string>,
                  glob: TomlTest.Matcher) returns (res: Result<seq<string>>)
    ensures res == CatSpec(fsys, version, run, skip, glob)
  {
    var name := "files-toml-" + version;
    if name !in fsys {
      return Err("open " + name + ": file does not exist");
    }
    var lines := Split(fsys[name], '\n');
    var useFiles: seq<string> := [];
    for i := 0 to |lines|
      invariant useFiles == CatLines(lines[..i], run, skip, glob)
    {
      assert lines[..i + 1][..i] == lines[..i];
      var line := lines[i];
      if StartsWith(line, "valid/") && EndsWith(line, ".toml") {
        if TomlTest.AnyMatch(skip, glob, line) {
          continue;
        }
        if |run| > 0 && !TomlTest.AnyMatch(run, glob, line) {
          continue;
        }
        useFiles := useFiles + [line];
      }
    }
    assert lines[..|lines|] == lines;
    if |useFiles| == 0 {
      return Err("all files excluded");
    }
    return Ok(useFiles);
  }

  /** A line is combined exactly when it is in the list and picked. */
  lemma {:induction false} CatMember(lines: seq<string>, run: seq<string>, skip: seq<string>,
                                     glob: TomlTest.Matcher, x: string)
    ensures x in CatLines(lines, run, skip, glob) <==> x in lines && CatPicked(x, run, skip, glob)
    decreases |lines|
  {
    if |lines| > 0 {
      var init := lines[..|lines| - 1];
      CatMember(init, run, skip, glob, x);
      assert lines == init + [lines[|lines| - 1]];
    }
  }
}
