/**
  Running the parser under test on one test case and judging its output (results.go):
  the input file is read from the test-file system, fed to the parser command on its
  standard input, and its output is compared with the expected document. The command,
  the file system and the JSON and TOML decoders are parameters.
*/
module ParserRun {
  import opened Common
  import opened Text
  import opened Results
  import JsonCmp
  import TomlCmp

  /** The messages `runParser` and `runValidTest` report. */
  const OpenPrefix: string := "open "
  const DoesNotExist: string := ": file does not exist"
  const NoErrorReported: string := "Expected an error, but no error was reported."
  const EmptyStdout: string := "stdout is empty but the parser exited successfully"
  const CouldNotDecodeToml: string := "Could not decode TOML file "
  const CouldNotDecodeJson: string := "Could not decode JSON file "
  const DecodeIndent: string := ":\n  "
  const DecodeTomlFromEncoder: string := "decode TOML from encoder:\n  "
  const DecodeJsonFromParser: string := "decode JSON output from parser:\n  "

  /** Why `exec.Cmd.Run` failed: the command exited with a non-zero status, or it could
      not be run at all (or, for `runParser`, the input file could not be read). */
  datatype ExecError = ExitError(msg: string) | OtherError(msg: string)

  /** What running the parser command produced. */
  datatype Exec = Exec(stdout: string, stderr: string, err: Option<ExecError>)

  /** The parser command: standard input to what it produced. */
  type Command = string -> Exec

  /** The embedded test files, by path. */
  type Files = map<string, string>

  /** A decoder of JSON text (`json.Unmarshal`) or TOML text (`toml.Decode`). */
  type JsonDecoder = string -> Result<JsonCmp.Json>
  type TomlDecoder = string -> Result<TomlCmp.TValue>

  /** The output a run shows: its standard error when that is non-empty, else its
      standard output, trimmed and ended by one newline. */
  function Output(x: Exec): (s: string)
    ensures |s| > 0 && s[|s| - 1] == '\n'
    ensures |x.stderr| > 0 ==> s[..|s| - 1] == TrimSpace(x.stderr)
    ensures |x.stderr| == 0 ==> s[..|s| - 1] == TrimSpace(x.stdout)
  {
    var s := TrimSpace(if |x.stderr| > 0 then x.stderr else x.stdout) + "\n";
    assert s[..|s| - 1] == TrimSpace(if |x.stderr| > 0 then x.stderr else x.stdout);
    s
  }

  /** What `runParser` returns besides the updated result: both streams, except that the
      standard error is withheld when the command succeeded, and the error. */
  datatype ParserOut = ParserOut(r: TestResult, stdout: Option<string>, stderr: Option<string>,
                                 err: Option<ExecError>)

  /** `runParser`: reads the test's input, runs the command on it and records input and
      output in the result. */
  function RunParser(r: TestResult, flagEncoder: bool, files: Files, cmd: Command): (o: ParserOut)
    ensures PathTest(r, flagEncoder) !in files ==>
              o.r == r && o.stdout.None? && o.stderr.None? && o.err.Some? && o.err.value.OtherError?
    ensures PathTest(r, flagEncoder) in files ==>
              var x := cmd(files[PathTest(r, flagEncoder)]);
              && o.r == r.(input := files[PathTest(r, flagEncoder)], output := Output(x),
                           fromStderr := r.fromStderr || |x.stderr| > 0)
              && o.err == x.err && o.stdout == Some(x.stdout)
              && (o.stderr.Some? <==> x.err.Some?)
              && (o.stderr.Some? ==> o.stderr.value == x.stderr)
  {
    var path := PathTest(r, flagEncoder);
    if path !in files then
      ParserOut(r, None, None, Some(OtherError(OpenPrefix + path + DoesNotExist)))
    else
      var data := files[path];
      var x := cmd(data);
      var r1 := r.(input := data);
      var r2 := if |x.stderr| > 0 then r1.(output := Output(x), fromStderr := true)
                else r1.(output := Output(x));
      if x.err.Some? then ParserOut(r2, Some(x.stdout), Some(x.stderr), x.err)
      else ParserOut(r2, Some(x.stdout), None, None)
  }

  // ---------------------------------------------------------------- invalid tests

  /** `runInvalidTest`: the parser must reject the input by exiting with an error. */
  function RunInvalidTest(name: string, flagEncoder: bool, files: Files, cmd: Command): (r: TestResult)
    ensures r.testName == name && !r.valid && !r.skipped
  {
    var o := RunParser(NewResult(name, false), flagEncoder, files, cmd);
    if o.err.Some? then
      if o.err.value.ExitError? then o.r else Errorf(o.r, o.err.value.msg)
    else if o.stderr.Some? then o.r
    else Failedf(o.r, NoErrorReported)
  }

  /** An invalid test passes exactly when its input exists and the parser exits with a
      non-zero status; a missing input or a command that cannot run is an error rather
      than a failure. */
  lemma InvalidVerdict(name: string, flagEncoder: bool, files: Files, cmd: Command)
    ensures var r := RunInvalidTest(name, flagEncoder, files, cmd);
      var p := name + (if flagEncoder then ".json" else ".toml");
      && (!Failed(r) <==> p in files && cmd(files[p]).err.Some? && cmd(files[p]).err.value.ExitError?)
      && (r.err.Some? <==> p !in files || (cmd(files[p]).err.Some? && cmd(files[p]).err.value.OtherError?))
      && (p in files ==> r.input == files[p] && r.output == Output(cmd(files[p])))
  {
    var r0 := NewResult(name, false);
    assert PathTest(r0, flagEncoder) == name + (if flagEncoder then ".json" else ".toml");
  }

  // ---------------------------------------------------------------- valid tests

  /** `runValidTest`: the parser must succeed, and its output must match the expected
      document (`.json` for a decoder, `.toml` for an encoder). */
  function RunValidTest(name: string, flagEncoder: bool, files: Files, cmd: Command,
                        decodeJson: JsonDecoder, decodeToml: TomlDecoder, eqv: TomlCmp.Eqv): (r: TestResult)
    ensures r.testName == name && r.valid && !r.skipped
  {
    var o := RunParser(NewResult(name, true), flagEncoder, files, cmd);
    var r := o.r;
    if o.err.Some? then
      if o.err.value.ExitError? && o.stderr.Some? && |o.stderr.value| > 0 then Failedf(r, o.stderr.value)
      else if o.err.value.ExitError? && o.stdout.Some? && |o.stdout.value| > 0 then Failedf(r, o.stdout.value)
      else Errorf(r, o.err.value.msg)
    else if o.stdout.None? then Errorf(r, EmptyStdout)
    else
      var gold := PathGold(r, flagEncoder);
      if gold !in files then Bugf(r, OpenPrefix + gold + DoesNotExist)
      else if flagEncoder then CompareToml(r.(want := files[gold]), gold, decodeToml, eqv)
      else CompareJson(r.(want := files[gold]), gold, decodeJson)
  }

  /** The encoder half of `runValidTest`, once the expected TOML text is in `r.want`:
      accepted exactly when both texts decode and agree. */
  function CompareToml(r: TestResult, gold: string, decodeToml: TomlDecoder, eqv: TomlCmp.Eqv): (s: TestResult)
    requires !Failed(r)
    ensures SameTest(r, s.(err := r.err))
    ensures !Failed(s) <==> && decodeToml(r.want).Ok? && decodeToml(r.output).Ok?
                            && TomlCmp.Agree(decodeToml(r.want).value, decodeToml(r.output).value, eqv)
  {
    match decodeToml(r.want)
    case Err(m) => Bugf(r, CouldNotDecodeToml + gold + DecodeIndent + m)
    case Ok(want) =>
      match decodeToml(r.output)
      case Err(m) => Errorf(r, DecodeTomlFromEncoder + m)
      case Ok(have) => TomlCmp.CmpTomlAgree(r, want, have, eqv); TomlCmp.CmpToml(r, want, have, eqv)
  }

  /** The decoder half of `runValidTest`, once the expected JSON text is in `r.want`:
      accepted exactly when both texts decode and agree. */
  function CompareJson(r: TestResult, gold: string, decodeJson: JsonDecoder): (s: TestResult)
    requires !Failed(r)
    ensures SameTest(r, s.(err := r.err))
    ensures !Failed(s) <==> && decodeJson(r.want).Ok? && decodeJson(r.output).Ok?
                            && JsonCmp.Agree(decodeJson(r.want).value, decodeJson(r.output).value)
  {
    match decodeJson(r.want)
    case Err(m) => Errorf(r, CouldNotDecodeJson + gold + DecodeIndent + m)
    case Ok(want) =>
      match decodeJson(r.output)
      case Err(m) => Errorf(r, DecodeJsonFromParser + m)
      case Ok(have) => JsonCmp.CmpJsonAgree(r, want, have); JsonCmp.CmpJson(r, want, have)
  }

  /** When a valid test is accepted: the input exists, the parser succeeds, the expected
      file exists, both documents decode, and the expected document agrees with the
      output. */
  predicate Accepted(name: string, flagEncoder: bool, files: Files, cmd: Command,
                     decodeJson: JsonDecoder, decodeToml: TomlDecoder, eqv: TomlCmp.Eqv)
  {
    var p := name + (if flagEncoder then ".json" else ".toml");
    var gold := name + (if flagEncoder then ".toml" else ".json");
    && p in files && cmd(files[p]).err.None? && gold in files
    && var out := Output(cmd(files[p]));
       if flagEncoder then
         && decodeToml(files[gold]).Ok? && decodeToml(out).Ok?
         && TomlCmp.Agree(decodeToml(files[gold]).value, decodeToml(out).value, eqv)
       else
         && decodeJson(files[gold]).Ok? && decodeJson(out).Ok?
         && JsonCmp.Agree(decodeJson(files[gold]).value, decodeJson(out).value)
  }

  /** A valid test passes exactly when it is `Accepted`; a parser that exits with an error
      always fails the test. */
  lemma ValidVerdict(name: string, flagEncoder: bool, files: Files, cmd: Command,
                     decodeJson: JsonDecoder, decodeToml: TomlDecoder, eqv: TomlCmp.Eqv)
    ensures var r := RunValidTest(name, flagEncoder, files, cmd, decodeJson, decodeToml, eqv);
      !Failed(r) <==> Accepted(name, flagEncoder, files, cmd, decodeJson, decodeToml, eqv)
  {
    var r0 := NewResult(name, true);
    assert PathTest(r0, flagEncoder) == name + (if flagEncoder then ".json" else ".toml");
  }
}
