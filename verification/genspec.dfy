/**
  gen-spec.py, the older stand-alone spec-to-corpus generator. Its scanner, parsers,
  classifier and variant expander are the ones in `Corpus`; what it does differently
  is choosing, for every valid case, the command that decodes the fixture.
*/
module GenSpecPy {
  import opened Text
  import opened Files
  import Corpus

  const GoRunDecoder: seq<string> := ["go", "run", "github.com/BurntSushi/toml/cmd/toml-test-decoder"]
  const PathDecoder: seq<string> := ["toml-test-decoder"]

  /**
    The decoder command of `write_valid_case`: `go run` by default; the installed
    `toml-test-decoder` only when a program named `toml-test-decoderx` is on the path
    (the name looked up is not the name run).
  */
  function DecoderCommand(decoderXOnPath: bool): (cmd: seq<string>)
    ensures cmd == PathDecoder || cmd == GoRunDecoder
    ensures cmd == PathDecoder <==> decoderXOnPath
  {
    var cmd := GoRunDecoder;
    if decoderXOnPath then PathDecoder else cmd
  }

  /**
    `main`: remove both spec roots, split the specification into lines and scan it.
    `run(cmd)` is what command `cmd` prints for a given input.
  */
  method Generate(fs: FileMap, markdown: string, decoderXOnPath: bool, run: seq<string> -> string -> string)
      returns (out: FileMap)
    ensures out == Corpus.Generated(fs, markdown, run(DecoderCommand(decoderXOnPath)))
  {
    out := Wipe(fs, {Corpus.ValidRoot});
    out := Wipe(out, {Corpus.InvalidRoot});
    Corpus.WipeBothRoots(fs);
    var lines := SplitLines(markdown);
    out := Corpus.Scan(out, lines, run(DecoderCommand(decoderXOnPath)));
  }
}
