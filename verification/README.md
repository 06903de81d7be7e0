# toml-test, modelled in Dafny

toml-test is a language-agnostic test suite for TOML parsers and encoders. It
holds a corpus of valid and invalid TOML documents, each valid one paired with
its expected JSON form. It also holds the programs that run a parser under test
on that corpus and judge what it printed. This project models the logic of
those programs and proves what they promise. Three parts are covered.

- **Corpus generation** (gen.py, gen-spec.py, gen-multi.py). The TOML
  specification's Markdown is scanned for section headers and fenced code
  blocks. Each `toml` block becomes a valid fixture (`{header}-{index}.toml`
  plus its decoded `.json` twin) or an invalid fixture. A valid block also gets
  one invalid variant per commented `# INVALID` line. The `.multi` templates
  expand into one invalid fixture per `name = ...` line.
  - The filesystem is a map from path to content (`Files`), and a run is a
    sequence of writes.
  - The scanner, the header and block parsers, the classifier and the variant
    expander are shared by gen.py and gen-spec.py, so module `Corpus` holds them
    once. They only differ in how the decoder is run (`Gen.GenSpec`,
    `GenSpecPy.Generate`).
- **The `tomltest` library and the `toml-test` command** (runner.go,
  cmd/toml-test). This covers:
  - version normalisation, and the test file system with every `valid` path
    mirrored under `encoder`;
  - listing a version's tests through the exclusion `inherit` chain;
  - selection by `-run` patterns, with the skip count;
  - one test's outcome, and the bookkeeping of `Runner.Run`: expected errors,
    `-skip`, the tallies, the ordering valid < encoder < invalid, and unmatched
    expected errors;
  - the `-list-files`/`-copy` file lists, the `-cat` selection, the `-testdir`
    decision and the `-color` values.
- **The stand-alone `package main` program** (main.go, results.go, json.go,
  toml.go). This covers:
  - the `result` record and its helpers;
  - running the parser command and choosing its output;
  - the verdicts for invalid and valid tests;
  - the recursive comparators of the expected JSON and TOML documents against
    the parser's output;
  - the flag handling, test naming, the tally and the exit status.

The two generations do not compile together in the original repository, and
each is modelled on its own terms. `TomlTest.Test` and `Results.TestResult` are
two different records.

Each comparator (`JsonCmp`, `TomlCmp`) is a recursive function that follows the
Go code's order of checks. Each is paired with a declarative relation `Agree`
that does not depend on any visiting order. The lemmas prove three things:
- the comparator accepts exactly what `Agree` describes;
- an accepted output returns the input result unchanged;
- a rejected output changes only the failure message and the key path.

The loops over files, lines, tests and directory entries are methods, each proved
equal to a recursive specification function, and properties are proved about those
functions. `Runner.Run`'s goroutine loop is one such method (`TomlTestRun.RunAll`),
run in order. The comparators' loops over keys and array elements
(json.go:54-59, 79-86; toml.go:64-68, 94-99) are recursive functions instead
(`CmpEach`, `CmpItems`, `CmpTomlEach`, `CmpTomlItems`). They visit keys in
increasing order and are proved against `Agree`. The output loops of `-cat`
(cmd/toml-test/main.go:349-400) are not modelled.

## Model

| member | source | states |
|---|---|---|
| Files.ApplyWritesKeys | gen.py:131-143 | writing files adds exactly the written paths to the file system |
| Files.LastWriteWins | gen.py:19 | after a run of writes, a path holds the content of the last write to it (files opened for writing are truncated) |
| Files.Untouched | gen.py:131-143 | a path no write touches keeps its content |
| Files.Wipe | gen.py:41-48 | removing the fixture trees keeps exactly the paths outside them, with their contents |
| Files.WipeAfterWrites | gen.py:41-48 | wiping the trees erases every write made inside them |
| Files.Regenerate | gen.py:41-82 | wiping and then rewriting the same fixtures gives the same file system as doing it once |
| Corpus.HeaderName | gen.py:107 | the header name has the line's length; each space and `/` becomes `-`, each ASCII upper-case letter its lower-case letter, and every other character is kept |
| Corpus.ParseHeader | gen.py:87-108 | a header is recognised iff line i is non-empty, line i+1 is all dashes and line i+2 is empty; it then resumes at i+3 with the normalised name |
| Corpus.ClosingFence | gen.py:118-124 | finds the first later line that is exactly the fence, or reports that there is none |
| Corpus.ParseBlockSpec | gen.py:110-129 | a block needs a fence-prefixed line and a later closing fence; its tag is the rest of the opening line and parsing resumes past the closing fence; otherwise nothing is consumed |
| Corpus.ParseBlock | gen.py:110-129 | the accumulating loop returns exactly the block the specification function describes |
| Corpus.InvalidWrite | gen.py:131-134 | an invalid fixture lives under the invalid root, ends in `.toml` and holds the stripped block plus a newline |
| Corpus.WriteInvalidCase | gen.py:131-134 | writes exactly that one fixture |
| Corpus.AnyActive | gen.py:155-160 | the loop answers whether some line contains an active `# INVALID` marker |
| Corpus.HasActiveInvalid | gen.py:155-160 | true iff some line of the block contains `# INVALID` and does not start with `# ` |
| Corpus.MarkersFrom | gen.py:146-148 | lists only lines holding the marker, in range |
| Corpus.MarkersExact | gen.py:146-148 | lists, in increasing order, exactly the lines holding the marker |
| Corpus.Activate | gen.py:149-151 | a variant equals the parent's lines except the marked line, which loses exactly its leading `# ` |
| Corpus.CommentedWhenInactive | gen.py:150 | in a block without an active marker every marker line starts with `# `, so the assertion cannot fail |
| Corpus.VariantsShape | gen.py:145-153 | one variant per marker line, the k-th from the k-th marker, numbered from 0 |
| Corpus.ValidCaseShape | gen.py:136-153 | a valid block writes `{header}-{index}.toml`, then its decoded `.json`, then its variants in marker order |
| Corpus.WriteValidCase | gen.py:136-153 | the variant loop performs exactly those writes |
| Corpus.WriteVariant | gen.py:145-151 | one pass of the variant loop writes the variant for a marker line, if the line holds one, and leaves the writes still to come equal to the specification's |
| Corpus.Classify | gen.py:71-80 | a block emits iff it is tagged `toml` or is untagged/`toml` and starts with the marker; a block classified valid has no active marker |
| Corpus.Scan | gen.py:53-82 | the scanning loop (header, else block, else one line on) performs exactly the writes of the recursive scan |
| Corpus.ScanStep | gen.py:58-82 | one pass (header, else block, else one line on) moves forward and keeps the writes still to come equal to the recursive scan's |
| Corpus.WriteBlock | gen.py:71-80 | a block writes exactly its classified fixtures and advances the case number iff it is not ignored |
| Corpus.WipeBothRoots | gen.py:41-48 | removing the two trees one after the other removes both |
| Corpus.BlockStartsEmpty | gen.py:118-121 | every parsed block starts with an empty element, so it never starts with `# INVALID` |
| Corpus.ParsedBlockKind | gen.py:71-80 | the direct-invalid branch is never taken for a parsed block, and a block emits nothing iff its tag is not `toml` |
| Corpus.ActiveBlockInvalidOnly | gen.py:75-76 | a block with an active marker is written only as one invalid fixture |
| Corpus.UnclosedFenceSkipsOneLine | gen.py:66-82 | an unterminated fence that is not a header moves the scan exactly one line on |
| Corpus.UnderRoot | gen.py:6-7 | paths built under either root lie in the generated trees |
| Corpus.VariantsUnder | gen.py:145-153 | every variant is written inside the generated trees |
| Corpus.BlockUnder | gen.py:71-80 | every write of a block is inside the generated trees |
| Corpus.ScanUnder | gen.py:53-82 | every write of a scan is inside the generated trees |
| Corpus.GeneratedIdempotent | gen.py:41-82 | regenerating the corpus from the same specification changes nothing |
| Corpus.GeneratedKeepsOthers | gen.py:41-82 | files outside the two generated trees are left untouched |
| Gen.GenSpec | gen.py:28-82 | the generator's run is the wipe followed by the scan's writes |
| Gen.EntryName | gen.py:13 | the name has no `=` in it and neither starts nor ends with ASCII whitespace; `Gen.EntryNameField` ties it to the line |
| Gen.Field | gen.py:13 | `line.split(b'=')[0]`: the line's prefix that holds no `=` and ends at the first `=` or at the line's end |
| Gen.EntryNameField | gen.py:13 | the name is the line's characters from `NameStart` on; everything before the name in the field before the first `=` is ASCII whitespace, and so is everything after it up to that `=` (or the line's end) |
| Gen.KeptWrites | gen.py:12-20 | at most one fixture per template line |
| Gen.LastEntryWins | gen.py:19 | a template line's fixture survives when no later line writes the same path |
| Gen.HexDigit | gen.py:17 | the value `int(c, 16)` gives: the v below 16 at which `0123456789abcdef` or `0123456789ABCDEF` holds c |
| Gen.DecodeEscapesFrom | gen.py:17 | decoding never lengthens the text |
| Gen.DecodeNoEscape | gen.py:17 | text in which no escape starts is decoded to itself |
| Gen.DropExtension | gen.py:11 | drops exactly the last six characters (`.multi`) |
| Gen.DirName | gen.py:11 | the directory part is a prefix of the path, and empty without a slash |
| Gen.DirNameJoin | gen.py:18 | the directory of `d/name` is `d` |
| Gen.KeptStep | gen.py:12-20 | one more template line adds its fixture, if it has one, on top of the earlier ones |
| Gen.WriteLine | gen.py:12-20 | a template line writes its fixture when its name is non-empty and not a comment, and otherwise leaves the files alone |
| Gen.WriteTemplate | gen.py:12-20 | the per-line loop performs exactly the template's writes |
| Gen.GenMulti | gen.py:9-20 | the per-file loop performs exactly the writes of all templates in order |
| Gen.EntryPathsDiffer | gen.py:18 | different names give different fixture paths |
| Gen.MultiLastLineWins | gen.py:9-20 | the fixture `dirname(f[:-6])/name.toml` holds the escape-decoded line of the last entry with that name |
| Gen.PlainLineVerbatim | gen.py:17 | a line without a backslash is written verbatim |
| Gen.DecodePlainStretch | gen.py:17 | text in which no escape starts is copied to the output unchanged |
| Gen.DecodeFirstEscape | gen.py:17 | the first `\xHH` after a non-backslash becomes the character with code `0xHH`; the text before it is kept and decoding goes on after the four characters |
| Gen.EscapedBackslashKept | gen.py:17 | a `\x` right after a backslash is kept as `\x` in the output (the look-behind) |
| Gen.AfterBackslashVerbatim | gen.py:17 | the character after a backslash is copied as it is |
| Gen.LineStartVerbatim | gen.py:17 | the first character of a line is never the start of an escape, since the look-behind needs a character before it |
| GenSpecPy.DecoderCommand | gen-spec.py:138-140 | the installed decoder is used iff `toml-test-decoderx` is on the path, else `go run` |
| GenSpecPy.Generate | gen-spec.py:16-67 | the script's run is the shared corpus generation with that decoder |
| GenMultiPy.Prefix | gen-multi.py:6 | the template path minus `.multi`, then `-` |
| GenMultiPy.LineFixture | gen-multi.py:8-12 | a line makes a fixture iff its name is neither empty nor a comment, and the fixture holds the line verbatim |
| GenMultiPy.WriteTemplate | gen-multi.py:7-12 | the per-line loop performs exactly the template's writes |
| GenMultiPy.Run | gen-multi.py:5-12 | the per-file loop performs exactly the writes of all templates |
| GenMultiPy.LastLineWins | gen-multi.py:7-12 | `base-name.toml` holds the last line with that name, verbatim |
| GenMultiPy.PrefixPathsDiffer | gen-multi.py:11 | different names give different fixture paths |
| TomlTest.NormalizeVersion | runner.go:104-110 | `""`/`1.0` become `1.0.0`, `1.1` becomes `1.1.0`, `latest` becomes the default, and anything else is unchanged |
| TomlTest.MirrorBack | runner.go:69-70 | a mirrored `valid` path starts with `encoder` and maps back to the original |
| TomlTest.TestCases | runner.go:40-83 | every file is kept; every `valid` path also appears as `encoder`+rest with the same data; nothing else is added |
| TomlTest.NewRunner | runner.go:103-115 | normalises the version, fills in the test files when missing, and changes nothing else |
| TomlTest.NewRunnerIdempotent | runner.go:103-115 | applying `NewRunner` twice is the same as once |
| TomlTest.Type | runner.go:637-648 | invalid iff the path starts with `invalid`, encoder iff with `encoder`, otherwise valid |
| TomlTest.Fail | runner.go:650-653 | sets the failure; the test then failed iff the message is non-empty |
| TomlTest.Bug | runner.go:659-661 | the failure is `BUG IN TEST CASE: ` then the message, and the test always fails |
| TomlTest.InputWantSwap | runner.go:540-560 | encoder tests read `.json` and compare with `.toml`, decoder tests the other way round; the two files differ |
| TomlTest.ReadFile | runner.go:542-546 | reading succeeds iff the file exists, giving its content; failures carry a message |
| TomlTest.RunTest | runner.go:458-463 | running a test keeps its path and skip flag |
| TomlTest.InvalidOutcome | runner.go:465-486 | an invalid test passes iff its input exists and the parser, without a timeout or error, reported on stderr |
| TomlTest.ValidOutcome | runner.go:488-537 | a valid test passes iff its input exists, the parser ran cleanly with non-empty stdout, the wanted file exists and the comparison agrees |
| TomlTest.Mirrors | runner.go:190-194 | every `valid` exclusion gets an `encoder` mirror |
| TomlTest.ChainLength | runner.go:189-201 | a terminating `inherit` chain has between 1 and n+1 versions |
| TomlTest.ExcludeChainUnion | runner.go:189-201 | the exclusion list is the union of the own exclusions (with mirrors) along the chain |
| TomlTest.ExcludeChainMirrored | runner.go:190-195 | every excluded `valid` pattern is also excluded as `encoder` |
| TomlTest.Within | runner.go:350 | the walk below a directory keeps exactly the paths inside it |
| TomlTest.FindTomlSpec | runner.go:354-365 | keeps at most one name per walked path, and no kept name matches an exclusion |
| TomlTest.FindTomlSound | runner.go:354-365 | every listed name is a walked `.toml` file with the suffix stripped |
| TomlTest.FindTomlComplete | runner.go:354-365 | every walked `.toml` file that no exclusion matches is listed |
| TomlTest.FindTomlWalk | runner.go:350-367 | the walk appends exactly the specification's names |
| TomlTest.FindToml | runner.go:343-368 | appends the found names of a directory to the list; a missing directory adds nothing and no error |
| TomlTest.List | runner.go:174-212 | the listing, an unknown version error included, equals the specification function |
| TomlTest.OwnExclude | runner.go:190-194 | the loop leaves a version's patterns followed by the `encoder` mirror of each `valid` one, in order |
| TomlTest.FoundInDir | runner.go:350-365 | names found under a directory keep its prefix |
| TomlTest.FoundOrdered | runner.go:203-211 | the concatenated listing is grouped valid, then encoder, then invalid |
| TomlTest.ListOrdered | runner.go:174-212 | a successful listing is ordered valid < encoder < invalid |
| TomlTest.Selected | runner.go:381-390 | selection keeps exactly the listed names matching some run pattern, in order |
| TomlTest.ExpandMulti | runner.go:393-408 | `.multi` entries are dropped and all others kept; it fails iff some `.multi` entry's file is missing |
| TomlTest.SelectTests | runner.go:381-390 | the selection loop computes the specification |
| TomlTest.ExpandTests | runner.go:393-408 | the expansion loop, with its early error return, computes the specification |
| TomlTest.FindTests | runner.go:371-411 | `findTests` equals its specification function |
| TomlTest.ExpandMultiErrSticks | runner.go:401-404 | once a `.multi` read fails, later entries do not change the error |
| TomlTest.ListedHasFile | runner.go:354-365 | every listed test has its `.toml` file |
| TomlTest.FindTestsAfterList | runner.go:371-411 | when listing succeeds, finding the tests succeeds |
| TomlTest.FindTestsCounts | runner.go:371-411 | run tests are listed and not `.multi`; skip is 0 without patterns, and otherwise the listed count minus the selected count, with each run test matching a pattern |
| TomlTestRun.ErrorKey | runner.go:237-240 | keys under `invalid/` only lose a trailing `.toml` |
| TomlTestRun.TrimBelowInvalid | runner.go:240 | trimming `.toml` after the `invalid/` prefix only affects the name's own suffix |
| TomlTestRun.ErrorKeyPlain | runner.go:237-240 | a plain relative key becomes `invalid/` + key, without its `.toml` |
| TomlTestRun.ErrorKeyJoin | runner.go:237-240 | for plain keys, `path.Join` is concatenation with `invalid/` |
| TomlTestRun.JoinInvalid | runner.go:238 | `path.Join("invalid", k)` is `invalid/k` for plain relative keys |
| TomlTestRun.ErrorKeyOther | runner.go:237-240 | keys outside `invalid/` are joined below it, then trimmed |
| TomlTestRun.NormaliseErrors | runner.go:235-242 | every key is filed under its normalised key, and each normalised entry comes from some original key |
| TomlTestRun.NotContainedMsg | runner.go:284 | the "does not contain" failure is non-empty |
| TomlTestRun.Count | runner.go:303-319 | each counted test bumps exactly one counter and never the skip counter |
| TomlTestRun.Checked | runner.go:283-285 | a passing invalid test with an expected error passes only if its output contains that error; failed tests are untouched |
| TomlTestRun.RunStep | runner.go:253-323 | one pass of the loop updates results, counters and expected errors exactly as one step of the specification |
| TomlTestRun.RunAll | runner.go:253-323 | the loop over the tests to run equals the sequential specification of one step per test |
| TomlTestRun.Run | runner.go:221-339 | the outcome is the specification for some normalisation of the expected errors (Go's map order decides which) |
| TomlTestRun.Paths | runner.go:326-330 | a list's paths, position by position |
| TomlTestRun.Kept | runner.go:259-261 | kept exactly the tests not dropped for lack of an encoder |
| TomlTestRun.CountWhere | runner.go:302-320 | helper bound only: a count never exceeds the number of tests (what the counters hold is stated by `TomlTestRun.ExecuteCounts`) |
| TomlTestRun.StepShape | runner.go:253-323 | each step appends one test for its path, or nothing when it is dropped; it adds 1 to exactly one counter; a skipped test never fails; the expected error is consumed exactly when the test ran |
| TomlTestRun.PathsAppend | runner.go:320 | paths distribute over appended results |
| TomlTestRun.CountAppend | runner.go:302-320 | counts distribute over appended results |
| TomlTestRun.StepsPaths | runner.go:253-323 | the results are the kept tests, in run order |
| TomlTestRun.StepsTally | runner.go:253-323 | the counters grow by exactly the tests appended, with skipped and failed counted by their results; each result obeys the skip rule |
| TomlTestRun.StepsErrors | runner.go:283-286 | expected errors left over are exactly those whose test was not run |
| TomlTestRun.CountPermutation | runner.go:326-330 | reordering results keeps every count |
| TomlTestRun.PathsPermutation | runner.go:326-330 | reordering results keeps the multiset of paths |
| TomlTestRun.SortKeyHead | runner.go:327 | the sort key of a grouped path starts with `v`, `w` or `z` by its kind |
| TomlTestRun.RankFromKey | runner.go:327-330 | the replaced-prefix key order respects valid < encoder < invalid |
| TomlTestRun.FinishCounts | runner.go:326-330 | sorting keeps the counters consistent with the results |
| TomlTestRun.ExecuteCounts | runner.go:244-330 | total = unselected skips + results; skipped = unselected skips + skipped results; failed counters = failed results; the results are a permutation of the kept tests; each obeys the skip rule |
| TomlTestRun.ExecuteNoEncoder | runner.go:259-261 | without an encoder, no encoder test appears in the results |
| TomlTestRun.KeptNoEncoder | runner.go:259-261 | a permutation of the kept tests has no encoder test when there is no encoder |
| TomlTestRun.ExecuteOrdered | runner.go:326-330 | the results are ordered valid < encoder < invalid |
| TomlTestRun.ExecuteUnmatched | runner.go:332-338 | there is an error iff some expected error's test was not run, and it names exactly those keys |
| TomlTestRun.RunOrdered | runner.go:221-339 | `Run`'s results are ordered valid < encoder < invalid |
| Results.Errorf | results.go:27-30 | records the error; the result then failed |
| Results.Failedf | results.go:36-39 | sets the failure; a non-empty one fails |
| Results.Bugf | results.go:32-34 | the failure is `BUG IN TEST CASE: ` then the message, nothing else changes, and it always fails |
| Results.Kjoin | results.go:55-62 | the key becomes k when empty, else key + `.` + k; nothing else changes |
| Results.KjoinPath | results.go:55-62 | descending through non-empty keys from the top gives their dot-joined path |
| Results.PathTest | results.go:68-77 | the input is `.json` under the encoder, else `.toml`, for valid and invalid tests alike |
| Results.PathGold | results.go:79-87 | the expected file of a valid test is the other extension, so it differs from the input |
| JsonCmp.IsValueKeys | json.go:122-133 | `isValue` holds iff the keys are exactly `type` and `value` |
| JsonCmp.FirstMissing | json.go:39-52 | finds a key missing from the other side, or shows none is missing |
| JsonCmp.CmpJsonAgree | json.go:9-15 | the comparison accepts iff `Agree`; a non-object expectation always passes; acceptance returns r unchanged |
| JsonCmp.CmpMapsAgree | json.go:17-61 | the output must be an object, both or neither must be value pairs, then values or keys are compared |
| JsonCmp.CmpObjectsAgree | json.go:39-60 | plain objects agree iff the key sets are equal both ways and every key agrees |
| JsonCmp.EachKey | json.go:54-59 | visiting the keys in sorted order checks every key |
| JsonCmp.CmpEachAgree | json.go:54-59 | the key loop fails iff some visited key disagrees |
| JsonCmp.CmpValuesAgree | json.go:90-120 | value pairs agree iff the type strings match, and arrays agree element-wise or other values are equal |
| JsonCmp.CmpArrayAgree | json.go:63-88 | arrays must both be arrays of equal length, agreeing element by element |
| JsonCmp.CmpItemsAgree | json.go:79-86 | the element loop fails iff some element disagrees |
| JsonCmp.AgreeSelf | json.go:9-133 | a well-tagged document is accepted against itself; well-tagged means every non-array value is a string or a literal, so no panicking comparison is among these inputs |
| JsonCmp.AgreeSelfMap | json.go:17-61 | a well-tagged object is accepted against itself (well-tagged as for `AgreeSelf`) |
| JsonCmp.TaggedNoPanic | json.go:114 | a well-tagged value pair never reaches the `!=` on two objects or two arrays that panics in Go |
| TomlCmp.FirstMissing | toml.go:49-62 | finds a key missing from the other side, or shows none is missing |
| TomlCmp.AsSlice | toml.go:77-88 | `[]any` and `[]map[string]any` are arrays, the latter copied element-wise as tables; anything else is not |
| TomlCmp.CmpTomlAgree | toml.go:15-41 | the comparison accepts iff `Agree`; acceptance returns r unchanged; rejection only sets failure and key path |
| TomlCmp.CmpTomlMapAgree | toml.go:43-70 | a table must meet a table with the same keys both ways and agreeing values |
| TomlCmp.CmpTablesAgree | toml.go:49-69 | between two tables, the missing-key checks and the key loop accept iff the keys match and every key agrees |
| TomlCmp.EachKey | toml.go:64-68 | visiting the keys in sorted order checks every key |
| TomlCmp.CmpTomlEachAgree | toml.go:64-68 | the key loop fails iff some visited key disagrees |
| TomlCmp.CmpTomlArraysAgree | toml.go:72-102 | an array must meet an array or array of tables of the same length, agreeing element-wise |
| TomlCmp.CmpTomlItemsAgree | toml.go:94-99 | the element loop fails iff some element disagrees |
| TomlCmp.AgreeSelf | toml.go:15-132 | with a reflexive primitive equality, every document is accepted against itself |
| TomlCmp.TablesAsArray | toml.go:77-88 | comparing against an array of tables is comparing against its element-wise copy |
| ParserRun.Output | results.go:177-183 | the output is the trimmed stderr when there is any, else the trimmed stdout, plus a newline |
| ParserRun.RunParser | results.go:163-188 | a missing input is an error with no output; otherwise input and output are recorded, fromStderr is set when stderr is non-empty, and stderr is returned only when the command failed |
| ParserRun.RunInvalidTest | results.go:89-109 | the result is the named invalid test, not skipped |
| ParserRun.InvalidVerdict | results.go:89-109 | an invalid test passes iff its input exists and the command exited with a non-zero status; an unexpected error is recorded iff the input is missing or the command could not run |
| ParserRun.RunValidTest | results.go:111-161 | the result is the named valid test, not skipped |
| ParserRun.CompareToml | results.go:146-158 | the encoder check passes iff both documents decode and the TOML comparator accepts |
| ParserRun.CompareJson | results.go:146-158 | the decoder check passes iff both documents decode and the JSON comparator accepts |
| ParserRun.ValidVerdict | results.go:111-161 | a valid test passes iff the input exists, the command succeeded, the gold file exists, and the decoded documents agree |
| MainProg.StripSuffix | main.go:234-241 | cuts at the last `.toml` if any occurs, else at the last `.json`, else the name is unchanged |
| MainProg.StripExtension | main.go:234-241 | a dot-free name with `.toml` or `.json` appended gets its name back |
| MainProg.HasSkip | main.go:212-219 | skipped iff the name is in the list (exact equality), giving a skipped result with that name |
| MainProg.Indent | main.go:243-246 | the result starts with n spaces |
| MainProg.IndentLines | main.go:243-246 | the lines of the result are the lines of the text without trailing newlines, each prefixed with n spaces |
| MainProg.ParseSkip | main.go:110-115 | a blank value gives no names, and a non-blank one at least one |
| MainProg.ParseSkipBare | main.go:110-115 | no parsed name has a space at either end |
| MainProg.ParseSkipNoComma | main.go:110-115 | no parsed name holds a comma |
| MainProg.TrimAllAt | main.go:112-114 | trimming the pieces trims each one in its own place |
| MainProg.ParseSkipJoin | main.go:110-115 | parsing a comma-joined list of trimmed names gives the names back |
| MainProg.Settings.constructor | main.go:71-85 | the defaults: no encoder, `valid`, `invalid`, `toml` |
| MainProg.Settings.ParseFlags | main.go:91-133 | the skip list is parsed; `-encoder` switches to `invalid-encoder` with the `json` extension; otherwise the settings keep their values |
| MainProg.TrimPieces | main.go:112-114 | the in-place loop leaves exactly the trimmed pieces |
| MainProg.Settings.RunTestByName | main.go:221-227 | a name is run as invalid iff it contains `dirInvalid/` |
| MainProg.Settings.RunNamed | main.go:139-146 | one result per named test, in order |
| MainProg.Settings.RunAllTests | main.go:175-210 | the two directory loops equal the specification; an unreadable directory is fatal |
| MainProg.RunDir | main.go:187-208 | one directory loop leaves exactly the specified results: a result per file with the suffix, in listing order, skipped or run |
| MainProg.Settings.Collect | main.go:137-146 | without names all tests run; with names, one result per name |
| MainProg.RunOne | main.go:196-207 | a run test keeps its name and kind and is not skipped |
| MainProg.Kept | main.go:187-205 | keeps exactly the listed files with the directory's extension |
| MainProg.PickKept | main.go:185-208 | one result per kept file, in order, named `dir/stripSuffix(file)`; skipped iff the name is in the skip list, otherwise run as the directory's kind |
| MainProg.CountPositive | main.go:148-162 | a count is positive exactly when some result qualifies |
| MainProg.Tally | main.go:148-172 | failed counts over skipped over passed; the three sum to the results; the exit status is 1 iff some result failed |
| CmdList.GetList | cmd/toml-test/list.go:29-46 | lists, sorts and expands the tests: encoder tests dropped, `.json` then `.toml` for valid tests |
| CmdList.ExpandList | cmd/toml-test/list.go:35-44 | the expansion loop equals the specification |
| CmdList.CountPrefix | cmd/toml-test/list.go:34-44 | helper bound only: a count of entries never exceeds the list (the output length is stated by `CmdList.ExpandCount`) |
| CmdList.ExpandAppend | cmd/toml-test/list.go:35-44 | expansion distributes over concatenation |
| CmdList.ExpandCount | cmd/toml-test/list.go:34-44 | the output length is the entries (minus encoder ones unless kept) plus the `valid/` entries |
| CmdList.ExpandMember | cmd/toml-test/main.go:160-173 | a file is listed iff it is `.toml` of a kept entry or `.json` of a `valid/` entry; the command's own copy keeps encoder entries |
| CmdCopy.CopyList | cmd/toml-test/copy.go:24-25 | `.gitattributes` is appended last |
| CmdCopy.Copy | cmd/toml-test/copy.go:15-50 | the command equals its specification: the one-destination check, then the listing, then the fatal `MkdirAll` of an empty destination, then the copy loop |
| CmdCopy.CopyFiles | cmd/toml-test/copy.go:32-50 | the copy loop, with its fatal missing source, equals the specification |
| CmdCopy.WrittenStops | cmd/toml-test/copy.go:33-34 | the first missing source stops the copy |
| CmdCopy.WrittenOk | cmd/toml-test/copy.go:32-50 | copying succeeds iff every listed source exists |
| CmdCopy.WrittenKeys | cmd/toml-test/copy.go:36-39 | the files written are exactly the destination joined with each entry |
| CmdCopy.WrittenContent | cmd/toml-test/copy.go:39-43 | each destination holds its source's content |
| CmdCopy.Destination | cmd/toml-test/copy.go:39 | for plain relative paths the destination is `d/f` |
| CmdCopy.CopySucceeds | cmd/toml-test/copy.go:15-50 | the command succeeds iff there is exactly one argument and it is not empty, the listing succeeds and every file exists |
| CmdMain.CountDirs | cmd/toml-test/main.go:140-148 | helper bound only: a count of directories never exceeds the listing (what it counts is stated by `CmdMain.BothDirs`) |
| CmdMain.GetFS | cmd/toml-test/main.go:130-158 | the counting loop and decision equal the specification |
| CmdMain.BothDirs | cmd/toml-test/main.go:140-148 | with unique names, `f` counts whether `valid` and `invalid` are directories and `t` whether `tests` is |
| CmdMain.Color | cmd/toml-test/main.go:111-125 | a known value or none is accepted; the default is on iff `NO_COLOR` is unset; colour is off iff `never`/`no`/`none`/`off`; bold-only iff `bold`/`monochrome` |
| CmdMain.ColorOverridesEnv | cmd/toml-test/main.go:113-125 | an explicit `-color` ignores `NO_COLOR` |
| CmdMain.CatFiles | cmd/toml-test/main.go:316-346 | the selection loop equals the specification; an empty selection is fatal |
| CmdMain.CatMember | cmd/toml-test/main.go:322-343 | a line is selected iff it is listed, is a `valid/` `.toml` file, matches no skip pattern and matches a run pattern when any is given |
| Text.PadLines | cmd/toml-test/main.go:307-314 | the result starts with the pad |
| Text.PadLinesSplit | cmd/toml-test/main.go:307-314 | its lines are the text's lines, trailing newlines trimmed, each prefixed with the pad |

## Left out

- Processes: building and running decoders and parsers (`go build`, `go run`, `exec`, `CommandParser`) are function parameters. So are timeouts (`timedOut` in a reply) and PIDs.
- `gen_list` in gen.py writes `files-toml-*` through `go run`; it is a process call with no logic of its own.
- Concurrency: the goroutines, the limiter channel, the wait group and the mutex of `Runner.Run` are modelled as a sequential loop in run order. `Run` sorts its results afterwards, and the counters do not depend on order.
- Go map iteration order:
  - The comparators visit keys in increasing byte order, one order Go may choose. So when several differences exist, the one reported is fixed here.
  - `TomlTestRun.Run`: Go's order decides which value wins when two `Errors` keys normalise to the same key. The contract says "for some normalisation".
- Floating point: `floatToInt`, `IntAsFloat` and `deepEqual`'s NaN handling. Equality of TOML primitives is a parameter `eqv`.
- `filepath.Match` is an abstract predicate. Pattern syntax errors are not modelled: `-run`/`-skip` validation in cmd/toml-test/main.go is flag parsing.
- `path.Join` and `path.Clean` are modelled in general. Equalities with plain concatenation are proved only for relative paths of plain elements.
- Decoding: JSON and TOML decoding are parameters. So is the TOML encoding of `-cat`'s output, after the selection loop (cmd/toml-test/main.go:348-400).
- `Runner.Run`: `Parallel`, `Timeout` and `IntAsFloat` defaults carry no logic here. The timeout message is kept as a constant.
- `ReadWantJSON` and `ReadWantTOML` decoding is a comparer parameter. The comparer returns "" or the failure message.
- The file system: directories are implied by paths.
  - `MkdirAll` of the copy destination (cmd/toml-test/copy.go:28-29) is modelled only for the empty name, which Go rejects. Failures from permissions or a file in the way are I/O and are not modelled.
  - `mkdir` and `MkdirAll` of the directories under a path, closing files and `rmtree` of a missing tree need no model.
  - `fs.WalkDir` visits the listing in order.
  - `os.DirFS` and `fs.Sub` are named by the `TestFS` value. An unreadable directory listing is fatal.
- `version.toml` writing in `cmdCopy` (cmd/toml-test/copy.go:52-62) needs the build version and the clock.
- Presentation: `String`, `showStream`, `short`, `detailed`, the `-cat` size limit, usage text, colours and bold output. Printing `.multi` files in `findTests` is also left out.
- `mismatch`/`valMismatch` message formatting: json.go:22 and json.go:104 call them with fewer arguments than results.go:41 and results.go:48 declare. Only the pass/fail outcome and the key path are modelled. So `fmt` format directives in failure messages are not interpreted.
- `readable` (main.go:229-232) is not used by the modelled logic.
- `ParserRun.RunValidTest`: the `stdout == nil` branch (results.go:127-129) cannot happen, because `runParser` always returns a buffer on success, but it is kept. Its message names the parser with a fixed word instead of the quoted `parserCmd`.
- `TomlCmp.CmpToml` has no "Unrecognized TOML structure" default branch. `isTomlValue` covers every value that is neither a table nor an array, so toml.go:33-40 is unreachable.
- Gen.DecodeEscapesFrom: its own contract gives only the length bound. Identity on escape-free text is stated by `Gen.DecodeNoEscape`, and what each escape becomes by `Gen.DecodeFirstEscape`, `Gen.EscapedBackslashKept`, `Gen.AfterBackslashVerbatim` and `Gen.LineStartVerbatim`. `chr(0xHH)` is taken as the character with that code.
- Corpus.HeaderName: lower-cases only the ASCII letters `A`-`Z`. Python's `str.lower()` (gen.py:107, gen-spec.py:94) lowers every cased Unicode character and can change the length (`"İ".lower()` has two characters). So for a header with non-ASCII letters, the model's fixture name differs from the generator's.
- `str.splitlines` is modelled with Python's line boundaries (`\r\n` counts as one).
- TomlTest.List: requires the `inherit` chain to end. A cyclic versions table makes the Go loop run forever.
- JsonCmp.CmpValues: for a non-`array` type whose two values are both objects or both arrays, Go's `e["value"] != t["value"]` (json.go:114) panics: comparing maps or slices is a run-time error. The model compares them structurally instead. So `JsonCmp.CmpValuesAgree` and `JsonCmp.CmpJsonAgree` describe an outcome Go never reaches for those inputs (`JsonCmp.ValuesPanic` names them). `JsonCmp.AgreeSelf` and `JsonCmp.AgreeSelfMap` exclude them through `Tagged` (`JsonCmp.TaggedNoPanic`).
- Gen.WriteLine: template contents are decoded text. A non-UTF-8 template, which makes `.decode()` raise (gen.py:13, 17; gen-multi.py:8), is outside the model. The UTF-8 encoding that `fp.write(line.encode())` applies (gen.py:20) is not represented, so a character at or above U+0080 is one element here and several bytes in the file. The same holds for `GenMultiPy.LineFixture`, although gen-multi.py:12 writes the raw bytes.
- main.go calls `cmpJSON` while json.go defines `cmpJson`. Both are modelled as the one comparator `JsonCmp.CmpJson`.
- The documented behaviour makes untagged blocks starting with `# INVALID` into invalid fixtures. The code never takes that branch, because every block starts with an empty element, and the model follows the code (`Corpus.ParsedBlockKind`).
