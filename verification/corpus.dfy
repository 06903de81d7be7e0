/**
  The spec-to-corpus generator shared by gen.py (`gen_spec`) and gen-spec.py (`main`):
  it scans the lines of the TOML specification for section headers and fenced code
  blocks and turns every `toml` block into fixtures of the valid or invalid corpus.

  The two scripts carry the same scanner, header and block parsers, classifier and
  variant expander; they differ only in how they run the decoder that produces the
  `.json` twin of a valid case, which is a parameter `decode` here.
*/
module Corpus {
  import opened Common
  import opened Text
  import opened Files

  const ValidRoot := "tests/valid/spec"
  const InvalidRoot := "tests/invalid/spec"
  const Roots: set<string> := {ValidRoot, InvalidRoot}
  const Fence := "```"
  const Marker := "# INVALID"

  /** A recognised header: the index of the line after it, and the fixture name stem. */
  datatype Header = Header(next: nat, name: string)

  /** A recognised fenced block: the index after its closing fence, its info tag and its text. */
  datatype Block = Block(next: nat, info: string, text: string)

  /** The whole line matches the regular expression `-+`. */
  predicate IsDashes(s: string) {
    |s| >= 1 && forall i :: 0 <= i < |s| ==> s[i] == '-'
  }

  /** The header line lower-cased, with spaces and slashes turned into dashes. */
  function HeaderName(s: string): (r: string)
    ensures |r| == |s|
    ensures ' ' !in r && '/' !in r
    ensures forall i :: 0 <= i < |r| ==> !('A' <= r[i] <= 'Z')
    ensures forall i :: 0 <= i < |s| && s[i] != ' ' && s[i] != '/' ==> r[i] == LowerChar(s[i])
    ensures forall i :: 0 <= i < |s| && (s[i] == ' ' || s[i] == '/') ==> r[i] == '-'
  {
    ReplaceChar(ReplaceChar(Lower(s), ' ', '-'), '/', '-')
  }

  /**
    `parse_header`: a non-empty line, a line of dashes and an empty line. Reading past
    the end of `lines` is the same failure as a mismatch.
  */
  function ParseHeader(lines: seq<string>, i: nat): (r: Option<Header>)
    ensures r.Some? <==> i + 2 < |lines| && lines[i] != "" && IsDashes(lines[i + 1]) && lines[i + 2] == ""
    ensures r.Some? ==> r.value.next == i + 3 && r.value.name == HeaderName(lines[i])
  {
    if i >= |lines| || lines[i] == "" then None
    else if i + 1 >= |lines| || !IsDashes(lines[i + 1]) then None
    else if i + 2 >= |lines| || lines[i + 2] != "" then None
    else Some(Header(i + 3, HeaderName(lines[i])))
  }

  /** The first index `>= j` whose line is exactly the fence, if any. */
  function ClosingFence(lines: seq<string>, j: nat): (r: Option<nat>)
    decreases |lines| - j
    ensures r.Some? ==> j <= r.value < |lines| && lines[r.value] == Fence
    ensures r.Some? ==> forall m :: j <= m < r.value ==> lines[m] != Fence
    ensures r.None? ==> forall m :: j <= m < |lines| ==> lines[m] != Fence
  {
    if j >= |lines| then None
    else if lines[j] == Fence then Some(j)
    else ClosingFence(lines, j + 1)
  }

  /**
    What `parse_block` returns: the opening line starts with the fence and the rest of
    it is the info tag; the text is an empty element followed by the content lines,
    joined by newlines; scanning resumes after the closing fence.
  */
  function ParseBlockSpec(lines: seq<string>, i: nat): (r: Option<Block>)
    ensures r.Some? ==> i < r.value.next <= |lines|
    ensures r.Some? ==> StartsWith(lines[i], Fence) && r.value.info == lines[i][|Fence|..]
    ensures r.None? ==> i >= |lines| || !StartsWith(lines[i], Fence) || ClosingFence(lines, i + 1).None?
  {
    if i >= |lines| || !StartsWith(lines[i], Fence) then None
    else
      match ClosingFence(lines, i + 1)
      case None => None
      case Some(k) => Some(Block(k + 1, lines[i][|Fence|..], Join([""] + lines[i + 1..k], "\n")))
  }

  /** `parse_block`, accumulating the block line by line as the source does. */
  method ParseBlock(lines: seq<string>, i: nat) returns (r: Option<Block>)
    ensures r == ParseBlockSpec(lines, i)
  {
    if i >= |lines| {
      return None;
    }
    var fence := lines[i];
    if !StartsWith(fence, Fence) {
      return None;
    }
    var info := fence[|Fence|..];
    var block: seq<string> := [];
    var line := "";
    var j := i;
    while line != Fence
      invariant i <= j < |lines|
      invariant j == i ==> block == [] && line == ""
      invariant j > i ==> block == [""] + lines[i + 1..j] && line == lines[j]
      invariant forall m :: i < m < j ==> lines[m] != Fence
      invariant ClosingFence(lines, i + 1) == ClosingFence(lines, j + 1) || (j > i && line == Fence)
      decreases |lines| - j
    {
      block := block + [line];
      j := j + 1;
      if j >= |lines| {
        return None;
      }
      line := lines[j];
      assert block == [""] + lines[i + 1..j];
    }
    return Some(Block(j + 1, info, Join(block, "\n")));
  }

  /** Python `str.strip()` plus the trailing newline every fixture ends with. */
  function FixtureText(text: string): string {
    PyStrip(text) + "\n"
  }

  /** `write_invalid_case`: `{header}-{index}.toml` below the invalid root. */
  function InvalidWrite(header: string, index: string, text: string): (w: Write)
    ensures StartsWith(w.path, InvalidRoot + "/") && EndsWith(w.path, ".toml")
    ensures w.content == FixtureText(text)
  {
    Write(InvalidRoot + "/" + header + "-" + index + ".toml", FixtureText(text))
  }

  method WriteInvalidCase(fs: FileMap, header: string, index: string, text: string) returns (out: FileMap)
    ensures out == ApplyWrites(fs, [InvalidWrite(header, index, text)])
  {
    var path := InvalidRoot + "/" + header + "-" + index + ".toml";
    out := fs[path := FixtureText(text)];
  }

  /** A line that holds the marker without the leading `# ` that comments it out. */
  predicate IsActive(line: string) {
    Contains(line, Marker) && !StartsWith(line, "# ")
  }

  predicate AnyActive(lines: seq<string>)
    ensures AnyActive(lines) <==> exists k :: 0 <= k < |lines| && IsActive(lines[k])
  {
    |lines| > 0 && (IsActive(lines[0]) || AnyActive(lines[1..]))
  }

  /** `has_active_invalid`: some line of the block carries an uncommented marker. */
  predicate HasActiveInvalid(text: string)
    ensures HasActiveInvalid(text) <==> exists k :: 0 <= k < |SplitLines(text)| && IsActive(SplitLines(text)[k])
  {
    AnyActive(SplitLines(text))
  }

  /** The indices of the lines from `i` on that contain the marker, in increasing order. */
  function MarkersFrom(lines: seq<string>, i: nat): (r: seq<nat>)
    decreases |lines| - i
    ensures forall k :: 0 <= k < |r| ==> i <= r[k] < |lines| && Contains(lines[r[k]], Marker)
  {
    if i >= |lines| then []
    else
      var rest := MarkersFrom(lines, i + 1);
      if Contains(lines[i], Marker) then
        assert forall k :: 1 <= k < |rest| + 1 ==> ([i] + rest)[k] == rest[k - 1];
        [i] + rest
      else rest
  }

  /** The marker indices are increasing and are exactly the lines holding the marker. */
  lemma MarkersExact(lines: seq<string>, i: nat)
    ensures var r := MarkersFrom(lines, i);
      && (forall k, m :: 0 <= k < m < |r| ==> r[k] < r[m])
      && (forall j :: i <= j < |lines| && Contains(lines[j], Marker) ==> j in r)
  {
    MarkersIncreasing(lines, i);
    forall j | i <= j < |lines| && Contains(lines[j], Marker)
      ensures j in MarkersFrom(lines, i)
    {
      MarkerListed(lines, i, j);
    }
  }

  lemma {:induction false} MarkersIncreasing(lines: seq<string>, i: nat)
    decreases |lines| - i
    ensures forall k, m :: 0 <= k < m < |MarkersFrom(lines, i)| ==> MarkersFrom(lines, i)[k] < MarkersFrom(lines, i)[m]
  {
    if i < |lines| {
      MarkersIncreasing(lines, i + 1);
      var rest := MarkersFrom(lines, i + 1);
      if Contains(lines[i], Marker) {
        var r := [i] + rest;
        assert MarkersFrom(lines, i) == r;
        assert forall k :: 1 <= k < |r| ==> r[k] == rest[k - 1] && i < r[k];
      } else {
        assert MarkersFrom(lines, i) == rest;
      }
    }
  }

  lemma {:induction false} MarkerListed(lines: seq<string>, i: nat, j: nat)
    requires i <= j < |lines| && Contains(lines[j], Marker)
    decreases j - i
    ensures j in MarkersFrom(lines, i)
  {
    if j > i {
      MarkerListed(lines, i + 1, j);
    }
  }

  /** The lines of a variant: line `j` loses a leading `# ` (`removeprefix`), no other
      line changes. */
  function Activate(lines: seq<string>, j: nat): (r: seq<string>)
    ensures |r| == |lines|
    ensures forall m :: 0 <= m < |lines| && m != j ==> r[m] == lines[m]
    ensures j < |lines| && StartsWith(lines[j], "# ") ==> lines[j] == "# " + r[j]
  {
    if j < |lines| then lines[j := TrimPrefix(lines[j], "# ")] else lines
  }

  /** Every marker line from `i` on is commented out with a leading `# `. */
  predicate MarkersCommented(lines: seq<string>, i: nat) {
    forall j :: i <= j < |lines| && Contains(lines[j], Marker) ==> StartsWith(lines[j], "# ")
  }

  /** Variant number `k` of case `index`: the block with marker line `j` uncommented. */
  function Variant(header: string, index: nat, lines: seq<string>, j: nat, k: nat): Write {
    InvalidWrite(header, NatToString(index) + "-" + NatToString(k), Join(Activate(lines, j), "\n"))
  }

  function VariantOf(header: string, index: nat, lines: seq<string>): (nat, nat) -> Write {
    (j: nat, k: nat) => Variant(header, index, lines, j, k)
  }

  /** The numbering of the variant loop from line `i` on, the next variant numbered `k`,
      whatever `mk` writes for variant `k` of marker line `j`. */
  function VariantsBy(lines: seq<string>, i: nat, k: nat, mk: (nat, nat) -> Write): seq<Write>
    decreases |lines| - i
  {
    if i >= |lines| then []
    else if Contains(lines[i], Marker) then [mk(i, k)] + VariantsBy(lines, i + 1, k + 1, mk)
    else VariantsBy(lines, i + 1, k, mk)
  }

  /** The invalid variants for the marker lines from `i` on, the next one numbered `k`. */
  function VariantsFrom(header: string, index: nat, lines: seq<string>, i: nat, k: nat): seq<Write> {
    VariantsBy(lines, i, k, VariantOf(header, index, lines))
  }

  lemma CommentedWhenInactive(text: string)
    requires !HasActiveInvalid(text)
    ensures MarkersCommented(SplitLines(text), 0)
  {
  }

  /**
    `write_valid_case`: the stripped block and the decoder's reading of it under the
    valid root, then one invalid variant per marker line.
  */
  function ValidCase(header: string, index: nat, text: string, decode: string -> string): seq<Write>
    requires !HasActiveInvalid(text)
  {
    var stem := ValidRoot + "/" + header + "-" + NatToString(index);
    [Write(stem + ".toml", FixtureText(text)), Write(stem + ".json", decode(FixtureText(text)))]
    + VariantsFrom(header, index, SplitLines(text), 0, 0)
  }

  /**
    The variant with number `k` comes from the `k`-th marker line, counted from the top,
    and is the block with only that line uncommented.
  */
  lemma VariantsShape(header: string, index: nat, lines: seq<string>, i: nat, k: nat)
    ensures |VariantsFrom(header, index, lines, i, k)| == |MarkersFrom(lines, i)|
    ensures forall n :: 0 <= n < |MarkersFrom(lines, i)| ==>
      VariantsFrom(header, index, lines, i, k)[n] == Variant(header, index, lines, MarkersFrom(lines, i)[n], k + n)
  {
    var mk := VariantOf(header, index, lines);
    VariantsByLength(lines, i, k, mk);
    forall n | 0 <= n < |MarkersFrom(lines, i)|
      ensures VariantsFrom(header, index, lines, i, k)[n] == Variant(header, index, lines, MarkersFrom(lines, i)[n], k + n)
    {
      var j := MarkersFrom(lines, i)[n];
      VariantsByAt(lines, i, k, mk, n, k + n);
      assert mk(j, k + n) == Variant(header, index, lines, j, k + n);
    }
  }

  lemma {:induction false} VariantsByLength(lines: seq<string>, i: nat, k: nat, mk: (nat, nat) -> Write)
    decreases |lines| - i
    ensures |VariantsBy(lines, i, k, mk)| == |MarkersFrom(lines, i)|
  {
    if i < |lines| {
      if Contains(lines[i], Marker) {
        VariantsByLength(lines, i + 1, k + 1, mk);
      } else {
        VariantsByLength(lines, i + 1, k, mk);
      }
    }
  }

  lemma {:induction false} VariantsByAt(lines: seq<string>, i: nat, k: nat, mk: (nat, nat) -> Write, n: nat, num: nat)
    requires n < |MarkersFrom(lines, i)| && num == k + n
    decreases |lines| - i
    ensures n < |VariantsBy(lines, i, k, mk)|
    ensures VariantsBy(lines, i, k, mk)[n] == mk(MarkersFrom(lines, i)[n], num)
  {
    var vs := VariantsBy(lines, i, k, mk);
    var ms := MarkersFrom(lines, i);
    if Contains(lines[i], Marker) {
      var vs' := VariantsBy(lines, i + 1, k + 1, mk);
      var ms' := MarkersFrom(lines, i + 1);
      if n > 0 {
        VariantsByAt(lines, i + 1, k + 1, mk, n - 1, num);
        assert vs[n] == vs'[n - 1];
        assert ms[n] == ms'[n - 1];
      }
    } else {
      VariantsByAt(lines, i + 1, k, mk, n, num);
    }
  }

  /** The result of a valid block: its two files followed by one variant per marker line. */
  lemma ValidCaseShape(header: string, index: nat, text: string, decode: string -> string)
    requires !HasActiveInvalid(text)
    ensures var ws := ValidCase(header, index, text, decode);
      var lines := SplitLines(text);
      var marks := MarkersFrom(lines, 0);
      |ws| == 2 + |marks|
      && ws[0].path == ValidRoot + "/" + header + "-" + NatToString(index) + ".toml"
      && ws[1].path == ValidRoot + "/" + header + "-" + NatToString(index) + ".json"
      && ws[0].content == FixtureText(text)
      && ws[1].content == decode(FixtureText(text))
      && forall n :: 0 <= n < |marks| ==>
        ws[2 + n] == Variant(header, index, lines, marks[n], n)
  {
    VariantsShape(header, index, SplitLines(text), 0, 0);
  }

  /** `write_valid_case`, with its variant loop counting `invalid_index`. */
  method WriteValidCase(fs: FileMap, header: string, index: nat, text: string, decode: string -> string)
      returns (out: FileMap)
    requires !HasActiveInvalid(text)
    ensures out == ApplyWrites(fs, ValidCase(header, index, text, decode))
  {
    var stem := ValidRoot + "/" + header + "-" + NatToString(index);
    out := fs[stem + ".toml" := FixtureText(text)];
    out := out[stem + ".json" := decode(FixtureText(text))];
    ghost var start := out;
    var invalidIndex := 0;
    var lines := SplitLines(text);
    CommentedWhenInactive(text);
    var i := 0;
    while i < |lines|
      invariant 0 <= i <= |lines|
      invariant ApplyWrites(out, VariantsFrom(header, index, lines, i, invalidIndex))
             == ApplyWrites(start, VariantsFrom(header, index, lines, 0, 0))
    {
      out, invalidIndex := WriteVariant(out, header, index, lines, i, invalidIndex);
      i := i + 1;
    }
    ValidCaseApply(fs, header, index, text, decode);
  }

  /** The two files of a valid case come first, then its variants. */
  lemma ValidCaseApply(fs: FileMap, header: string, index: nat, text: string, decode: string -> string)
    requires !HasActiveInvalid(text)
    ensures var stem := ValidRoot + "/" + header + "-" + NatToString(index);
      ApplyWrites(fs, ValidCase(header, index, text, decode))
      == ApplyWrites(fs[stem + ".toml" := FixtureText(text)][stem + ".json" := decode(FixtureText(text))],
                     VariantsFrom(header, index, SplitLines(text), 0, 0))
  {
    var stem := ValidRoot + "/" + header + "-" + NatToString(index);
    var w1 := Write(stem + ".toml", FixtureText(text));
    var w2 := Write(stem + ".json", decode(FixtureText(text)));
    var vs := VariantsFrom(header, index, SplitLines(text), 0, 0);
    assert ValidCase(header, index, text, decode) == [w1, w2] + vs;
    ApplyTwo(fs, w1, w2, vs);
  }

  /** One line of the variant loop: a marker line gives the next numbered variant. */
  method WriteVariant(fs: FileMap, header: string, index: nat, lines: seq<string>, i: nat, k: nat)
      returns (out: FileMap, next: nat)
    requires i < |lines| && MarkersCommented(lines, i)
    ensures ApplyWrites(out, VariantsFrom(header, index, lines, i + 1, next))
         == ApplyWrites(fs, VariantsFrom(header, index, lines, i, k))
  {
    if !Contains(lines[i], Marker) {
      return fs, k;
    }
    var newLines := lines;
    assert StartsWith(lines[i], "# ");
    newLines := newLines[i := TrimPrefix(lines[i], "# ")];
    var w := Variant(header, index, lines, i, k);
    var rest := VariantsFrom(header, index, lines, i + 1, k + 1);
    assert VariantOf(header, index, lines)(i, k) == w;
    assert ([w] + rest)[0] == w && ([w] + rest)[1..] == rest;
    out := WriteInvalidCase(fs, header, NatToString(index) + "-" + NatToString(k), Join(newLines, "\n"));
    next := k + 1;
  }

  /** How the scanner treats a fenced block, in the order its conditions are tested. */
  datatype Kind = DirectInvalid | ActiveInvalid | Valid | Ignored

  function Classify(info: string, text: string): (k: Kind)
    ensures k == Ignored <==> info != "toml" && !(info == "" && StartsWith(text, Marker))
    ensures k == Valid ==> !HasActiveInvalid(text)
  {
    if (info == "toml" || info == "") && StartsWith(text, Marker) then DirectInvalid
    else if info == "toml" then (if HasActiveInvalid(text) then ActiveInvalid else Valid)
    else Ignored
  }

  /** The files one block produces as case number `index` of its section. */
  function BlockWrites(header: string, index: nat, info: string, text: string, decode: string -> string): seq<Write>
  {
    match Classify(info, text)
    case DirectInvalid => [InvalidWrite(header, NatToString(index), text)]
    case ActiveInvalid => [InvalidWrite(header, NatToString(index), text)]
    case Valid => ValidCase(header, index, text, decode)
    case Ignored => []
  }

  /**
    The scan from line `i` in section `header` whose next case is number `index`:
    a header first, else a fenced block, else skip one line.
  */
  function ScanFrom(lines: seq<string>, i: nat, header: string, index: nat, decode: string -> string): seq<Write>
    decreases |lines| - i
  {
    if i >= |lines| then []
    else match ParseHeader(lines, i)
      case Some(h) => ScanFrom(lines, h.next, h.name, 0, decode)
      case None =>
        match ParseBlockSpec(lines, i)
        case Some(b) =>
          BlockWrites(header, index, b.info, b.text, decode)
          + ScanFrom(lines, b.next, header, if Classify(b.info, b.text) == Ignored then index else index + 1, decode)
        case None => ScanFrom(lines, i + 1, header, index, decode)
  }

  /** One fenced block of the scan: an invalid case, a valid case, or nothing, and the
      next case number. */
  method WriteBlock(fs: FileMap, header: string, index: nat, info: string, block: string,
                    decode: string -> string) returns (out: FileMap, next: nat)
    ensures out == ApplyWrites(fs, BlockWrites(header, index, info, block, decode))
    ensures next == if Classify(info, block) == Ignored then index else index + 1
  {
    out, next := fs, index;
    if (info == "toml" || info == "") && StartsWith(block, Marker) {
      out := WriteInvalidCase(out, header, NatToString(index), block);
      next := index + 1;
    } else if info == "toml" {
      if HasActiveInvalid(block) {
        out := WriteInvalidCase(out, header, NatToString(index), block);
      } else {
        out := WriteValidCase(out, header, index, block, decode);
      }
      next := index + 1;
    }
  }

  /** The scan loop of `gen_spec` / `main`, over the lines of the specification. */
  method Scan(fs: FileMap, lines: seq<string>, decode: string -> string) returns (out: FileMap)
    ensures out == ApplyWrites(fs, ScanFrom(lines, 0, "common", 0, decode))
  {
    out := fs;
    var header := "common";
    var caseIndex := 0;
    var lineIndex := 0;
    while lineIndex < |lines|
      invariant lineIndex <= |lines|
      invariant ApplyWrites(out, ScanFrom(lines, lineIndex, header, caseIndex, decode))
             == ApplyWrites(fs, ScanFrom(lines, 0, "common", 0, decode))
      decreases |lines| - lineIndex
    {
      out, lineIndex, header, caseIndex := ScanStep(out, lines, lineIndex, header, caseIndex, decode);
    }
  }

  /** One pass of the scan loop: a header, a fenced block, or one line skipped. */
  method ScanStep(fs: FileMap, lines: seq<string>, i: nat, header: string, index: nat, decode: string -> string)
    returns (out: FileMap, next: nat, nextHeader: string, nextIndex: nat)
    requires i < |lines|
    ensures i < next <= |lines|
    ensures ApplyWrites(out, ScanFrom(lines, next, nextHeader, nextIndex, decode))
         == ApplyWrites(fs, ScanFrom(lines, i, header, index, decode))
  {
    var h := ParseHeader(lines, i);
    if h.Some? {
      return fs, h.value.next, h.value.name, 0;
    }
    var b := ParseBlock(lines, i);
    if b.Some? {
      var blk := b.value;
      ghost var ws := BlockWrites(header, index, blk.info, blk.text, decode);
      ghost var rest := ScanFrom(lines, blk.next, header,
        if Classify(blk.info, blk.text) == Ignored then index else index + 1, decode);
      assert ScanFrom(lines, i, header, index, decode) == ws + rest;
      ApplyWritesAppend(fs, ws, rest);
      out, nextIndex := WriteBlock(fs, header, index, blk.info, blk.text, decode);
      return out, blk.next, header, nextIndex;
    }
    return fs, i + 1, header, index;
  }

  /** Removing one root and then the other removes both. */
  lemma WipeBothRoots(fs: FileMap)
    ensures Wipe(Wipe(fs, {ValidRoot}), {InvalidRoot}) == Wipe(fs, Roots)
  {
    forall p | p in fs
      ensures Under(p, Roots) <==> Under(p, {ValidRoot}) || Under(p, {InvalidRoot})
    {
      if Under(p, Roots) {
        var r :| r in Roots && StartsWith(p, r + "/");
        assert r in {ValidRoot} || r in {InvalidRoot};
      }
    }
  }

  /** The corpus after a run: both roots removed, then the scan's files written. */
  function Generated(fs: FileMap, markdown: string, decode: string -> string): FileMap {
    ApplyWrites(Wipe(fs, Roots), ScanFrom(SplitLines(markdown), 0, "common", 0, decode))
  }

  // ---------------------------------------------------------------------------
  // Properties of the scanner

  /**
    Because `parse_block` starts its list with an empty element, a block's text is
    empty or starts with a newline; it never starts with the marker.
  */
  lemma BlockStartsEmpty(lines: seq<string>, i: nat)
    requires ParseBlockSpec(lines, i).Some?
    ensures var t := ParseBlockSpec(lines, i).value.text;
      (t == "" || t[0] == '\n') && !StartsWith(t, Marker)
  {
    var k := ClosingFence(lines, i + 1).value;
    var content := lines[i + 1..k];
    if |content| > 0 {
      JoinCons("", content, "\n");
    }
  }

  /**
    Hence the first branch of the classifier is never taken: an untagged block emits
    nothing, and a block counts as a case exactly when its tag is `toml`.
  */
  lemma ParsedBlockKind(lines: seq<string>, i: nat)
    requires ParseBlockSpec(lines, i).Some?
    ensures var b := ParseBlockSpec(lines, i).value;
      Classify(b.info, b.text) != DirectInvalid
      && (Classify(b.info, b.text) == Ignored <==> b.info != "toml")
  {
    BlockStartsEmpty(lines, i);
  }

  /** A block with an uncommented marker goes, whole, to the invalid corpus only. */
  lemma ActiveBlockInvalidOnly(header: string, index: nat, text: string, decode: string -> string)
    requires HasActiveInvalid(text)
    ensures BlockWrites(header, index, "toml", text, decode) == [InvalidWrite(header, NatToString(index), text)]
  {
  }

  /**
    An opening fence that is never closed consumes only its own line (the header parser
    is tried first, so the fence line must not also begin a header).
  */
  lemma UnclosedFenceSkipsOneLine(lines: seq<string>, i: nat, header: string, index: nat, decode: string -> string)
    requires i < |lines| && StartsWith(lines[i], Fence)
    requires forall m :: i < m < |lines| ==> lines[m] != Fence
    requires i + 1 < |lines| ==> !IsDashes(lines[i + 1])
    ensures ScanFrom(lines, i, header, index, decode) == ScanFrom(lines, i + 1, header, index, decode)
  {
    assert ClosingFence(lines, i + 1).None?;
  }

  predicate AllUnder(ws: seq<Write>) {
    forall j :: 0 <= j < |ws| ==> Under(ws[j].path, Roots)
  }

  lemma UnderRoot(root: string, rest: string)
    requires root in Roots
    ensures Under(root + "/" + rest, Roots)
  {
    assert StartsWith(root + "/" + rest, root + "/");
  }

  lemma {:induction false} VariantsUnder(header: string, index: nat, lines: seq<string>, i: nat, k: nat)
    decreases |lines| - i
    ensures AllUnder(VariantsFrom(header, index, lines, i, k))
  {
    if i < |lines| {
      if Contains(lines[i], Marker) {
        VariantsUnder(header, index, lines, i + 1, k + 1);
        assert VariantOf(header, index, lines)(i, k) == Variant(header, index, lines, i, k);
        assert StartsWith(Variant(header, index, lines, i, k).path, InvalidRoot + "/");
        assert InvalidRoot in Roots;
      } else {
        VariantsUnder(header, index, lines, i + 1, k);
      }
    }
  }

  lemma BlockUnder(header: string, index: nat, info: string, text: string, decode: string -> string)
    ensures AllUnder(BlockWrites(header, index, info, text, decode))
  {
    match Classify(info, text)
    case DirectInvalid => InvalidUnder(header, NatToString(index), text);
    case ActiveInvalid => InvalidUnder(header, NatToString(index), text);
    case Valid => ValidCaseUnder(header, index, text, decode);
    case Ignored =>
  }

  lemma InvalidUnder(header: string, index: string, text: string)
    ensures AllUnder([InvalidWrite(header, index, text)])
  {
    var w := InvalidWrite(header, index, text);
    assert InvalidRoot in Roots && StartsWith(w.path, InvalidRoot + "/");
  }

  lemma ValidCaseUnder(header: string, index: nat, text: string, decode: string -> string)
    requires !HasActiveInvalid(text)
    ensures AllUnder(ValidCase(header, index, text, decode))
  {
    var path := ValidRoot + "/" + header + "-" + NatToString(index);
    var w1 := Write(path + ".toml", FixtureText(text));
    var w2 := Write(path + ".json", decode(FixtureText(text)));
    var vs := VariantsFrom(header, index, SplitLines(text), 0, 0);
    assert ValidCase(header, index, text, decode) == [w1, w2] + vs;
    ValidPathUnder(header, NatToString(index), ".toml");
    ValidPathUnder(header, NatToString(index), ".json");
    VariantsUnder(header, index, SplitLines(text), 0, 0);
    TwoUnder(w1, w2);
    AllUnderAppend([w1, w2], vs);
  }

  lemma TwoUnder(w1: Write, w2: Write)
    requires Under(w1.path, Roots) && Under(w2.path, Roots)
    ensures AllUnder([w1, w2])
  {
  }

  lemma ValidPathUnder(header: string, n: string, ext: string)
    ensures Under(ValidRoot + "/" + header + "-" + n + ext, Roots)
  {
    UnderRoot(ValidRoot, header + "-" + n + ext);
    assert ValidRoot + "/" + header + "-" + n + ext == ValidRoot + "/" + (header + "-" + n + ext);
  }

  lemma AllUnderAppend(a: seq<Write>, b: seq<Write>)
    requires AllUnder(a) && AllUnder(b)
    ensures AllUnder(a + b)
  {
    assert forall j :: |a| <= j < |a + b| ==> (a + b)[j] == b[j - |a|];
  }

  /** Every file the scan writes lies below the valid or the invalid root. */
  lemma {:induction false} ScanUnder(lines: seq<string>, i: nat, header: string, index: nat, decode: string -> string)
    decreases |lines| - i
    ensures AllUnder(ScanFrom(lines, i, header, index, decode))
  {
    if i < |lines| {
      match ParseHeader(lines, i)
      case Some(h) => ScanUnder(lines, h.next, h.name, 0, decode);
      case None =>
        match ParseBlockSpec(lines, i)
        case Some(b) =>
          var next := if Classify(b.info, b.text) == Ignored then index else index + 1;
          BlockUnder(header, index, b.info, b.text, decode);
          ScanUnder(lines, b.next, header, next, decode);
          AllUnderAppend(BlockWrites(header, index, b.info, b.text, decode), ScanFrom(lines, b.next, header, next, decode));
        case None => ScanUnder(lines, i + 1, header, index, decode);
    }
  }

  /**
    Running the generator again over its own output gives the same tree: the roots are
    removed first and everything written lies below them.
  */
  lemma GeneratedIdempotent(fs: FileMap, markdown: string, decode: string -> string)
    ensures Generated(Generated(fs, markdown, decode), markdown, decode) == Generated(fs, markdown, decode)
  {
    var ws := ScanFrom(SplitLines(markdown), 0, "common", 0, decode);
    ScanUnder(SplitLines(markdown), 0, "common", 0, decode);
    Regenerate(fs, ws, Roots);
  }

  /** Files outside the two roots are left as they were. */
  lemma GeneratedKeepsOthers(fs: FileMap, markdown: string, decode: string -> string, p: string)
    requires p in fs && !Under(p, Roots)
    ensures p in Generated(fs, markdown, decode) && Generated(fs, markdown, decode)[p] == fs[p]
  {
    var ws := ScanFrom(SplitLines(markdown), 0, "common", 0, decode);
    ScanUnder(SplitLines(markdown), 0, "common", 0, decode);
    Untouched(Wipe(fs, Roots), ws, p);
  }
}
