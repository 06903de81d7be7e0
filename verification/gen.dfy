/**
  gen.py: `gen_spec` (the spec-to-corpus generator, run with a decoder built once into
  a temporary directory) and `gen_multi` (the `.multi` template expander that writes
  one invalid fixture per `name = ...` line, decoding `\xHH` escapes).
*/
module Gen {
  import opened Common
  import opened Text
  import opened Files
  import Corpus

  /**
    `gen_spec`: remove both spec roots, split the specification into lines and scan it.
    `decode` is what the decoder built by `go build` prints for a given input.
  */
  method GenSpec(fs: FileMap, markdown: string, decode: string -> string) returns (out: FileMap)
    ensures out == Corpus.Generated(fs, markdown, decode)
  {
    out := Wipe(fs, {Corpus.ValidRoot});
    out := Wipe(out, {Corpus.InvalidRoot});
    Corpus.WipeBothRoots(fs);
    var lines := SplitLines(markdown);
    out := Corpus.Scan(out, lines, decode);
  }

  // ---------------------------------------------------------------------------
  // gen_multi

  /** A `.multi` template: its path and its bytes. */
  datatype MultiFile = MultiFile(path: string, content: string)

  /** The text before the first `=` of a template line, without surrounding ASCII whitespace. */
  function EntryName(line: string): (r: string)
    ensures '=' !in r
    ensures r == [] || (!IsAsciiSpace(r[0]) && !IsAsciiSpace(r[|r| - 1]))
  {
    var head := Field(line);
    var r := TrimRightBy(TrimLeftBy(head, IsAsciiSpace), IsAsciiSpace);
    TrimBothIndex(head, IsAsciiSpace);
    r
  }

  /** The field before the first `=` of a line, or the whole line without one. */
  function Field(line: string): (f: string)
    ensures |f| <= |line| && (|f| == |line| || line[|f|] == '=')
    ensures forall p :: 0 <= p < |f| ==> f[p] == line[p]
    ensures forall p :: 0 <= p < |f| ==> f[p] != '='
  {
    var i := IndexOf(line, '=');
    if i < 0 then line else line[..i]
  }

  /**
    `line[..i]` is the field before the first `=` (the whole line without one), and
    `line[j..k]` is that field with only ASCII whitespace cut from either end.
  */
  predicate NameField(line: string, i: nat, j: nat, k: nat) {
    && j <= k <= i <= |line|
    && (forall p :: 0 <= p < i ==> line[p] != '=') && (i == |line| || line[i] == '=')
    && (forall p :: 0 <= p < j ==> IsAsciiSpace(line[p]))
    && (forall p :: k <= p < i ==> IsAsciiSpace(line[p]))
  }

  /** Where the name starts: after the whitespace that opens the field. */
  function NameStart(line: string): nat {
    |Field(line)| - |TrimLeftBy(Field(line), IsAsciiSpace)|
  }

  /** The name is the field before the first `=`, with ASCII whitespace cut from its ends;
      with the ends `EntryName` ensures, this fixes the name. */
  lemma EntryNameField(line: string)
    ensures NameField(line, |Field(line)|, NameStart(line), NameStart(line) + |EntryName(line)|)
    ensures forall p :: 0 <= p < |EntryName(line)| ==> EntryName(line)[p] == line[NameStart(line) + p]
  {
    EntryNameBounds(line);
    EntryNameChars(line);
  }

  lemma EntryNameBounds(line: string)
    ensures NameField(line, |Field(line)|, NameStart(line), NameStart(line) + |EntryName(line)|)
  {
    TrimBothTrailing(Field(line), IsAsciiSpace);
  }

  lemma EntryNameChars(line: string)
    ensures forall p :: 0 <= p < |EntryName(line)| ==> EntryName(line)[p] == line[NameStart(line) + p]
  {
    var head := Field(line);
    TrimBothIndex(head, IsAsciiSpace);
    forall p | 0 <= p < |EntryName(line)|
      ensures EntryName(line)[p] == line[NameStart(line) + p]
    {
      assert EntryName(line)[p] == head[NameStart(line) + p];
    }
  }

  /** Blank names and comment lines produce no fixture. */
  predicate Skipped(name: string) {
    name == "" || name[0] == '#'
  }

  /**
    The writes of a template whose lines are `lines`, in order; `mk` gives the file a
    line produces, or nothing for a skipped line.
  */
  function KeptWrites(lines: seq<string>, mk: string -> Option<Write>): (r: seq<Write>)
    ensures |r| <= |lines|
  {
    if |lines| == 0 then []
    else
      var tail := match mk(lines[|lines| - 1]) case None => [] case Some(w) => [w];
      KeptWrites(lines[..|lines| - 1], mk) + tail
  }

  /**
    When several template lines produce the same file, the last of them decides its
    content (`open(path, 'wb+')` truncates).
  */
  lemma {:induction false} LastEntryWins(fs: FileMap, lines: seq<string>, k: nat, mk: string -> Option<Write>)
    requires k < |lines| && mk(lines[k]).Some?
    requires forall j :: k < j < |lines| && mk(lines[j]).Some? ==> mk(lines[j]).value.path != mk(lines[k]).value.path
    ensures mk(lines[k]).value.path in ApplyWrites(fs, KeptWrites(lines, mk))
    ensures ApplyWrites(fs, KeptWrites(lines, mk))[mk(lines[k]).value.path] == mk(lines[k]).value.content
    decreases |lines|
  {
    var w := mk(lines[k]).value;
    var init := lines[..|lines| - 1];
    var tail := match mk(lines[|lines| - 1]) case None => [] case Some(v) => [v];
    assert KeptWrites(lines, mk) == KeptWrites(init, mk) + tail;
    ApplyWritesAppend(fs, KeptWrites(init, mk), tail);
    if k == |lines| - 1 {
      assert tail == [w];
    } else {
      assert init[k] == lines[k];
      forall j | k < j < |init| && mk(init[j]).Some?
        ensures mk(init[j]).value.path != w.path
      {
        assert init[j] == lines[j];
      }
      LastEntryWins(fs, init, k, mk);
      var mid := ApplyWrites(fs, KeptWrites(init, mk));
      forall t | 0 <= t < |tail|
        ensures tail[t].path != w.path
      {
        assert tail[t] == mk(lines[|lines| - 1]).value;
      }
      Untouched(mid, tail, w.path);
    }
  }

  /** An `\xHH` escape starts at `i`: a backslash, `x`, two hex digits, after a non-backslash. */
  predicate EscapeAt(s: string, i: nat) {
    1 <= i && i + 4 <= |s| && s[i - 1] != '\\' && s[i] == '\\' && s[i + 1] == 'x'
    && IsHex(s[i + 2]) && IsHex(s[i + 3])
  }

  predicate IsHex(c: char) {
    '0' <= c <= '9' || 'a' <= c <= 'f' || 'A' <= c <= 'F'
  }

  const LowerHexDigits: string := "0123456789abcdef"
  const UpperHexDigits: string := "0123456789ABCDEF"

  /** The value `int(c, 16)` gives one hex digit. */
  function HexDigit(c: char): (v: nat)
    requires IsHex(c)
    ensures v < 16 && (LowerHexDigits[v] == c || UpperHexDigits[v] == c)
  {
    if '0' <= c <= '9' then (c - '0') as nat
    else if 'a' <= c <= 'f' then (c - 'a') as nat + 10
    else (c - 'A') as nat + 10
  }

  /**
    The substitution of `gen_multi` applied from index `i` on: the look-behind reads the
    original line, and a replaced escape is skipped as a whole, so matches never overlap.
  */
  function DecodeEscapesFrom(s: string, i: nat): (r: string)
    requires i <= |s|
    decreases |s| - i
    ensures |r| <= |s| - i
  {
    if i == |s| then ""
    else if EscapeAt(s, i) then
      [(16 * HexDigit(s[i + 2]) + HexDigit(s[i + 3])) as char] + DecodeEscapesFrom(s, i + 4)
    else
      [s[i]] + DecodeEscapesFrom(s, i + 1)
  }

  function DecodeEscapes(s: string): string {
    DecodeEscapesFrom(s, 0)
  }

  /** Python `f[:-6]`: the path without its last six characters (`.multi`). */
  function DropExtension(f: string): (r: string)
    ensures |f| >= 6 ==> f == r + f[|f| - 6..]
    ensures |f| < 6 ==> r == ""
  {
    if |f| >= 6 then f[..|f| - 6] else ""
  }

  predicate IsSlash(c: char) { c == '/' }

  /**
    Python `os.path.dirname`: everything up to the last `/`, with trailing slashes
    removed unless the head consists of slashes only.
  */
  function DirName(p: string): (r: string)
    ensures StartsWith(p, r)
    ensures '/' !in p ==> r == ""
  {
    var i := LastIndex(p, "/") + 1;
    assert i > 0 ==> p[i - 1] == '/';
    var head := p[..i];
    if head != "" && exists j :: 0 <= j < |head| && head[j] != '/' then TrimRightBy(head, IsSlash) else head
  }

  /** `dirname` undoes joining a directory (not ending in `/`) and a name without `/`. */
  lemma DirNameJoin(d: string, n: string)
    requires d != "" && d[|d| - 1] != '/' && '/' !in n
    ensures DirName(d + "/" + n) == d
  {
    var p := d + "/" + n;
    forall j | |d| < j && j + 1 <= |p|
      ensures !OccursAt(p, "/", j)
    {
      assert p[j] == n[j - |d| - 1];
      assert p[j..j + 1] == [p[j]];
    }
    assert OccursAt(p, "/", |d|);
    var r := LastIndex(p, "/");
    assert r == |d|;
    var head := p[..|d| + 1];
    assert head == d + "/";
    assert head[|d| - 1] != '/';
    var t := TrimRightBy(head, IsSlash);
    assert |t| <= |d|;
    assert |t| >= |d|;
    assert t == d;
  }

  /** The fixture a template line produces next to the template, unless it is skipped. */
  function LineFixture(base: string, line: string): Option<Write> {
    var name := EntryName(line);
    if Skipped(name) then None else Some(Write(base + "/" + name + ".toml", DecodeEscapes(line)))
  }

  function EntryWrite(base: string): string -> Option<Write> {
    line => LineFixture(base, line)
  }

  function MultiBase(f: string): string {
    DirName(DropExtension(f))
  }

  function FileWrites(m: MultiFile): seq<Write> {
    KeptWrites(ReadLines(m.content), EntryWrite(MultiBase(m.path)))
  }

  /** The writes of all templates, in the order the glob returns them. */
  function MultiWrites(ms: seq<MultiFile>): seq<Write> {
    if |ms| == 0 then [] else MultiWrites(ms[..|ms| - 1]) + FileWrites(ms[|ms| - 1])
  }

  lemma KeptStep(fs: FileMap, lines: seq<string>, li: nat, mk: string -> Option<Write>)
    requires li < |lines|
    ensures ApplyWrites(fs, KeptWrites(lines[..li + 1], mk))
         == match mk(lines[li])
            case None => ApplyWrites(fs, KeptWrites(lines[..li], mk))
            case Some(w) => ApplyWrites(fs, KeptWrites(lines[..li], mk))[w.path := w.content]
  {
    assert lines[..li + 1][..li] == lines[..li];
    var tail := match mk(lines[li]) case None => [] case Some(w) => [w];
    ApplyWritesAppend(fs, KeptWrites(lines[..li], mk), tail);
  }

  /** The inner loop of `gen_multi`: the fixtures of one template. */
  method WriteTemplate(fs: FileMap, f: MultiFile) returns (out: FileMap)
    ensures out == ApplyWrites(fs, FileWrites(f))
  {
    out := fs;
    var base := DirName(DropExtension(f.path));
    var lines := ReadLines(f.content);
    var li := 0;
    while li < |lines|
      invariant li <= |lines|
      invariant out == ApplyWrites(fs, KeptWrites(lines[..li], EntryWrite(base)))
    {
      KeptStep(fs, lines, li, EntryWrite(base));
      out := WriteLine(out, base, lines[li]);
      li := li + 1;
    }
    assert lines[..li] == lines;
  }

  /** One line of a template: its fixture is written unless its name is skipped. */
  method WriteLine(fs: FileMap, base: string, line: string) returns (out: FileMap)
    ensures out == match EntryWrite(base)(line)
                   case None => fs
                   case Some(w) => fs[w.path := w.content]
  {
    var name := EntryName(line);
    if name == "" || name[0] == '#' {
      return fs;
    }
    var decoded := DecodeEscapes(line);
    out := fs[base + "/" + name + ".toml" := decoded];
  }

  /** `gen_multi`: one fixture next to its template per kept line of every template. */
  method GenMulti(fs: FileMap, multis: seq<MultiFile>) returns (out: FileMap)
    ensures out == ApplyWrites(fs, MultiWrites(multis))
  {
    out := fs;
    var fi := 0;
    while fi < |multis|
      invariant fi <= |multis|
      invariant out == ApplyWrites(fs, MultiWrites(multis[..fi]))
    {
      MultiStep(fs, multis, fi);
      out := WriteTemplate(out, multis[fi]);
      fi := fi + 1;
    }
    assert multis[..fi] == multis;
  }

  lemma MultiStep(fs: FileMap, multis: seq<MultiFile>, fi: nat)
    requires fi < |multis|
    ensures ApplyWrites(fs, MultiWrites(multis[..fi + 1]))
         == ApplyWrites(ApplyWrites(fs, MultiWrites(multis[..fi])), FileWrites(multis[fi]))
  {
    assert multis[..fi + 1][..fi] == multis[..fi];
    ApplyWritesAppend(fs, MultiWrites(multis[..fi]), FileWrites(multis[fi]));
  }

  /** Different names give different fixture paths. */
  lemma EntryPathsDiffer(base: string, a: string, b: string)
    requires a != b
    ensures base + "/" + a + ".toml" != base + "/" + b + ".toml"
  {
    var p := base + "/" + a + ".toml";
    var q := base + "/" + b + ".toml";
    if |a| == |b| {
      var i :| 0 <= i < |a| && a[i] != b[i];
      assert p[|base| + 1 + i] == a[i];
      assert q[|base| + 1 + i] == b[i];
    } else {
      assert |p| != |q|;
    }
  }

  /**
    Of several lines of one template with the same name, the last decides the fixture,
    and its content is that line with its escapes decoded.
  */
  lemma MultiLastLineWins(fs: FileMap, m: MultiFile, k: nat)
    requires k < |ReadLines(m.content)|
    requires !Skipped(EntryName(ReadLines(m.content)[k]))
    requires forall j :: k < j < |ReadLines(m.content)| ==>
      EntryName(ReadLines(m.content)[j]) != EntryName(ReadLines(m.content)[k])
    ensures var lines := ReadLines(m.content);
      var path := MultiBase(m.path) + "/" + EntryName(lines[k]) + ".toml";
      path in ApplyWrites(fs, FileWrites(m)) && ApplyWrites(fs, FileWrites(m))[path] == DecodeEscapes(lines[k])
  {
    var lines := ReadLines(m.content);
    var base := MultiBase(m.path);
    var mk := EntryWrite(base);
    var name := EntryName(lines[k]);
    assert mk(lines[k]) == Some(Write(base + "/" + name + ".toml", DecodeEscapes(lines[k])));
    forall j | k < j < |lines| && mk(lines[j]).Some?
      ensures mk(lines[j]).value.path != mk(lines[k]).value.path
    {
      var other := EntryName(lines[j]);
      assert mk(lines[j]) == LineFixture(base, lines[j]);
      assert mk(lines[j]).value.path == base + "/" + other + ".toml";
      EntryPathsDiffer(base, other, name);
    }
    assert FileWrites(m) == KeptWrites(lines, mk);
    LastEntryWins(fs, lines, k, mk);
  }

  /** A template line without any escape is written unchanged. */
  lemma PlainLineVerbatim(s: string)
    requires '\\' !in s
    ensures DecodeEscapes(s) == s
  {
    DecodeNoEscape(s, 0);
    assert s[0..] == s;
  }

  /** A stretch of the line in which no escape starts is copied unchanged. */
  lemma {:induction false} DecodePlainStretch(s: string, i: nat, k: nat)
    requires i <= k <= |s|
    requires forall j :: i <= j < k ==> !EscapeAt(s, j)
    ensures DecodeEscapesFrom(s, i) == s[i..k] + DecodeEscapesFrom(s, k)
    decreases k - i
  {
    if i < k {
      var rest := DecodeEscapesFrom(s, i + 1);
      assert DecodeEscapesFrom(s, i) == [s[i]] + rest by { assert !EscapeAt(s, i); }
      DecodePlainStretch(s, i + 1, k);
      SliceHead(s, i, k);
      assert [s[i]] + (s[i + 1..k] + DecodeEscapesFrom(s, k)) == s[i..k] + DecodeEscapesFrom(s, k);
    } else {
      assert s[i..k] == [];
    }
  }

  /** Text from `i` on in which no escape starts is decoded to itself. */
  lemma DecodeNoEscape(s: string, i: nat)
    requires i <= |s|
    requires forall j :: i <= j < |s| ==> !EscapeAt(s, j)
    ensures DecodeEscapesFrom(s, i) == s[i..]
  {
    DecodePlainStretch(s, i, |s|);
    assert s[i..|s|] == s[i..];
  }

  /** A non-empty slice is its first character followed by the rest. */
  lemma SliceHead(s: string, i: nat, k: nat)
    requires i < k <= |s|
    ensures s[i..k] == [s[i]] + s[i + 1..k]
  {
  }

  /** The first escape of a line, `\xHH` after a non-backslash, becomes the character
      with code `0xHH`; the text before it is kept and decoding goes on after it. */
  lemma DecodeFirstEscape(a: string, h1: char, h2: char, b: string)
    requires a != "" && a[|a| - 1] != '\\' && IsHex(h1) && IsHex(h2)
    requires forall j :: 0 <= j < |a| ==> !EscapeAt(a + ['\\', 'x', h1, h2] + b, j)
    ensures DecodeEscapes(a + ['\\', 'x', h1, h2] + b)
         == a + [(16 * HexDigit(h1) + HexDigit(h2)) as char]
              + DecodeEscapesFrom(a + ['\\', 'x', h1, h2] + b, |a| + 4)
  {
    var s := a + ['\\', 'x', h1, h2] + b;
    DecodePlainStretch(s, 0, |a|);
    assert s[0..|a|] == a;
    assert EscapeAt(s, |a|);
  }

  /** A backslash directly before `\x` disables the escape (the look-behind): the `\x`
      is kept as it is and decoding goes on after it. */
  lemma EscapedBackslashKept(s: string, i: nat)
    requires 1 <= i && i + 2 <= |s| && s[i - 1] == '\\' && s[i] == '\\' && s[i + 1] == 'x'
    ensures DecodeEscapesFrom(s, i) == ['\\', 'x'] + DecodeEscapesFrom(s, i + 2)
  {
    assert !EscapeAt(s, i) && !EscapeAt(s, i + 1);
  }

  /** After a backslash, no escape starts: the next character is copied as it is. */
  lemma AfterBackslashVerbatim(s: string, i: nat)
    requires 1 <= i < |s| && s[i - 1] == '\\'
    ensures DecodeEscapesFrom(s, i) == [s[i]] + DecodeEscapesFrom(s, i + 1)
  {
  }

  /** The look-behind needs a character before the escape, so a line's first character
      is never the start of one. */
  lemma LineStartVerbatim(s: string)
    requires s != ""
    ensures DecodeEscapes(s) == [s[0]] + DecodeEscapesFrom(s, 1)
  {
  }
}
