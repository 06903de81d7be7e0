/**
  gen-multi.py, the older `.multi` template expander: every `name = ...` line of
  `tests/invalid/X.multi` becomes `tests/invalid/X-name.toml`, written verbatim.
*/
module GenMultiPy {
  import opened Common
  import opened Text
  import opened Files
  import opened Gen

  /** `f[:-6] + '-'`: the template path without `.multi`, then a dash. */
  function Prefix(f: string): (r: string)
    ensures |f| >= 6 ==> r == f[..|f| - 6] + "-"
  {
    DropExtension(f) + "-"
  }

  /** The fixture a template line produces: the line itself, unless it is skipped. */
  function LineFixture(prefix: string, line: string): (r: Option<Write>)
    ensures r.Some? <==> !Skipped(EntryName(line))
    ensures r.Some? ==> r.value.content == line
  {
    var name := EntryName(line);
    if name == "" || name[0] == '#' then None else Some(Write(prefix + name + ".toml", line))
  }

  function EntryWrite(prefix: string): string -> Option<Write> {
    line => LineFixture(prefix, line)
  }

  function FileWrites(m: MultiFile): seq<Write> {
    KeptWrites(ReadLines(m.content), EntryWrite(Prefix(m.path)))
  }

  function MultiWrites(ms: seq<MultiFile>): seq<Write> {
    if |ms| == 0 then [] else MultiWrites(ms[..|ms| - 1]) + FileWrites(ms[|ms| - 1])
  }

  /** The loop over the lines of one template. */
  method WriteTemplate(fs: FileMap, f: MultiFile) returns (out: FileMap)
    ensures out == ApplyWrites(fs, FileWrites(f))
  {
    out := fs;
    var base := Prefix(f.path);
    var lines := ReadLines(f.content);
    var li := 0;
    while li < |lines|
      invariant li <= |lines|
      invariant out == ApplyWrites(fs, KeptWrites(lines[..li], EntryWrite(base)))
    {
      var l := lines[li];
      var name := EntryName(l);
      KeptStep(fs, lines, li, EntryWrite(base));
      assert EntryWrite(base)(l) == LineFixture(base, l);
      if !(name == "" || name[0] == '#') {
        out := out[base + name + ".toml" := l];
      }
      li := li + 1;
    }
    assert lines[..li] == lines;
  }

  /** The script: every template, in the order the glob returns them. */
  method Run(fs: FileMap, multis: seq<MultiFile>) returns (out: FileMap)
    ensures out == ApplyWrites(fs, MultiWrites(multis))
  {
    out := fs;
    var fi := 0;
    while fi < |multis|
      invariant fi <= |multis|
      invariant out == ApplyWrites(fs, MultiWrites(multis[..fi]))
    {
      assert multis[..fi + 1][..fi] == multis[..fi];
      ApplyWritesAppend(fs, MultiWrites(multis[..fi]), FileWrites(multis[fi]));
      out := WriteTemplate(out, multis[fi]);
      fi := fi + 1;
    }
    assert multis[..fi] == multis;
  }

  /**
    Of several lines of one template with the same name, the last decides the fixture
    `X-name.toml`, and its content is that line exactly, name and newline included.
  */
  lemma LastLineWins(fs: FileMap, m: MultiFile, k: nat)
    requires k < |ReadLines(m.content)|
    requires !Skipped(EntryName(ReadLines(m.content)[k]))
    requires forall j :: k < j < |ReadLines(m.content)| ==>
      EntryName(ReadLines(m.content)[j]) != EntryName(ReadLines(m.content)[k])
    ensures var lines := ReadLines(m.content);
      var path := Prefix(m.path) + EntryName(lines[k]) + ".toml";
      path in ApplyWrites(fs, FileWrites(m)) && ApplyWrites(fs, FileWrites(m))[path] == lines[k]
  {
    var lines := ReadLines(m.content);
    var base := Prefix(m.path);
    var mk := EntryWrite(base);
    forall j | k < j < |lines| && mk(lines[j]).Some?
      ensures mk(lines[j]).value.path != mk(lines[k]).value.path
    {
      PrefixPathsDiffer(base, EntryName(lines[j]), EntryName(lines[k]));
    }
    LastEntryWins(fs, lines, k, mk);
  }

  lemma PrefixPathsDiffer(base: string, a: string, b: string)
    requires a != b
    ensures base + a + ".toml" != base + b + ".toml"
  {
    var p := base + a + ".toml";
    var q := base + b + ".toml";
    if |a| == |b| {
      var i :| 0 <= i < |a| && a[i] != b[i];
      assert p[|base| + i] == a[i];
      assert q[|base| + i] == b[i];
    } else {
      assert |p| != |q|;
    }
  }
}
