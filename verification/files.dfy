/**
  The filesystem the generator scripts write to, as a map from path to content.
  A run is a sequence of writes; a later write to the same path replaces the
  earlier content (`open(path, 'w')` / `'wb+'` truncate).
*/
module Files {
  import opened Text

  type FileMap = map<string, string>

  datatype Write = Write(path: string, content: string)

  /** Performs the writes in order. */
  function ApplyWrites(fs: FileMap, ws: seq<Write>): FileMap
    decreases |ws|
  {
    if |ws| == 0 then fs else ApplyWrites(fs[ws[0].path := ws[0].content], ws[1..])
  }

  /** Writing files adds exactly the written paths. */
  lemma {:induction false} ApplyWritesKeys(fs: FileMap, ws: seq<Write>)
    ensures ApplyWrites(fs, ws).Keys == fs.Keys + set i | 0 <= i < |ws| :: ws[i].path
    decreases |ws|
  {
    if |ws| > 0 {
      ApplyWritesKeys(fs[ws[0].path := ws[0].content], ws[1..]);
      assert forall i :: 1 <= i < |ws| ==> ws[i].path == ws[1..][i - 1].path;
      assert (set i | 0 <= i < |ws| :: ws[i].path) == {ws[0].path} + set i | 0 <= i < |ws[1..]| :: ws[1..][i].path;
    }
  }

  lemma {:induction false} ApplyWritesAppend(fs: FileMap, a: seq<Write>, b: seq<Write>)
    ensures ApplyWrites(fs, a + b) == ApplyWrites(ApplyWrites(fs, a), b)
    decreases |a|
  {
    if |a| > 0 {
      assert (a + b)[0] == a[0] && (a + b)[1..] == a[1..] + b;
      ApplyWritesAppend(fs[a[0].path := a[0].content], a[1..], b);
    } else {
      assert a + b == b;
    }
  }

  /** Two writes ahead of others are done first. */
  lemma ApplyTwo(fs: FileMap, w1: Write, w2: Write, ws: seq<Write>)
    ensures ApplyWrites(fs, [w1, w2] + ws) == ApplyWrites(fs[w1.path := w1.content][w2.path := w2.content], ws)
  {
    assert ([w1, w2] + ws)[1..] == [w2] + ws;
    assert ([w2] + ws)[1..] == ws;
  }

  /** The content of a path is that of the last write to it ... */
  lemma {:induction false} LastWriteWins(fs: FileMap, ws: seq<Write>, i: nat)
    requires i < |ws|
    requires forall j :: i < j < |ws| ==> ws[j].path != ws[i].path
    ensures ws[i].path in ApplyWrites(fs, ws) && ApplyWrites(fs, ws)[ws[i].path] == ws[i].content
    decreases |ws|
  {
    if i == 0 {
      Untouched(fs[ws[0].path := ws[0].content], ws[1..], ws[0].path);
    } else {
      LastWriteWins(fs[ws[0].path := ws[0].content], ws[1..], i - 1);
    }
  }

  /** ... and a path no write touches keeps its content. */
  lemma {:induction false} Untouched(fs: FileMap, ws: seq<Write>, p: string)
    requires p in fs
    requires forall j :: 0 <= j < |ws| ==> ws[j].path != p
    ensures p in ApplyWrites(fs, ws) && ApplyWrites(fs, ws)[p] == fs[p]
    decreases |ws|
  {
    if |ws| > 0 {
      Untouched(fs[ws[0].path := ws[0].content], ws[1..], p);
    }
  }

  /** `p` lies in the directory tree of one of `roots`. */
  predicate Under(p: string, roots: set<string>) {
    exists r :: r in roots && StartsWith(p, r + "/")
  }

  /** `shutil.rmtree` of every root: everything below them is gone. */
  function Wipe(fs: FileMap, roots: set<string>): (r: FileMap)
    ensures forall p :: p in r <==> p in fs && !Under(p, roots)
    ensures forall p :: p in r ==> r[p] == fs[p]
  {
    map p | p in fs && !Under(p, roots) :: fs[p]
  }

  /** Writes that stay below the roots are undone by wiping the roots. */
  lemma {:induction false} WipeAfterWrites(fs: FileMap, ws: seq<Write>, roots: set<string>)
    requires forall j :: 0 <= j < |ws| ==> Under(ws[j].path, roots)
    ensures Wipe(ApplyWrites(fs, ws), roots) == Wipe(fs, roots)
    decreases |ws|
  {
    if |ws| > 0 {
      WipeAfterWrites(fs[ws[0].path := ws[0].content], ws[1..], roots);
      assert Wipe(fs[ws[0].path := ws[0].content], roots) == Wipe(fs, roots);
    }
  }

  /**
    Wiping the roots and then writing below them gives the same tree whatever was
    there before, so running a generator twice leaves what running it once left.
  */
  lemma Regenerate(fs: FileMap, ws: seq<Write>, roots: set<string>)
    requires forall j :: 0 <= j < |ws| ==> Under(ws[j].path, roots)
    ensures ApplyWrites(Wipe(ApplyWrites(Wipe(fs, roots), ws), roots), ws)
         == ApplyWrites(Wipe(fs, roots), ws)
  {
    WipeAfterWrites(Wipe(fs, roots), ws, roots);
    assert Wipe(Wipe(fs, roots), roots) == Wipe(fs, roots);
  }
}
