/**
  Go's `path.Clean` and `path.Join` (slash-separated paths), element by element:
  empty and `.` elements vanish, `..` removes the element before it when there is one,
  and is kept at the start of a relative path or dropped at the root.
*/
module GoPath {
  import opened Text

  /** The cleaned elements of `elems`, processed left to right. */
  function CleanElems(elems: seq<string>, rooted: bool): (r: seq<string>)
    ensures forall i :: 0 <= i < |r| ==> r[i] != "" && r[i] != "."
  {
    if |elems| == 0 then []
    else
      var st := CleanElems(elems[..|elems| - 1], rooted);
      var e := elems[|elems| - 1];
      if e == "" || e == "." then st
      else if e == ".." then
        (if |st| > 0 && st[|st| - 1] != ".." then st[..|st| - 1]
         else if rooted then st
         else st + [".."])
      else st + [e]
  }

  /** `path.Clean`. */
  function Clean(p: string): (r: string)
    ensures r != ""
  {
    if p == "" then "."
    else
      var rooted := p[0] == '/';
      var body := Join(CleanElems(Split(p, '/'), rooted), "/");
      var r := (if rooted then "/" else "") + body;
      if r == "" then "." else r
  }

  /** `path.Join(dir, name)` for a non-empty `dir`. */
  function Join2(dir: string, name: string): string
    requires dir != ""
  {
    if name == "" then Clean(dir) else Clean(dir + "/" + name)
  }

  /** An element that cleaning leaves alone. */
  predicate Plain(e: string) {
    e != "" && e != "." && e != ".."
  }

  lemma {:induction false} CleanPlainElems(elems: seq<string>, rooted: bool)
    requires forall i :: 0 <= i < |elems| ==> Plain(elems[i])
    ensures CleanElems(elems, rooted) == elems
    decreases |elems|
  {
    if |elems| > 0 {
      CleanPlainElems(elems[..|elems| - 1], rooted);
      assert elems[..|elems| - 1] + [elems[|elems| - 1]] == elems;
    }
  }

  /** A relative path whose elements are all plain is already clean. */
  lemma CleanPlain(p: string)
    requires p != "" && p[0] != '/'
    requires forall i :: 0 <= i < |Split(p, '/')| ==> Plain(Split(p, '/')[i])
    ensures Clean(p) == p
  {
    CleanPlainElems(Split(p, '/'), false);
    JoinSplit(p, '/');
  }

  /** Joining a directory and a name made of plain elements is concatenation with `/`. */
  lemma Join2Plain(dir: string, name: string)
    requires dir != "" && name != "" && dir[0] != '/'
    requires forall i :: 0 <= i < |Split(dir, '/')| ==> Plain(Split(dir, '/')[i])
    requires forall i :: 0 <= i < |Split(name, '/')| ==> Plain(Split(name, '/')[i])
    ensures Join2(dir, name) == dir + "/" + name
  {
    var p := dir + "/" + name;
    JoinSplit(dir, '/');
    JoinSplit(name, '/');
    SplitNoSep(dir, '/');
    SplitNoSep(name, '/');
    var parts := Split(dir, '/') + Split(name, '/');
    JoinAppend(Split(dir, '/'), Split(name, '/'), "/");
    assert Join(parts, "/") == p;
    forall i | 0 <= i < |parts|
      ensures '/' !in parts[i]
    {
      if i < |Split(dir, '/')| {
        assert parts[i] == Split(dir, '/')[i];
      } else {
        assert parts[i] == Split(name, '/')[i - |Split(dir, '/')|];
      }
    }
    SplitJoin(parts, '/');
    assert Split(p, '/') == parts;
    assert p[0] == dir[0];
    CleanPlain(p);
  }

  lemma {:induction false} JoinAppend(a: seq<string>, b: seq<string>, sep: string)
    requires |a| >= 1 && |b| >= 1
    ensures Join(a + b, sep) == Join(a, sep) + sep + Join(b, sep)
    decreases |a|
  {
    if |a| == 1 {
      assert a + b == [a[0]] + b;
      JoinCons(a[0], b, sep);
    } else {
      assert a + b == [a[0]] + (a[1..] + b);
      JoinCons(a[0], a[1..] + b, sep);
      JoinAppend(a[1..], b, sep);
      JoinCons(a[0], a[1..], sep);
      assert a == [a[0]] + a[1..];
    }
  }
}
