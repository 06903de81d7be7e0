/**
  The orders the Go code sorts by: byte-wise string order (`<` on strings,
  `sort.Strings`), and the order `fs.WalkDir` visits a tree in, which compares paths
  element by element. Sets are listed in increasing order; sequences are sorted by a key.
*/
module Sorting {
  import opened Text

  /** Go's `a < b` on strings. */
  predicate LexLess(a: string, b: string)
    decreases |a|
  {
    if |a| == 0 then |b| > 0
    else |b| > 0 && (a[0] < b[0] || (a[0] == b[0] && LexLess(a[1..], b[1..])))
  }

  lemma {:induction false} LexIrreflexive(a: string)
    ensures !LexLess(a, a)
    decreases |a|
  {
    if |a| > 0 {
      LexIrreflexive(a[1..]);
    }
  }

  lemma {:induction false} LexTransitive(a: string, b: string, c: string)
    requires LexLess(a, b) && LexLess(b, c)
    ensures LexLess(a, c)
    decreases |a|
  {
    if |a| > 0 && a[0] == b[0] && b[0] == c[0] {
      LexTransitive(a[1..], b[1..], c[1..]);
    }
  }

  lemma {:induction false} LexTotal(a: string, b: string)
    requires a != b
    ensures LexLess(a, b) || LexLess(b, a)
    decreases |a|
  {
    if |a| > 0 && |b| > 0 && a[0] == b[0] {
      assert a == [a[0]] + a[1..] && b == [b[0]] + b[1..];
      LexTotal(a[1..], b[1..]);
    }
  }

  /** Lexicographic order on sequences of path elements, each compared as a string. */
  predicate ElemsLess(x: seq<string>, y: seq<string>)
    decreases |x|
  {
    if |x| == 0 then |y| > 0
    else |y| > 0 && (LexLess(x[0], y[0]) || (x[0] == y[0] && ElemsLess(x[1..], y[1..])))
  }

  lemma {:induction false} ElemsIrreflexive(x: seq<string>)
    ensures !ElemsLess(x, x)
    decreases |x|
  {
    if |x| > 0 {
      LexIrreflexive(x[0]);
      ElemsIrreflexive(x[1..]);
    }
  }

  lemma {:induction false} ElemsTransitive(x: seq<string>, y: seq<string>, z: seq<string>)
    requires ElemsLess(x, y) && ElemsLess(y, z)
    ensures ElemsLess(x, z)
    decreases |x|
  {
    if |x| > 0 {
      if LexLess(x[0], y[0]) && LexLess(y[0], z[0]) {
        LexTransitive(x[0], y[0], z[0]);
      } else if x[0] == y[0] && y[0] == z[0] {
        ElemsTransitive(x[1..], y[1..], z[1..]);
      }
    }
  }

  lemma {:induction false} ElemsTotal(x: seq<string>, y: seq<string>)
    requires x != y
    ensures ElemsLess(x, y) || ElemsLess(y, x)
    decreases |x|
  {
    if |x| > 0 && |y| > 0 {
      if x[0] == y[0] {
        assert x == [x[0]] + x[1..] && y == [y[0]] + y[1..];
        ElemsTotal(x[1..], y[1..]);
      } else {
        LexTotal(x[0], y[0]);
      }
    }
  }

  /** The orders used here. */
  datatype Order = Bytes | WalkOrder

  /**
    `Bytes` is Go's string order; `WalkOrder` compares the `/`-separated elements, as
    `fs.WalkDir` does by visiting every directory's entries sorted by name.
  */
  predicate Less(o: Order, a: string, b: string) {
    match o
    case Bytes => LexLess(a, b)
    case WalkOrder => ElemsLess(Split(a, '/'), Split(b, '/'))
  }

  lemma Irreflexive(o: Order, a: string)
    ensures !Less(o, a, a)
  {
    match o
    case Bytes => LexIrreflexive(a);
    case WalkOrder => ElemsIrreflexive(Split(a, '/'));
  }

  lemma Transitive(o: Order, a: string, b: string, c: string)
    requires Less(o, a, b) && Less(o, b, c)
    ensures Less(o, a, c)
  {
    match o
    case Bytes => LexTransitive(a, b, c);
    case WalkOrder => ElemsTransitive(Split(a, '/'), Split(b, '/'), Split(c, '/'));
  }

  lemma Total(o: Order, a: string, b: string)
    requires a != b
    ensures Less(o, a, b) || Less(o, b, a)
  {
    match o
    case Bytes => LexTotal(a, b);
    case WalkOrder =>
      JoinSplit(a, '/');
      JoinSplit(b, '/');
      ElemsTotal(Split(a, '/'), Split(b, '/'));
  }

  lemma {:induction false} MinExists(o: Order, s: set<string>)
    requires s != {}
    ensures exists m :: m in s && forall y :: y in s && y != m ==> Less(o, m, y)
    decreases |s|
  {
    var x :| x in s;
    if s - {x} == {} {
      assert s == {x};
    } else {
      MinExists(o, s - {x});
      var m :| m in s - {x} && forall y :: y in s - {x} && y != m ==> Less(o, m, y);
      if Less(o, m, x) {
        assert forall y :: y in s && y != m ==> Less(o, m, y);
      } else {
        Total(o, m, x);
        forall y | y in s && y != x
          ensures Less(o, x, y)
        {
          if y != m {
            Transitive(o, x, m, y);
          }
        }
      }
    }
  }

  lemma MinUnique(o: Order, s: set<string>, m1: string, m2: string)
    requires m1 in s && forall y :: y in s && y != m1 ==> Less(o, m1, y)
    requires m2 in s && forall y :: y in s && y != m2 ==> Less(o, m2, y)
    ensures m1 == m2
  {
    if m1 != m2 {
      assert Less(o, m1, m2) && Less(o, m2, m1);
      Transitive(o, m1, m2, m1);
      Irreflexive(o, m1);
    }
  }

  /** The least element of a non-empty set. */
  function Min(o: Order, s: set<string>): (m: string)
    requires s != {}
    ensures m in s && forall y :: y in s && y != m ==> Less(o, m, y)
  {
    MinExists(o, s);
    forall m1, m2 | m1 in s && (forall y :: y in s && y != m1 ==> Less(o, m1, y))
                  && m2 in s && (forall y :: y in s && y != m2 ==> Less(o, m2, y))
      ensures m1 == m2
    {
      MinUnique(o, s, m1, m2);
    }
    var m :| m in s && forall y :: y in s && y != m ==> Less(o, m, y);
    m
  }

  predicate Increasing(o: Order, r: seq<string>) {
    forall i, j :: 0 <= i < j < |r| ==> Less(o, r[i], r[j])
  }

  /** The elements of `s`, each once, in increasing order. */
  function SortSet(o: Order, s: set<string>): (r: seq<string>)
    decreases |s|
    ensures |r| == |s|
    ensures forall x :: x in r <==> x in s
    ensures Increasing(o, r)
  {
    if s == {} then []
    else
      var m := Min(o, s);
      var rest := SortSet(o, s - {m});
      assert forall x :: x in rest ==> x in s && x != m;
      IncreasingCons(o, m, rest);
      [m] + rest
  }

  /** An element below every element of an increasing sequence can go in front of it. */
  lemma IncreasingCons(o: Order, h: string, t: seq<string>)
    requires Increasing(o, t)
    requires forall j :: 0 <= j < |t| ==> Less(o, h, t[j])
    ensures Increasing(o, [h] + t)
  {
    var q := [h] + t;
    assert forall j :: 0 < j < |q| ==> q[j] == t[j - 1];
  }

  predicate SortedBy<T>(r: seq<T>, key: T -> string) {
    forall i, j :: 0 <= i < j < |r| ==> !LexLess(key(r[j]), key(r[i]))
  }

  lemma {:induction false} LexAsymmetric(a: string, b: string)
    requires LexLess(a, b)
    ensures !LexLess(b, a)
    decreases |a|
  {
    if |a| > 0 && a[0] == b[0] {
      LexAsymmetric(a[1..], b[1..]);
    }
  }

  /** "Not less than" is transitive, since the order is total. */
  lemma NotLessTransitive(a: string, b: string, c: string)
    requires !LexLess(a, b) && !LexLess(b, c)
    ensures !LexLess(a, c)
  {
    if a != b { LexTotal(a, b); }
    if b != c { LexTotal(b, c); }
    if a == c {
      LexIrreflexive(a);
    } else if a == b {
      LexAsymmetric(c, a);
    } else if b == c {
      LexAsymmetric(c, a);
    } else {
      LexTransitive(c, b, a);
      LexAsymmetric(c, a);
    }
  }

  /** An element no greater than any of a sorted sequence can go in front of it. */
  lemma SortedCons<T>(h: T, t: seq<T>, key: T -> string)
    requires SortedBy(t, key)
    requires forall j :: 0 <= j < |t| ==> !LexLess(key(t[j]), key(h))
    ensures SortedBy([h] + t, key)
  {
    var q := [h] + t;
    assert forall j :: 0 < j < |q| ==> q[j] == t[j - 1];
  }

  function Insert<T>(x: T, r: seq<T>, key: T -> string): (q: seq<T>)
    requires SortedBy(r, key)
    ensures multiset(q) == multiset(r) + multiset{x}
    ensures SortedBy(q, key)
  {
    if |r| == 0 then [x]
    else if !LexLess(key(r[0]), key(x)) then
      assert forall j :: 0 < j < |r| ==> !LexLess(key(r[j]), key(x)) by {
        forall j | 0 < j < |r|
          ensures !LexLess(key(r[j]), key(x))
        {
          NotLessTransitive(key(r[j]), key(r[0]), key(x));
        }
      }
      SortedCons(x, r, key);
      [x] + r
    else
      var q' := Insert(x, r[1..], key);
      assert r == [r[0]] + r[1..];
      LexAsymmetric(key(r[0]), key(x));
      assert forall j :: 0 <= j < |q'| ==> !LexLess(key(q'[j]), key(r[0])) by {
        forall j | 0 <= j < |q'|
          ensures !LexLess(key(q'[j]), key(r[0]))
        {
          assert q'[j] in multiset(q');
          assert q'[j] == x || q'[j] in multiset(r[1..]);
          if q'[j] != x {
            var k :| 0 <= k < |r[1..]| && r[1..][k] == q'[j];
            assert r[k + 1] == q'[j];
          }
        }
      }
      SortedCons(r[0], q', key);
      [r[0]] + q'
  }

  /** `sort.Strings` / `sort.Slice`: a permutation of `s` ordered by `key`. */
  function SortBy<T>(s: seq<T>, key: T -> string): (r: seq<T>)
    ensures multiset(r) == multiset(s)
    ensures SortedBy(r, key)
  {
    if |s| == 0 then []
    else
      assert s == s[..|s| - 1] + [s[|s| - 1]];
      Insert(s[|s| - 1], SortBy(s[..|s| - 1], key), key)
  }
}
