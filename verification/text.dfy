/**
  String helpers shared by the generator scripts (Python) and the test runner (Go).
  A string is a sequence of characters; where Go works on bytes and Python on code
  points, one character stands for one unit of either.
*/
module Text {

  /** `p` is a prefix of `s` (Python `str.startswith`, Go `strings.HasPrefix`). */
  predicate StartsWith(s: string, p: string) {
    |p| <= |s| && s[..|p|] == p
  }

  /** `p` is a suffix of `s` (Python `str.endswith`, Go `strings.HasSuffix`). */
  predicate EndsWith(s: string, p: string) {
    |p| <= |s| && s[|s| - |p|..] == p
  }

  /** Go `strings.TrimSuffix`: `s` without the suffix `p`, or `s` when it does not end in `p`. */
  function TrimSuffix(s: string, p: string): (r: string)
    ensures EndsWith(s, p) ==> r + p == s
    ensures !EndsWith(s, p) ==> r == s
  {
    if EndsWith(s, p) then
      assert s == s[..|s| - |p|] + s[|s| - |p|..];
      s[..|s| - |p|]
    else s
  }

  /** Python `str.removeprefix`: `s` without the prefix `p`, or `s` when it does not start with `p`. */
  function TrimPrefix(s: string, p: string): (r: string)
    ensures StartsWith(s, p) ==> p + r == s
    ensures !StartsWith(s, p) ==> r == s
  {
    if StartsWith(s, p) then
      assert s == s[..|p|] + s[|p|..];
      s[|p|..]
    else s
  }

  /** `p` occurs in `s` starting at index `i`. */
  predicate OccursAt(s: string, p: string, i: int) {
    0 <= i && i + |p| <= |s| && s[i..i + |p|] == p
  }

  /** `p` occurs somewhere in `s` (Python `p in s`, Go `strings.Contains`). */
  predicate Contains(s: string, p: string)
    decreases |s|
  {
    StartsWith(s, p) || (|s| > 0 && Contains(s[1..], p))
  }

  /** The last index `< k` at which `p` occurs in `s`, or -1. */
  function LastIndexBelow(s: string, p: string, k: int): (r: int)
    decreases k
    ensures -1 <= r && (r < k || r == -1)
    ensures r >= 0 ==> OccursAt(s, p, r)
    ensures forall j :: r < j < k ==> !OccursAt(s, p, j)
  {
    if k <= 0 then -1
    else if OccursAt(s, p, k - 1) then k - 1
    else LastIndexBelow(s, p, k - 1)
  }

  /** Go `strings.LastIndex`: the largest index at which `p` occurs in `s`, or -1. */
  function LastIndex(s: string, p: string): (r: int)
    ensures -1 <= r
    ensures r >= 0 ==> OccursAt(s, p, r)
    ensures forall j :: r < j ==> !OccursAt(s, p, j)
  {
    LastIndexBelow(s, p, |s| - |p| + 1)
  }

  /** The first index of `c` in `s`, or -1. */
  function IndexOf(s: string, c: char): (r: int)
    ensures -1 <= r < |s|
    ensures r >= 0 ==> s[r] == c && c !in s[..r]
    ensures r < 0 ==> c !in s
  {
    if |s| == 0 then -1
    else if s[0] == c then 0
    else
      var r := IndexOf(s[1..], c);
      assert s == [s[0]] + s[1..];
      if r < 0 then -1
      else
        assert s[..r + 1] == [s[0]] + s[1..][..r];
        r + 1
  }

  lemma {:induction false} IndexOfAt(s: string, c: char, k: nat)
    requires k < |s| && s[k] == c && c !in s[..k]
    ensures IndexOf(s, c) == k
    decreases k
  {
    if k > 0 {
      assert s[..k][0] == s[0];
      assert s[1..][..k - 1] == s[..k][1..];
      IndexOfAt(s[1..], c, k - 1);
    }
  }

  /** Go `strings.Split` with a one-character separator: never empty, no piece holds `c`. */
  function Split(s: string, c: char): (r: seq<string>)
    decreases |s|
    ensures |r| >= 1
  {
    var i := IndexOf(s, c);
    if i < 0 then [s]
    else [s[..i]] + Split(s[i + 1..], c)
  }

  /** No piece of a split holds the separator. */
  lemma {:induction false} SplitNoSep(s: string, c: char)
    ensures forall i :: 0 <= i < |Split(s, c)| ==> c !in Split(s, c)[i]
    decreases |s|
  {
    var i := IndexOf(s, c);
    if i >= 0 {
      var rest := Split(s[i + 1..], c);
      SplitNoSep(s[i + 1..], c);
      assert Split(s, c) == [s[..i]] + rest;
      assert forall j :: 0 < j < |Split(s, c)| ==> Split(s, c)[j] == rest[j - 1];
    }
  }

  /** Python `sep.join(parts)`, Go `strings.Join(parts, sep)`. */
  function Join(parts: seq<string>, sep: string): string
  {
    if |parts| == 0 then ""
    else if |parts| == 1 then parts[0]
    else parts[0] + sep + Join(parts[1..], sep)
  }

  lemma JoinCons(p: string, rest: seq<string>, sep: string)
    requires |rest| >= 1
    ensures Join([p] + rest, sep) == p + sep + Join(rest, sep)
  {
    assert ([p] + rest)[1..] == rest;
  }

  /** Joining the pieces of a split with the separator gives back the string. */
  lemma {:induction false} JoinSplit(s: string, c: char)
    ensures Join(Split(s, c), [c]) == s
    decreases |s|
  {
    var i := IndexOf(s, c);
    if i >= 0 {
      var rest := Split(s[i + 1..], c);
      JoinSplit(s[i + 1..], c);
      JoinCons(s[..i], rest, [c]);
      assert s == s[..i] + [c] + s[i + 1..];
    }
  }

  /** Splitting a join of pieces free of the separator gives back the pieces. */
  lemma {:induction false} SplitJoin(parts: seq<string>, c: char)
    requires |parts| >= 1
    requires forall i :: 0 <= i < |parts| ==> c !in parts[i]
    ensures Split(Join(parts, [c]), c) == parts
    decreases |parts|
  {
    var p := parts[0];
    if |parts| == 1 {
      assert c !in p;
    } else {
      var rest := parts[1..];
      assert parts == [p] + rest;
      var s := Join(parts, [c]);
      assert s == p + [c] + Join(rest, [c]);
      assert s[..|p|] == p;
      IndexOfAt(s, c, |p|);
      var i := |p|;
      assert s[..i] == p;
      assert s[i + 1..] == Join(rest, [c]);
      SplitJoin(rest, c);
    }
  }

  /** Removes the longest prefix whose characters all satisfy `ws`. */
  function TrimLeftBy(s: string, ws: char -> bool): (r: string)
    ensures |r| <= |s| && r == s[|s| - |r|..]
    ensures r == [] || !ws(r[0])
    ensures forall i :: 0 <= i < |s| - |r| ==> ws(s[i])
  {
    if |s| > 0 && ws(s[0]) then
      var r := TrimLeftBy(s[1..], ws);
      assert s[1..][|s| - 1 - |r|..] == s[|s| - |r|..];
      assert forall i :: 1 <= i < |s| - |r| ==> s[1..][i - 1] == s[i];
      r
    else s
  }

  /** Removes the longest suffix whose characters all satisfy `ws`. */
  function TrimRightBy(s: string, ws: char -> bool): (r: string)
    ensures |r| <= |s| && r == s[..|r|]
    ensures r == [] || !ws(r[|r| - 1])
    ensures forall i :: |r| <= i < |s| ==> ws(s[i])
  {
    if |s| > 0 && ws(s[|s| - 1]) then
      var r := TrimRightBy(s[..|s| - 1], ws);
      assert s[..|s| - 1][..|r|] == s[..|r|];
      r
    else s
  }

  /** What trimming both ends keeps is the text from where the left trim stopped, character by character. */
  lemma TrimBothIndex(s: string, ws: char -> bool)
    ensures forall p :: 0 <= p < |TrimRightBy(TrimLeftBy(s, ws), ws)|
              ==> TrimRightBy(TrimLeftBy(s, ws), ws)[p] == s[|s| - |TrimLeftBy(s, ws)| + p]
  {
    var left := TrimLeftBy(s, ws);
    PrefixIndex(left, TrimRightBy(left, ws));
    SuffixIndex(s, left);
  }

  /** Only trimmed characters follow what trimming both ends keeps. */
  lemma TrimBothTrailing(s: string, ws: char -> bool)
    ensures forall p :: |s| - |TrimLeftBy(s, ws)| + |TrimRightBy(TrimLeftBy(s, ws), ws)| <= p < |s|
              ==> ws(s[p])
  {
    var left := TrimLeftBy(s, ws);
    SuffixIndex(s, left);
  }

  lemma PrefixIndex(s: string, r: string)
    requires |r| <= |s| && r == s[..|r|]
    ensures forall p :: 0 <= p < |r| ==> r[p] == s[p]
  {
  }

  lemma SuffixIndex(s: string, r: string)
    requires |r| <= |s| && r == s[|s| - |r|..]
    ensures forall p :: 0 <= p < |r| ==> r[p] == s[|s| - |r| + p]
  {
  }

  /** Go `unicode.IsSpace`, the set `strings.TrimSpace` removes. */
  predicate IsGoSpace(c: char) {
    c == '\t' || c == '\n' || c == '\U{000B}' || c == '\U{000C}' || c == '\r' || c == ' '
    || c == '\U{0085}' || c == '\U{00A0}' || c == '\U{1680}' || ('\U{2000}' <= c <= '\U{200A}')
    || c == '\U{2028}' || c == '\U{2029}' || c == '\U{202F}' || c == '\U{205F}' || c == '\U{3000}'
  }

  /** Python `str.isspace`, the set `str.strip()` removes: Go's set plus U+001C..U+001F. */
  predicate IsPySpace(c: char) {
    IsGoSpace(c) || ('\U{001C}' <= c <= '\U{001F}')
  }

  /** Python `bytes.strip()`: ASCII whitespace only. */
  predicate IsAsciiSpace(c: char) {
    c == ' ' || c == '\t' || c == '\n' || c == '\r' || c == '\U{000B}' || c == '\U{000C}'
  }

  predicate IsNewline(c: char) { c == '\n' }

  /** Go `strings.TrimSpace`. */
  function TrimSpace(s: string): (r: string)
    ensures r == [] || (!IsGoSpace(r[0]) && !IsGoSpace(r[|r| - 1]))
    ensures |r| <= |s|
  {
    TrimRightBy(TrimLeftBy(s, IsGoSpace), IsGoSpace)
  }

  /** A string that neither starts nor ends with a space is left alone by `TrimSpace`. */
  lemma TrimSpaceFixed(s: string)
    requires s == [] || (!IsGoSpace(s[0]) && !IsGoSpace(s[|s| - 1]))
    ensures TrimSpace(s) == s
  {
    var l := TrimLeftBy(s, IsGoSpace);
    var r := TrimRightBy(l, IsGoSpace);
  }

  /** Trimming adds no character. */
  lemma TrimSpaceKeeps(s: string, c: char)
    requires c !in s
    ensures c !in TrimSpace(s)
  {
    var l := TrimLeftBy(s, IsGoSpace);
    var r := TrimRightBy(l, IsGoSpace);
    assert forall k :: 0 <= k < |r| ==> r[k] == s[|s| - |l| + k];
  }

  /** Python `str.strip()`. */
  function PyStrip(s: string): (r: string)
    ensures r == [] || (!IsPySpace(r[0]) && !IsPySpace(r[|r| - 1]))
    ensures |r| <= |s|
  {
    TrimRightBy(TrimLeftBy(s, IsPySpace), IsPySpace)
  }

  /** Go `strings.ReplaceAll(s, string(c), rep)`. */
  function ExpandChar(s: string, c: char, rep: string): (r: string)
    ensures c !in s ==> r == s
  {
    if |s| == 0 then ""
    else (if s[0] == c then rep else [s[0]]) + ExpandChar(s[1..], c, rep)
  }

  lemma {:induction false} ExpandCharAppend(a: string, b: string, c: char, rep: string)
    ensures ExpandChar(a + b, c, rep) == ExpandChar(a, c, rep) + ExpandChar(b, c, rep)
    decreases |a|
  {
    if |a| > 0 {
      assert (a + b)[0] == a[0] && (a + b)[1..] == a[1..] + b;
      ExpandCharAppend(a[1..], b, c, rep);
    } else {
      assert a + b == b;
    }
  }

  /** Replacing every separator by separator-plus-pad is joining the pieces with it. */
  lemma {:induction false} ExpandJoin(parts: seq<string>, c: char, pad: string)
    requires forall i :: 0 <= i < |parts| ==> c !in parts[i]
    ensures ExpandChar(Join(parts, [c]), c, [c] + pad) == Join(parts, [c] + pad)
    decreases |parts|
  {
    if |parts| > 1 {
      var p := parts[0];
      ExpandCharAppend(p + [c], Join(parts[1..], [c]), c, [c] + pad);
      ExpandCharAppend(p, [c], c, [c] + pad);
      assert ExpandChar([c], c, [c] + pad) == [c] + pad;
      ExpandJoin(parts[1..], c, pad);
    }
  }

  /** Prefixes every element of `parts` with `pad`. */
  function PrefixAll(parts: seq<string>, pad: string): (r: seq<string>)
    ensures |r| == |parts|
    ensures forall i :: 0 <= i < |parts| ==> r[i] == pad + parts[i]
  {
    seq(|parts|, i requires 0 <= i < |parts| => pad + parts[i])
  }

  lemma {:induction false} PadJoin(parts: seq<string>, c: char, pad: string)
    requires |parts| >= 1
    ensures pad + Join(parts, [c] + pad) == Join(PrefixAll(parts, pad), [c])
    decreases |parts|
  {
    if |parts| > 1 {
      PadJoin(parts[1..], c, pad);
      assert PrefixAll(parts, pad) == [pad + parts[0]] + PrefixAll(parts[1..], pad);
      JoinCons(pad + parts[0], PrefixAll(parts[1..], pad), [c]);
    }
  }

  /**
    Go `pad + strings.ReplaceAll(strings.TrimRight(s, "\n"), "\n", "\n"+pad)`, the
    body of `indent`/`indentWith`: every line of `s` (after dropping its trailing
    newlines) gets `pad` in front of it.
  */
  function PadLines(s: string, pad: string): (r: string)
    ensures StartsWith(r, pad)
    ensures '\n' !in TrimRightBy(s, IsNewline) ==> r == pad + TrimRightBy(s, IsNewline)
  {
    pad + ExpandChar(TrimRightBy(s, IsNewline), '\n', "\n" + pad)
  }

  /** With a pad free of newlines, the lines of the result are the lines of `s` (after
      dropping its trailing newlines) each with `pad` in front, and the result does not
      end in a newline unless it is the pad alone. */
  lemma PadLinesSplit(s: string, pad: string)
    requires '\n' !in pad
    ensures var r := PadLines(s, pad);
      && Split(r, '\n') == PrefixAll(Split(TrimRightBy(s, IsNewline), '\n'), pad)
      && (r == [] || r[|r| - 1] != '\n' || r == pad)
  {
    var t := TrimRightBy(s, IsNewline);
    var parts := Split(t, '\n');
    JoinSplit(t, '\n');
    SplitNoSep(t, '\n');
    ExpandJoin(parts, '\n', pad);
    PadJoin(parts, '\n', pad);
    var r := pad + ExpandChar(t, '\n', "\n" + pad);
    assert r == Join(PrefixAll(parts, pad), "\n");
    SplitJoin(PrefixAll(parts, pad), '\n');
    PadLinesLast(t, pad);
  }

  lemma PadLinesLast(t: string, pad: string)
    requires '\n' !in pad
    requires t == [] || t[|t| - 1] != '\n'
    ensures var r := pad + ExpandChar(t, '\n', "\n" + pad);
            r == [] || r[|r| - 1] != '\n' || (|r| == |pad| && r == pad)
  {
    if t != [] {
      var n := |t| - 1;
      assert t == t[..n] + [t[n]];
      ExpandCharAppend(t[..n], [t[n]], '\n', "\n" + pad);
      assert ExpandChar([t[n]], '\n', "\n" + pad) == [t[n]];
    } else {
      assert pad == pad[..|pad|];
      if pad != [] {
        assert pad[|pad| - 1] in pad;
      }
    }
  }

  /** `n` copies of character `c` (Go `strings.Repeat(string(c), n)`). */
  function Repeat(c: char, n: nat): (r: string)
    ensures |r| == n && forall i :: 0 <= i < n ==> r[i] == c
  {
    if n == 0 then "" else [c] + Repeat(c, n - 1)
  }

  /** ASCII lower-casing of one character. */
  function LowerChar(c: char): char {
    if 'A' <= c <= 'Z' then (c as int + 32) as char else c
  }

  /** Python `str.lower()` restricted to ASCII letters. */
  function Lower(s: string): (r: string)
    ensures |r| == |s|
    ensures forall i :: 0 <= i < |s| ==> r[i] == LowerChar(s[i])
  {
    seq(|s|, i requires 0 <= i < |s| => LowerChar(s[i]))
  }

  /** Python `s.replace(old, new)` for one-character `old` and `new`. */
  function ReplaceChar(s: string, from: char, to: char): (r: string)
    ensures |r| == |s|
    ensures forall i :: 0 <= i < |s| ==> r[i] == if s[i] == from then to else s[i]
  {
    seq(|s|, i requires 0 <= i < |s| => if s[i] == from then to else s[i])
  }

  /** Decimal digits of `n` (Python `f"{n}"`, Go `strconv.Itoa`). */
  function NatToString(n: nat): (r: string)
    ensures |r| >= 1
    ensures forall i :: 0 <= i < |r| ==> '0' <= r[i] <= '9'
    ensures |r| > 1 ==> r[0] != '0'
    decreases n
  {
    var d := ['0' + (n % 10) as char];
    if n < 10 then d else NatToString(n / 10) + d
  }

  /** The number the decimal digits of `s` denote. */
  function DigitsValue(s: string): nat
    requires forall i :: 0 <= i < |s| ==> '0' <= s[i] <= '9'
  {
    if |s| == 0 then 0 else 10 * DigitsValue(s[..|s| - 1]) + (s[|s| - 1] - '0') as nat
  }

  /** Printing a number in decimal and reading the digits back gives the number. */
  lemma {:induction false} NatToStringValue(n: nat)
    ensures DigitsValue(NatToString(n)) == n
    decreases n
  {
    var d := ['0' + (n % 10) as char];
    if n >= 10 {
      NatToStringValue(n / 10);
      var r := NatToString(n / 10) + d;
      assert r[..|r| - 1] == NatToString(n / 10);
    }
  }

  /** So distinct indices give distinct file names. */
  lemma NatToStringInjective(m: nat, n: nat)
    requires NatToString(m) == NatToString(n)
    ensures m == n
  {
    NatToStringValue(m);
    NatToStringValue(n);
  }

  /** Python's `str.splitlines()` line boundaries. */
  predicate IsLineBreak(c: char) {
    c == '\n' || c == '\r' || c == '\U{000B}' || c == '\U{000C}' || ('\U{001C}' <= c <= '\U{001E}')
    || c == '\U{0085}' || c == '\U{2028}' || c == '\U{2029}'
  }

  /** The index of the first line boundary in `s`, or `|s|`. */
  function FirstBreak(s: string): (r: nat)
    ensures r <= |s|
    ensures r < |s| ==> IsLineBreak(s[r])
    ensures forall i :: 0 <= i < r ==> !IsLineBreak(s[i])
  {
    if |s| == 0 || IsLineBreak(s[0]) then 0 else 1 + FirstBreak(s[1..])
  }

  lemma {:induction false} FirstBreakAt(s: string, k: nat)
    requires k < |s| && IsLineBreak(s[k])
    requires forall j :: 0 <= j < k ==> !IsLineBreak(s[j])
    ensures FirstBreak(s) == k
    decreases k
  {
    if k > 0 {
      assert !IsLineBreak(s[0]);
      FirstBreakAt(s[1..], k - 1);
    }
  }

  /** No character of `s` is a line boundary. */
  predicate NoBreaks(s: string) {
    forall i :: 0 <= i < |s| ==> !IsLineBreak(s[i])
  }

  /**
    Python `str.splitlines()`: cut at every boundary (a `\r\n` pair is one boundary),
    drop the boundaries, and drop a final empty piece.
  */
  function SplitLines(s: string): (r: seq<string>)
    decreases |s|
    ensures forall i :: 0 <= i < |r| ==> NoBreaks(r[i])
  {
    var i := FirstBreak(s);
    if i == |s| then (if s == "" then [] else [s])
    else
      var w := if s[i] == '\r' && i + 1 < |s| && s[i + 1] == '\n' then 2 else 1;
      [s[..i]] + SplitLines(s[i + w..])
  }

  /** `lines` with one trailing empty element removed, if there is one. */
  function DropTrailingEmpty(lines: seq<string>): seq<string> {
    if |lines| > 0 && lines[|lines| - 1] == "" then lines[..|lines| - 1] else lines
  }

  /**
    The lines of a text built by joining break-free lines with `\n` are those lines,
    except that a final empty line disappears.
  */
  lemma {:induction false} SplitLinesJoin(lines: seq<string>)
    requires |lines| >= 1
    requires forall i :: 0 <= i < |lines| ==> NoBreaks(lines[i])
    ensures SplitLines(Join(lines, "\n")) == DropTrailingEmpty(lines)
    decreases |lines|
  {
    var p := lines[0];
    if |lines| == 1 {
      assert FirstBreak(p) == |p|;
    } else {
      var rest := lines[1..];
      assert Join(lines, "\n") == p + "\n" + Join(rest, "\n");
      SplitLinesStep(p, Join(rest, "\n"));
      assert forall i :: 0 <= i < |rest| ==> rest[i] == lines[i + 1];
      SplitLinesJoin(rest);
      DropTrailingCons(lines);
    }
  }

  lemma DropTrailingCons(lines: seq<string>)
    requires |lines| >= 2
    ensures DropTrailingEmpty(lines) == [lines[0]] + DropTrailingEmpty(lines[1..])
  {
    if lines[|lines| - 1] == "" {
      assert lines[..|lines| - 1] == [lines[0]] + lines[1..][..|lines| - 2];
    } else {
      assert lines == [lines[0]] + lines[1..];
    }
  }

  /** A break-free line followed by `\n` is the first line of the text. */
  lemma SplitLinesStep(p: string, t: string)
    requires NoBreaks(p)
    ensures SplitLines(p + "\n" + t) == [p] + SplitLines(t)
  {
    var s := p + "\n" + t;
    assert forall j :: 0 <= j < |p| ==> s[j] == p[j];
    FirstBreakAt(s, |p|);
    assert s[..|p|] == p;
    assert s[|p| + 1..] == t;
  }

  /**
    Python `bytes.readlines()`: cut after every `\n`, keeping it; a last piece without
    `\n` is kept when it is not empty.
  */
  function ReadLines(s: string): (r: seq<string>)
    decreases |s|
    ensures forall i :: 0 <= i < |r| ==> r[i] != ""
  {
    var i := IndexOf(s, '\n');
    if i < 0 then (if s == "" then [] else [s])
    else [s[..i + 1]] + ReadLines(s[i + 1..])
  }

  /** Concatenating what `readlines` returns gives back the whole file. */
  lemma {:induction false} ReadLinesConcat(s: string)
    ensures Concat(ReadLines(s)) == s
    decreases |s|
  {
    var i := IndexOf(s, '\n');
    if i >= 0 {
      ReadLinesConcat(s[i + 1..]);
      assert s == s[..i + 1] + s[i + 1..];
    }
  }

  function Concat(parts: seq<string>): string {
    if |parts| == 0 then "" else parts[0] + Concat(parts[1..])
  }
}
