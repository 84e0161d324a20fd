/**
 The POSIX `os.path` functions the scripts call: `basename`, `dirname`,
 `splitext` (its root half) and two-argument `join`.
 */
module Paths {

  /** `s.rfind(c)`: the position of the last `c`, or -1. */
  function LastIndex(s: string, c: char): (i: int)
    ensures -1 <= i < |s|
    ensures 0 <= i ==> s[i] == c
    ensures c !in s[i + 1..]
  {
    if s == [] then -1
    else if s[|s| - 1] == c then |s| - 1
    else
      var t := s[..|s| - 1];
      var i := LastIndex(t, c);
      NotInSnoc(t, i, s[|s| - 1], c);
      assert t + [s[|s| - 1]] == s;
      i
  }

  lemma NotInSnoc(t: string, i: int, x: char, c: char)
    requires -1 <= i < |t| && c !in t[i + 1..] && x != c
    ensures c !in (t + [x])[i + 1..]
  {
    assert (t + [x])[i + 1..] == t[i + 1..] + [x];
  }

  /** `LastIndex` is the one position that holds `c` with no `c` after it. */
  lemma LastIndexUnique(s: string, c: char, i: int)
    requires -1 <= i < |s|
    requires 0 <= i ==> s[i] == c
    requires c !in s[i + 1..]
    ensures LastIndex(s, c) == i
  {
    var j := LastIndex(s, c);
    forall m | 0 <= m <= i
      ensures c in s[m..]
    {
      assert s[m..][i - m] == c;
    }
    forall m | 0 <= m <= j
      ensures c in s[m..]
    {
      assert s[m..][j - m] == c;
    }
  }

  /** The last `c` is found after a tail that has none. */
  lemma LastIndexBefore(a: string, c: char, b: string)
    requires c !in b
    ensures LastIndex(a + [c] + b, c) == |a|
  {
    var s := a + [c] + b;
    assert s[|a| + 1..] == b;
    LastIndexUnique(s, c, |a|);
  }

  /** A tail without `c` leaves the last `c` where it was. */
  lemma LastIndexSkips(a: string, c: char, b: string)
    requires c !in b
    ensures LastIndex(a + b, c) == LastIndex(a, c)
  {
    var i := LastIndex(a, c);
    var s := a + b;
    assert s[i + 1..] == a[i + 1..] + b;
    if 0 <= i {
      assert s[i] == a[i];
    }
    LastIndexUnique(s, c, i);
  }

  predicate AllSlashes(s: string) {
    forall i :: 0 <= i < |s| ==> s[i] == '/'
  }

  /** `s.rstrip('/')`. */
  function StripTrailingSlashes(s: string): (r: string)
    ensures |r| <= |s| && r == s[..|r|]
    ensures r == [] || r[|r| - 1] != '/'
    ensures AllSlashes(s[|r|..])
  {
    if s != [] && s[|s| - 1] == '/' then
      var r := StripTrailingSlashes(s[..|s| - 1]);
      assert s[|r|..] == s[..|s| - 1][|r|..] + ['/'];
      r
    else s
  }

  /** `os.path.basename(p)`: everything after the last slash. */
  function Basename(p: string): (r: string)
    ensures '/' !in r
    ensures |r| <= |p| && p == p[..|p| - |r|] + r
  {
    p[LastIndex(p, '/') + 1..]
  }

  /**
   `os.path.dirname(p)`: everything up to the last slash, with trailing
   slashes removed unless the head consists of slashes only.
   */
  function Dirname(p: string): (r: string)
    ensures |r| <= |p| && r == p[..|r|]
    ensures r == [] || AllSlashes(r) || r[|r| - 1] != '/'
  {
    var head := p[..LastIndex(p, '/') + 1];
    if head != [] && !AllSlashes(head) then
      var r := StripTrailingSlashes(head);
      assert r == p[..|r|];
      r
    else head
  }

  /** Some character of `p[lo..hi]` is not a dot. */
  predicate HasNonDot(p: string, lo: int, hi: int)
    requires 0 <= lo <= hi <= |p|
  {
    exists k :: lo <= k < hi && p[k] != '.'
  }

  /**
   The root half of `os.path.splitext(p)`: the text before the last dot of
   the final component, provided that dot is preceded by some character
   other than a dot within that component (so `.bashrc` has no extension).
   */
  function SplitextRoot(p: string): (r: string)
    ensures |r| <= |p| && r == p[..|r|]
  {
    var sepIndex := LastIndex(p, '/');
    var dotIndex := LastIndex(p, '.');
    if dotIndex > sepIndex && HasNonDot(p, sepIndex + 1, dotIndex) then p[..dotIndex] else p
  }

  /** `os.path.join(a, b)`. */
  function JoinPath(a: string, b: string): string
  {
    if |b| > 0 && b[0] == '/' then b
    else if a == [] || a[|a| - 1] == '/' then a + b
    else a + "/" + b
  }

  /** Joining a directory with a plain file name is undone by `basename` and `dirname`. */
  lemma JoinSplitsBack(p: string, name: string)
    requires name != [] && '/' !in name
    ensures Basename(JoinPath(Dirname(p), name)) == name
    ensures Dirname(JoinPath(Dirname(p), name)) == Dirname(p)
  {
    var d := Dirname(p);
    assert name[0] != '/' by { assert name[0] in name; }
    if d == [] {
      JoinEmpty(name);
    } else if d[|d| - 1] == '/' {
      JoinSlashes(d, name);
    } else {
      JoinPlain(d, name);
    }
  }

  lemma JoinEmpty(name: string)
    requires name != [] && '/' !in name
    ensures Basename(JoinPath([], name)) == name
    ensures Dirname(JoinPath([], name)) == []
  {
    assert name[0] != '/' by { assert name[0] in name; }
    assert JoinPath([], name) == name;
    assert name[0..] == name;
    LastIndexUnique(name, '/', -1);
  }

  lemma JoinSlashes(d: string, name: string)
    requires name != [] && '/' !in name
    requires d != [] && AllSlashes(d)
    ensures Basename(JoinPath(d, name)) == name
    ensures Dirname(JoinPath(d, name)) == d
  {
    assert name[0] in name;
    var q := JoinPath(d, name);
    assert q == d[..|d| - 1] + ['/'] + name;
    LastIndexBefore(d[..|d| - 1], '/', name);
    assert q[..|d|] == d;
  }

  lemma JoinPlain(d: string, name: string)
    requires name != [] && '/' !in name
    requires d != [] && d[|d| - 1] != '/'
    ensures Basename(JoinPath(d, name)) == name
    ensures Dirname(JoinPath(d, name)) == d
  {
    assert name[0] in name;
    assert JoinPath(d, name) == d + ['/'] + name;
    PlainBasename(d, name);
    PlainDirname(d, name);
  }

  lemma PlainBasename(d: string, name: string)
    requires '/' !in name
    ensures Basename(d + ['/'] + name) == name
  {
    LastIndexBefore(d, '/', name);
  }

  lemma PlainDirname(d: string, name: string)
    requires '/' !in name
    requires d != [] && d[|d| - 1] != '/'
    ensures Dirname(d + ['/'] + name) == d
  {
    var q := d + ['/'] + name;
    LastIndexBefore(d, '/', name);
    var head := q[..|d| + 1];
    assert head == d + ['/'];
    assert head[|d| - 1] != '/';
    assert head[..|head| - 1] == d;
    assert StripTrailingSlashes(head) == StripTrailingSlashes(d);
  }
}
