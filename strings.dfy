/**
 * String helpers the multi-query engine and the chart and table builders rely on:
 * JavaScript whitespace (shared by `String.prototype.trim` and the regular
 * expression class `\s`), trimming, the character order used by the default
 * `Array.prototype.sort`, a stable insertion sort, and `split`/`join` on a
 * separator string.
 */
module Strings {

  /** The characters JavaScript treats as white space or line terminators. */
  predicate IsSpace(c: char) {
    || c == ' ' || c == '\t' || c == '\n' || c == '\r' || c == '\U{000B}' || c == '\U{000C}'
    || c == '\U{00A0}' || c == '\U{1680}' || ('\U{2000}' <= c <= '\U{200A}')
    || c == '\U{2028}' || c == '\U{2029}' || c == '\U{202F}' || c == '\U{205F}'
    || c == '\U{3000}' || c == '\U{FEFF}'
  }

  /** JavaScript's line terminators: the characters a regular expression `.` does not match. */
  predicate IsLineTerminator(c: char) {
    c == '\n' || c == '\r' || c == '\U{2028}' || c == '\U{2029}'
  }

  /** A string `.` in a regular expression matches throughout. */
  predicate NoLineTerminator(s: string) {
    forall i :: 0 <= i < |s| ==> !IsLineTerminator(s[i])
  }

  predicate Blank(s: string) {
    forall i :: 0 <= i < |s| ==> IsSpace(s[i])
  }

  /** The first index in [i, e) holding a non-whitespace character, or `e`. */
  function SkipForward(s: string, i: nat, e: nat): (a: nat)
    requires i <= e <= |s|
    ensures i <= a <= e
    decreases e - i
  {
    if i == e || !IsSpace(s[i]) then i else SkipForward(s, i + 1, e)
  }

  /** One past the last index in [lo, j) holding a non-whitespace character, or `lo`. */
  function SkipBackward(s: string, lo: nat, j: nat): (b: nat)
    requires lo <= j <= |s|
    ensures lo <= b <= j
  {
    if j == lo || !IsSpace(s[j - 1]) then j else SkipBackward(s, lo, j - 1)
  }

  /** Skipping forwards passes only whitespace and stops on a non-whitespace character. */
  lemma {:induction false} SkipForwardStops(s: string, i: nat, e: nat)
    requires i <= e <= |s|
    ensures forall k :: i <= k < SkipForward(s, i, e) ==> IsSpace(s[k])
    ensures SkipForward(s, i, e) < e ==> !IsSpace(s[SkipForward(s, i, e)])
    decreases e - i
  {
    if i < e && IsSpace(s[i]) {
      SkipForwardStops(s, i + 1, e);
    }
  }

  /** Skipping backwards passes only whitespace and stops after a non-whitespace character. */
  lemma {:induction false} SkipBackwardStops(s: string, lo: nat, j: nat)
    requires lo <= j <= |s|
    ensures forall k :: SkipBackward(s, lo, j) <= k < j ==> IsSpace(s[k])
    ensures lo < SkipBackward(s, lo, j) ==> !IsSpace(s[SkipBackward(s, lo, j) - 1])
  {
    if lo < j && IsSpace(s[j - 1]) {
      SkipBackwardStops(s, lo, j - 1);
    }
  }

  /** `String.prototype.trim`: the text from the first to the last non-whitespace character. */
  function Trim(s: string): string
  {
    var a := SkipForward(s, 0, |s|);
    s[a..SkipBackward(s, a, |s|)]
  }

  /** Trimming leaves nothing exactly when the string is all whitespace. */
  lemma TrimBlank(s: string)
    ensures Trim(s) == [] <==> Blank(s)
  {
    var a := SkipForward(s, 0, |s|);
    var b := SkipBackward(s, a, |s|);
    SkipForwardStops(s, 0, |s|);
    SkipBackwardStops(s, a, |s|);
    if !Blank(s) {
      var j :| 0 <= j < |s| && !IsSpace(s[j]);
      assert a <= j;
      assert a < b;
    }
  }

  /** A trimmed string that is not empty starts and ends with non-whitespace. */
  lemma TrimEnds(s: string)
    ensures var r := Trim(s);
      r != [] ==> !IsSpace(r[0]) && !IsSpace(r[|r| - 1])
  {
    SkipForwardStops(s, 0, |s|);
    SkipBackwardStops(s, SkipForward(s, 0, |s|), |s|);
  }

  /** Trimming twice is trimming once: an emitted query is already trimmed. */
  lemma TrimIdempotent(s: string)
    ensures Trim(Trim(s)) == Trim(s)
  {
    var r := Trim(s);
    TrimEnds(s);
    if r != [] {
      assert SkipForward(r, 0, |r|) == 0;
      assert SkipBackward(r, 0, |r|) == |r|;
      assert r[0..|r|] == r;
    }
  }

  /** Skipping forwards inside a slice is skipping forwards in the whole string. */
  lemma {:induction false} SkipForwardSlice(s: string, lo: nat, hi: nat, i: nat)
    requires lo <= i <= hi <= |s|
    ensures SkipForward(s[lo..hi], i - lo, hi - lo) == SkipForward(s, i, hi) - lo
    decreases hi - i
  {
    if i < hi {
      assert s[lo..hi][i - lo] == s[i];
      SkipForwardSlice(s, lo, hi, i + 1);
    }
  }

  /** Skipping backwards inside a slice is skipping backwards in the whole string. */
  lemma {:induction false} SkipBackwardSlice(s: string, lo: nat, hi: nat, from: nat, j: nat)
    requires lo <= from <= j <= hi <= |s|
    ensures SkipBackward(s[lo..hi], from - lo, j - lo) == SkipBackward(s, from, j) - lo
  {
    if from < j {
      assert s[lo..hi][j - 1 - lo] == s[j - 1];
      SkipBackwardSlice(s, lo, hi, from, j - 1);
    }
  }

  /**
   * Trimming the slice `s[lo..hi)` is slicing `s` after skipping whitespace forwards
   * from `lo` and then backwards from `hi`; everything skipped is whitespace.
   */
  lemma TrimSlice(s: string, lo: nat, hi: nat)
    requires lo <= hi <= |s|
    ensures var a := SkipForward(s, lo, hi);
      var b := SkipBackward(s, a, hi);
      && s[a..b] == Trim(s[lo..hi])
      && (forall i :: lo <= i < a ==> IsSpace(s[i]))
      && (forall i :: b <= i < hi ==> IsSpace(s[i]))
  {
    var a := SkipForward(s, lo, hi);
    var b := SkipBackward(s, a, hi);
    var piece := s[lo..hi];
    SkipForwardSlice(s, lo, hi, lo);
    assert SkipForward(piece, 0, |piece|) == a - lo;
    SkipBackwardSlice(s, lo, hi, a, hi);
    assert SkipBackward(piece, a - lo, |piece|) == b - lo;
    assert Trim(piece) == piece[a - lo..b - lo];
    SliceOfSlice(s, lo, hi, a, b);
    SkipForwardStops(s, lo, hi);
    SkipBackwardStops(s, a, hi);
  }

  lemma SliceOfSlice(s: string, lo: nat, hi: nat, a: nat, b: nat)
    requires lo <= a <= b <= hi <= |s|
    ensures s[lo..hi][a - lo..b - lo] == s[a..b]
  {
    var piece := s[lo..hi];
    forall k | 0 <= k < b - a
      ensures piece[a - lo..b - lo][k] == s[a..b][k]
    {
      assert piece[a - lo + k] == s[a + k];
    }
  }

  /** The index of the first `c` in `s`, or `|s|` when there is none. */
  function IndexOf(s: string, c: char): (i: nat)
    ensures i <= |s|
    ensures forall k :: 0 <= k < i ==> s[k] != c
    ensures i < |s| ==> s[i] == c
  {
    if s == [] then 0 else if s[0] == c then 0 else 1 + IndexOf(s[1..], c)
  }

  predicate StartsWith(s: string, prefix: string) {
    |prefix| <= |s| && s[..|prefix|] == prefix
  }

  // ---------------------------------------------------------------------------
  // The order of strings used by the default `Array.prototype.sort`, compared
  // character by character. It is JavaScript's code-unit order on text within
  // the Basic Multilingual Plane; Dafny characters are Unicode scalar values, so
  // the two orders differ when a character outside that plane is compared.

  predicate StrLess(a: string, b: string)
    decreases |a|
  {
    if a == [] then b != []
    else if b == [] then false
    else if a[0] != b[0] then a[0] < b[0]
    else StrLess(a[1..], b[1..])
  }

  lemma {:induction false} StrLessIrreflexive(a: string)
    ensures !StrLess(a, a)
  {
    if a != [] {
      StrLessIrreflexive(a[1..]);
    }
  }

  lemma {:induction false} StrLessTransitive(a: string, b: string, c: string)
    requires StrLess(a, b) && StrLess(b, c)
    ensures StrLess(a, c)
    decreases |a|
  {
    if a != [] && b != [] && c != [] && a[0] == b[0] && b[0] == c[0] {
      StrLessTransitive(a[1..], b[1..], c[1..]);
    }
  }

  lemma {:induction false} StrLessTotal(a: string, b: string)
    ensures a == b || StrLess(a, b) || StrLess(b, a)
    decreases |a|
  {
    if a != [] && b != [] && a[0] == b[0] {
      StrLessTotal(a[1..], b[1..]);
      if a[1..] == b[1..] {
        assert a == [a[0]] + a[1..] && b == [b[0]] + b[1..];
      }
    }
  }

  /** A common prefix does not change the order. */
  lemma {:induction false} StrLessCommonPrefix(p: string, a: string, b: string)
    ensures StrLess(p + a, p + b) == StrLess(a, b)
  {
    if p != [] {
      StrLessCommonPrefix(p[1..], a, b);
      var pa, pb := p + a, p + b;
      assert pa[0] == pb[0] && pa != [] && pb != [];
      assert pa[1..] == p[1..] + a && pb[1..] == p[1..] + b;
      assert StrLess(pa, pb) == StrLess(pa[1..], pb[1..]);
    } else {
      assert p + a == a && p + b == b;
    }
  }

  lemma StrLessAsymmetric(a: string, b: string)
    requires StrLess(a, b)
    ensures !StrLess(b, a)
  {
    if StrLess(b, a) {
      StrLessTransitive(a, b, a);
      StrLessIrreflexive(a);
    }
  }

  /** No element is followed by one whose key is strictly smaller. */
  ghost predicate SortedBy<T>(xs: seq<T>, key: T -> string) {
    forall i, j :: 0 <= i < j < |xs| ==> !StrLess(key(xs[j]), key(xs[i]))
  }

  /** Inserts `x` after every element whose key is not larger: keeps the sort stable. */
  function Insert<T>(x: T, ys: seq<T>, key: T -> string): (r: seq<T>)
    requires SortedBy(ys, key)
    ensures multiset(r) == multiset(ys) + multiset{x}
    ensures SortedBy(r, key)
  {
    if ys == [] then [x]
    else if StrLess(key(x), key(ys[0])) then
      BelowSorted(x, ys, key);
      SortedCons(x, ys, key);
      [x] + ys
    else
      assert ys == [ys[0]] + ys[1..];
      var rest := Insert(x, ys[1..], key);
      NotBelowInserted(x, ys, rest, key);
      SortedCons(ys[0], rest, key);
      [ys[0]] + rest
  }

  /** A value whose key is not above any key of a sorted list can go in front of it. */
  lemma SortedCons<T>(x: T, ys: seq<T>, key: T -> string)
    requires SortedBy(ys, key)
    requires forall j :: 0 <= j < |ys| ==> !StrLess(key(ys[j]), key(x))
    ensures SortedBy([x] + ys, key)
  {
    var r := [x] + ys;
    forall i, j | 0 <= i < j < |r| ensures !StrLess(key(r[j]), key(r[i])) {
      assert r[j] == ys[j - 1];
      if i > 0 {
        assert r[i] == ys[i - 1];
      }
    }
  }

  /** A key strictly below the first of a sorted list is below none of them. */
  lemma BelowSorted<T>(x: T, ys: seq<T>, key: T -> string)
    requires SortedBy(ys, key) && ys != [] && StrLess(key(x), key(ys[0]))
    ensures forall j :: 0 <= j < |ys| ==> !StrLess(key(ys[j]), key(x))
  {
    forall j | 0 <= j < |ys| ensures !StrLess(key(ys[j]), key(x)) {
      if j > 0 {
        StrLessTotal(key(ys[0]), key(ys[j]));
        if StrLess(key(ys[0]), key(ys[j])) {
          StrLessTransitive(key(x), key(ys[0]), key(ys[j]));
        }
      }
      StrLessAsymmetric(key(x), key(ys[j]));
    }
  }

  /** Inserting a value not below the head into the tail keeps every element not below the head. */
  lemma NotBelowInserted<T>(x: T, ys: seq<T>, rest: seq<T>, key: T -> string)
    requires SortedBy(ys, key) && ys != [] && !StrLess(key(x), key(ys[0]))
    requires multiset(rest) == multiset(ys[1..]) + multiset{x}
    ensures forall j :: 0 <= j < |rest| ==> !StrLess(key(rest[j]), key(ys[0]))
  {
    forall j | 0 <= j < |rest| ensures !StrLess(key(rest[j]), key(ys[0])) {
      assert rest[j] in multiset(rest);
      if rest[j] != x {
        assert rest[j] in multiset(ys[1..]);
        var m :| 0 <= m < |ys[1..]| && ys[1..][m] == rest[j];
        assert ys[m + 1] == rest[j];
      }
    }
  }

  /** A stable sort of `xs` by the character order of `key`. */
  function SortBy<T>(xs: seq<T>, key: T -> string): (r: seq<T>)
    ensures multiset(r) == multiset(xs)
    ensures |r| == |xs|
    ensures SortedBy(r, key)
  {
    if xs == [] then []
    else
      assert xs == xs[..|xs| - 1] + [xs[|xs| - 1]];
      var r := Insert(xs[|xs| - 1], SortBy(xs[..|xs| - 1], key), key);
      assert |r| == |multiset(r)|;
      r
  }

  function Identity(s: string): string { s }

  /** The default `Array.prototype.sort` on an array of strings. */
  function SortStrings(xs: seq<string>): (r: seq<string>)
    ensures multiset(r) == multiset(xs)
    ensures |r| == |xs|
    ensures forall i, j :: 0 <= i < j < |r| ==> !StrLess(r[j], r[i])
  {
    SortBy(xs, Identity)
  }

  // ---------------------------------------------------------------------------
  // `Array.prototype.join` and `String.prototype.split` with a separator string.

  function Join(parts: seq<string>, sep: string): string
  {
    if parts == [] then ""
    else if |parts| == 1 then parts[0]
    else parts[0] + sep + Join(parts[1..], sep)
  }

  /** Splits `s` at every occurrence of `sep`, scanning left to right. */
  function SplitOn(s: string, sep: string): (r: seq<string>)
    requires sep != []
    ensures |r| >= 1
    decreases |s|
  {
    if |s| < |sep| then [s]
    else if s[..|sep|] == sep then [""] + SplitOn(s[|sep|..], sep)
    else
      var rest := SplitOn(s[1..], sep);
      [[s[0]] + rest[0]] + rest[1..]
  }

  /** Extending the first piece by one character extends the joined string by it. */
  lemma JoinExtendFirst(c: char, parts: seq<string>, sep: string)
    requires parts != []
    ensures Join([[c] + parts[0]] + parts[1..], sep) == [c] + Join(parts, sep)
  {
    var ps := [[c] + parts[0]] + parts[1..];
    if |parts| > 1 {
      assert ps[1..] == parts[1..];
    }
  }

  /** Joining the pieces of a split with the same separator gives back the string. */
  lemma {:induction false} JoinSplitOn(s: string, sep: string)
    requires sep != []
    ensures Join(SplitOn(s, sep), sep) == s
    decreases |s|
  {
    if |s| < |sep| {
    } else if s[..|sep|] == sep {
      var t := s[|sep|..];
      JoinSplitOn(t, sep);
      SplitOnSeparator(s, sep);
      JoinCons([], SplitOn(t, sep), sep);
      assert s[..|sep|] + t == s;
    } else {
      var rest := SplitOn(s[1..], sep);
      JoinSplitOn(s[1..], sep);
      SplitOnOther(s, sep);
      JoinExtendFirst(s[0], rest, sep);
      assert [s[0]] + s[1..] == s;
    }
  }

  /** The separator case of `SplitOn`: an empty first piece, then the split of the rest. */
  lemma SplitOnSeparator(s: string, sep: string)
    requires sep != [] && |s| >= |sep| && s[..|sep|] == sep
    ensures SplitOn(s, sep) == [[]] + SplitOn(s[|sep|..], sep)
  {
  }

  /** The other case of `SplitOn`: the first character joins the first piece of the rest. */
  lemma SplitOnOther(s: string, sep: string)
    requires sep != [] && |s| >= |sep| && s[..|sep|] != sep
    ensures var rest := SplitOn(s[1..], sep); SplitOn(s, sep) == [[s[0]] + rest[0]] + rest[1..]
  {
  }

  lemma JoinCons(first: string, rest: seq<string>, sep: string)
    requires rest != []
    ensures Join([first] + rest, sep) == first + sep + Join(rest, sep)
  {
    assert ([first] + rest)[1..] == rest;
  }

  function Min(a: int, b: int): int { if a <= b then a else b }
  function Max(a: int, b: int): int { if a >= b then a else b }
}
