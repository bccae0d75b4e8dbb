/**
  String helpers shared by the storefront model: JavaScript's character classes,
  `trim`, `split`, `join` and the default string order of `Array.prototype.sort`.

  Strings are `seq<char>` whose elements are Unicode scalar values; JavaScript
  compares and measures strings in UTF-16 code units, which agrees with the order
  used here on every string of Basic Multilingual Plane characters.
*/
module Strings {

  /** `\d` in a regular expression without the `u` flag: an ASCII digit. */
  predicate IsDigit(c: char) {
    '0' <= c <= '9'
  }

  /** `[A-Z]`. */
  predicate IsUpper(c: char) {
    'A' <= c <= 'Z'
  }

  /** `[a-z]`. */
  predicate IsLower(c: char) {
    'a' <= c <= 'z'
  }

  /**
    `\s` of a JavaScript regular expression, which is also the set that
    `String.prototype.trim` strips: WhiteSpace and LineTerminator of ECMA-262.
  */
  predicate IsJsWhitespace(c: char) {
    || c == '\t' || c == '\n' || c == '\U{B}' || c == '\U{C}' || c == '\r' || c == ' '
    || c == '\U{A0}' || c == '\U{1680}' || ('\U{2000}' <= c <= '\U{200A}')
    || c == '\U{2028}' || c == '\U{2029}' || c == '\U{202F}' || c == '\U{205F}'
    || c == '\U{3000}' || c == '\U{FEFF}'
  }

  /** `/\d/.test(s)`. */
  predicate HasDigit(s: string) {
    exists i :: 0 <= i < |s| && IsDigit(s[i])
  }

  /** `/[A-Z]/.test(s)`. */
  predicate HasUpper(s: string) {
    exists i :: 0 <= i < |s| && IsUpper(s[i])
  }

  /** `/[a-z]/.test(s)`. */
  predicate HasLower(s: string) {
    exists i :: 0 <= i < |s| && IsLower(s[i])
  }

  predicate AllWhitespace(s: string) {
    forall i :: 0 <= i < |s| ==> IsJsWhitespace(s[i])
  }

  /** Number of occurrences of `c` in `s`. */
  function Count(s: string, c: char): nat {
    if s == [] then 0 else (if s[0] == c then 1 else 0) + Count(s[1..], c)
  }

  lemma {:induction false} CountConcat(a: string, b: string, c: char)
    ensures Count(a + b, c) == Count(a, c) + Count(b, c)
  {
    if a == [] {
      assert a + b == b;
    } else {
      assert (a + b)[1..] == a[1..] + b;
      CountConcat(a[1..], b, c);
    }
  }

  lemma {:induction false} CountPositive(s: string, c: char)
    ensures Count(s, c) > 0 <==> c in s
  {
    if s != [] {
      CountPositive(s[1..], c);
      assert c in s <==> s[0] == c || c in s[1..];
    }
  }

  lemma CountAbsent(s: string, c: char)
    requires forall i :: 0 <= i < |s| ==> s[i] != c
    ensures Count(s, c) == 0
  {
  }

  // ----- trim -----

  function TrimStart(s: string): (r: string)
    ensures r == [] <==> AllWhitespace(s)
    ensures r != [] ==> !IsJsWhitespace(r[0])
  {
    if s != [] && IsJsWhitespace(s[0]) then TrimStart(s[1..]) else s
  }

  function TrimEnd(s: string): (r: string)
    ensures r == [] <==> AllWhitespace(s)
  {
    if s != [] && IsJsWhitespace(s[|s| - 1]) then TrimEnd(s[..|s| - 1]) else s
  }

  /** `String.prototype.trim`: empty exactly when every character is whitespace. */
  function Trim(s: string): (r: string)
    ensures r == [] <==> AllWhitespace(s)
  {
    TrimEnd(TrimStart(s))
  }

  // ----- split and join -----

  /** `s.split(sep)` for a one-character separator: always at least one part, and no part holds `sep`. */
  function Split(s: string, sep: char): (parts: seq<string>)
    ensures |parts| >= 1
    ensures forall k, i :: 0 <= k < |parts| && 0 <= i < |parts[k]| ==> parts[k][i] != sep
    ensures Join(parts, [sep]) == s
  {
    if s == [] then [[]]
    else
      var rest := Split(s[1..], sep);
      if s[0] == sep then
        JoinCons([], rest, [sep]);
        [[]] + rest
      else
        JoinHead(s[0], rest, [sep]);
        [[s[0]] + rest[0]] + rest[1..]
  }

  /** `parts.join(sep)`. */
  function Join(parts: seq<string>, sep: string): string {
    if parts == [] then []
    else if |parts| == 1 then parts[0]
    else parts[0] + sep + Join(parts[1..], sep)
  }

  /** Proof helper: the joined string is at least as long as its first part. */
  lemma JoinFirstPart(parts: seq<string>, sep: string)
    requires parts != []
    ensures |Join(parts, sep)| >= |parts[0]|
  {
  }

  lemma JoinCons(p: string, parts: seq<string>, sep: string)
    requires parts != []
    ensures Join([p] + parts, sep) == p + sep + Join(parts, sep)
  {
    assert ([p] + parts)[1..] == parts;
  }

  lemma JoinHead(c: char, parts: seq<string>, sep: string)
    requires parts != []
    ensures Join([[c] + parts[0]] + parts[1..], sep) == [c] + Join(parts, sep)
  {
    var q := [[c] + parts[0]] + parts[1..];
    if |parts| > 1 {
      assert q[1..] == parts[1..];
    }
  }

  // ----- the default order of Array.prototype.sort on strings -----

  /** `a <= b` in lexicographic order of code points; a proper prefix comes first. */
  predicate Le(a: string, b: string)
    decreases |a|
  {
    a == [] || (b != [] && (a[0] < b[0] || (a[0] == b[0] && Le(a[1..], b[1..]))))
  }

  lemma LeReflexive(a: string)
    ensures Le(a, a)
  {
  }

  lemma {:induction false} LeTotal(a: string, b: string)
    ensures Le(a, b) || Le(b, a)
    decreases |a|
  {
    if a != [] && b != [] && a[0] == b[0] {
      LeTotal(a[1..], b[1..]);
    }
  }

  lemma {:induction false} LeAntisymmetric(a: string, b: string)
    requires Le(a, b) && Le(b, a)
    ensures a == b
    decreases |a|
  {
    if a != [] && b != [] {
      LeAntisymmetric(a[1..], b[1..]);
      assert a == [a[0]] + a[1..] && b == [b[0]] + b[1..];
    }
  }

  lemma {:induction false} LeTransitive(a: string, b: string, c: string)
    requires Le(a, b) && Le(b, c)
    ensures Le(a, c)
    decreases |a|
  {
    if a != [] && b != [] && c != [] && a[0] == b[0] && b[0] == c[0] {
      LeTransitive(a[1..], b[1..], c[1..]);
    }
  }

  /** Every element is `Le` every later one. */
  predicate Sorted(s: seq<string>) {
    forall i, j :: 0 <= i < j < |s| ==> Le(s[i], s[j])
  }

  /** Inserts `x` before the first element it is `Le`. */
  function Insert(x: string, s: seq<string>): (r: seq<string>)
    requires Sorted(s)
    ensures multiset(r) == multiset(s) + multiset{x}
    ensures Sorted(r)
  {
    if s == [] then [x]
    else if Le(x, s[0]) then
      SmallestFirst(x, s);
      [x] + s
    else
      var t := Insert(x, s[1..]);
      assert s == [s[0]] + s[1..];
      InsertedAfterHead(x, s, t);
      [s[0]] + t
  }

  /** Putting an element `Le` the head of a sorted list in front keeps it sorted. */
  lemma SmallestFirst(x: string, s: seq<string>)
    requires Sorted(s) && s != [] && Le(x, s[0])
    ensures Sorted([x] + s)
  {
    forall j | 0 < j < |s| ensures Le(x, s[j]) {
      LeTransitive(x, s[0], s[j]);
    }
  }

  /** When `x` goes after the head, the head stays below everything in the rest. */
  lemma InsertedAfterHead(x: string, s: seq<string>, t: seq<string>)
    requires Sorted(s) && s != [] && !Le(x, s[0]) && Sorted(t)
    requires multiset(t) == multiset(s[1..]) + multiset{x}
    ensures Sorted([s[0]] + t)
  {
    LeTotal(x, s[0]);
    forall j | 0 <= j < |t| ensures Le(s[0], t[j]) {
      assert t[j] in multiset(t);
      if t[j] != x {
        assert t[j] in multiset(s[1..]);
        var k :| 0 <= k < |s[1..]| && s[1..][k] == t[j];
        assert s[k + 1] == t[j];
      }
    }
  }

  /** The code-point order sort of `Array.prototype.sort()` with no comparator. */
  function Sort(s: seq<string>): (r: seq<string>)
    ensures multiset(r) == multiset(s)
    ensures Sorted(r)
  {
    if s == [] then []
    else
      assert s == [s[0]] + s[1..];
      Insert(s[0], Sort(s[1..]))
  }

  /** Two sorted arrangements of the same strings are the same sequence. */
  lemma {:induction false} SortedUnique(a: seq<string>, b: seq<string>)
    requires Sorted(a) && Sorted(b)
    requires multiset(a) == multiset(b)
    ensures a == b
  {
    if a == [] {
      assert |b| == |multiset(b)| == 0;
    } else {
      assert |b| == |multiset(b)| == |a|;
      SameLeast(a, b);
      SameRest(a, b);
      assert Sorted(a[1..]) && Sorted(b[1..]);
      SortedUnique(a[1..], b[1..]);
      assert a == [a[0]] + a[1..] && b == [b[0]] + b[1..];
    }
  }

  /** Two sorted arrangements of the same strings start alike. */
  lemma SameLeast(a: seq<string>, b: seq<string>)
    requires Sorted(a) && Sorted(b) && a != [] && b != []
    requires multiset(a) == multiset(b)
    ensures a[0] == b[0]
  {
    assert a[0] in multiset(b);
    assert b[0] in multiset(a);
    var i :| 0 <= i < |a| && a[i] == b[0];
    var j :| 0 <= j < |b| && b[j] == a[0];
    assert Le(a[0], b[0]) by { if i > 0 { } else { LeReflexive(a[0]); } }
    assert Le(b[0], a[0]) by { if j > 0 { } else { LeReflexive(b[0]); } }
    LeAntisymmetric(a[0], b[0]);
  }

  lemma SameRest(a: seq<string>, b: seq<string>)
    requires a != [] && b != [] && a[0] == b[0]
    requires multiset(a) == multiset(b)
    ensures multiset(a[1..]) == multiset(b[1..])
  {
    assert a == [a[0]] + a[1..] && b == [b[0]] + b[1..];
    assert multiset(a) == multiset{a[0]} + multiset(a[1..]);
    assert multiset(b) == multiset{b[0]} + multiset(b[1..]);
    assert multiset(a[1..]) == multiset(a) - multiset{a[0]};
    assert multiset(b[1..]) == multiset(b) - multiset{b[0]};
  }

  /** The result of `Sort` depends only on the multiset of its input, not on its order. */
  lemma SortOrderIndependent(s: seq<string>, t: seq<string>)
    requires multiset(s) == multiset(t)
    ensures Sort(s) == Sort(t)
  {
    SortedUnique(Sort(s), Sort(t));
  }

  // ----- filtering keys -----

  /** `s.filter(k => !(k in drop))`, order kept. */
  function Without(s: seq<string>, drop: set<string>): (r: seq<string>)
    ensures forall x :: x in r <==> x in s && x !in drop
    ensures |r| <= |s|
  {
    if s == [] then [] else (if s[0] in drop then [] else [s[0]]) + Without(s[1..], drop)
  }

  /** Filtering keeps a sorted list sorted. */
  lemma {:induction false} WithoutSorted(s: seq<string>, drop: set<string>)
    requires Sorted(s)
    ensures Sorted(Without(s, drop))
  {
    if s != [] {
      var t := Without(s[1..], drop);
      assert Sorted(s[1..]);
      WithoutSorted(s[1..], drop);
      forall j | 0 <= j < |t| ensures Le(s[0], t[j]) {
        assert t[j] in s[1..];
      }
    }
  }

  /** Dropping keys that do not occur changes nothing. */
  lemma {:induction false} WithoutAbsent(s: seq<string>, drop: set<string>, extra: set<string>)
    requires forall x :: x in extra ==> x !in s
    ensures Without(s, drop + extra) == Without(s, drop)
  {
    if s != [] {
      WithoutAbsent(s[1..], drop, extra);
    }
  }

  lemma WithoutCons(y: string, t: seq<string>, drop: set<string>)
    ensures Without([y] + t, drop) == (if y in drop then [] else [y]) + Without(t, drop)
  {
    assert ([y] + t)[1..] == t;
  }

  /** A sorted list whose head `x` is `Le` stays headed by `x` under `Insert`. */
  lemma InsertFront(x: string, s: seq<string>)
    requires Sorted(s)
    requires forall y :: y in s ==> Le(x, y)
    ensures Insert(x, s) == [x] + s
  {
  }

  lemma WithoutInsertBefore(x: string, s: seq<string>, drop: set<string>)
    requires Sorted(s) && s != [] && Le(x, s[0])
    ensures Sorted(Without(s, drop))
    ensures Without(Insert(x, s), drop) == if x in drop then Without(s, drop) else Insert(x, Without(s, drop))
  {
    WithoutSorted(s, drop);
    var w := Without(s, drop);
    WithoutCons(x, s, drop);
    if x !in drop {
      forall y | y in w ensures Le(x, y) {
        var j :| 0 <= j < |s| && s[j] == y;
        if j > 0 { LeTransitive(x, s[0], s[j]); }
      }
      InsertFront(x, w);
    }
  }

  lemma {:induction false} WithoutInsert(x: string, s: seq<string>, drop: set<string>)
    requires Sorted(s)
    ensures Sorted(Without(s, drop))
    ensures Without(Insert(x, s), drop) == if x in drop then Without(s, drop) else Insert(x, Without(s, drop))
    decreases |s|
  {
    WithoutSorted(s, drop);
    if s == [] {
    } else if Le(x, s[0]) {
      WithoutInsertBefore(x, s, drop);
    } else {
      WithoutInsertAfter(x, s, drop);
    }
  }

  lemma {:induction false} WithoutInsertAfter(x: string, s: seq<string>, drop: set<string>)
    requires Sorted(s) && s != [] && !Le(x, s[0])
    ensures Sorted(Without(s, drop))
    ensures Without(Insert(x, s), drop) == if x in drop then Without(s, drop) else Insert(x, Without(s, drop))
    decreases |s|, 0
  {
    WithoutSorted(s, drop);
    var t := Insert(x, s[1..]);
    assert Insert(x, s) == [s[0]] + t;
    assert s == [s[0]] + s[1..];
    WithoutCons(s[0], t, drop);
    WithoutCons(s[0], s[1..], drop);
    WithoutInsert(x, s[1..], drop);
    var w1 := Without(s[1..], drop);
    var h := if s[0] in drop then [] else [s[0]];
    assert Without(Insert(x, s), drop) == h + Without(t, drop);
    assert Without(s, drop) == h + w1;
    if x in drop {
      assert Without(t, drop) == w1;
      assert Without(Insert(x, s), drop) == Without(s, drop);
    } else if s[0] in drop {
      assert Without(t, drop) == Insert(x, w1);
      assert h + Insert(x, w1) == Insert(x, w1);
      assert Without(s, drop) == w1;
    } else {
      var ws := [s[0]] + w1;
      assert Without(s, drop) == ws;
      assert Without(t, drop) == Insert(x, w1);
      assert ws != [] && ws[0] == s[0] && ws[1..] == w1;
      assert Insert(x, ws) == [s[0]] + Insert(x, w1);
    }
  }

  /** Filtering a sorted list gives the sorted filtered list. */
  lemma {:induction false} WithoutSort(s: seq<string>, drop: set<string>)
    ensures Without(Sort(s), drop) == Sort(Without(s, drop))
  {
    if s != [] {
      var s1 := s[1..];
      assert s == [s[0]] + s1;
      WithoutSort(s1, drop);
      WithoutInsert(s[0], Sort(s1), drop);
      assert Sort(s) == Insert(s[0], Sort(s1));
      WithoutCons(s[0], s1, drop);
      if s[0] in drop {
        assert Without(s, drop) == Without(s1, drop);
      } else {
        var ws := [s[0]] + Without(s1, drop);
        assert Without(s, drop) == ws;
        assert ws[0] == s[0] && ws[1..] == Without(s1, drop);
        assert Sort(ws) == Insert(s[0], Sort(Without(s1, drop)));
      }
    }
  }
}
