/** Strings as the sources use them: the code-point order both sort routines
    follow, a stable sort, decimal numbers, cutting and splitting, and
    what several modules need of lists and tables. */
module Text {

  // ---- order ----------------------------------------------------------

  /** Go compares strings byte by byte and Python code point by code point; on
      UTF-8 the two orders agree. */
  predicate Le(a: string, b: string) {
    a == [] || (b != [] && (a[0] < b[0] || (a[0] == b[0] && Le(a[1..], b[1..]))))
  }

  lemma {:induction false} LeTotal(a: string, b: string)
    ensures Le(a, b) || Le(b, a)
    ensures Le(a, a)
  {
    if a != [] {
      LeTotal(a[1..], if b == [] then b else b[1..]);
    }
  }

  lemma {:induction false} LeAntisymmetric(a: string, b: string)
    requires Le(a, b) && Le(b, a)
    ensures a == b
  {
    if a != [] {
      LeAntisymmetric(a[1..], b[1..]);
      assert a == [a[0]] + a[1..] && b == [b[0]] + b[1..];
    }
  }

  lemma {:induction false} LeTransitive(a: string, b: string, c: string)
    requires Le(a, b) && Le(b, c)
    ensures Le(a, c)
  {
    if a != [] && a[0] == b[0] == c[0] {
      LeTransitive(a[1..], b[1..], c[1..]);
    }
  }

  // ---- stable sort ----------------------------------------------------

  function Id(s: string): string { s }

  ghost predicate SortedBy<T>(key: T -> string, xs: seq<T>) {
    forall i, j :: 0 <= i < j < |xs| ==> Le(key(xs[i]), key(xs[j]))
  }

  function Insert<T>(key: T -> string, x: T, xs: seq<T>): seq<T> {
    if xs == [] || Le(key(x), key(xs[0])) then [x] + xs else [xs[0]] + Insert(key, x, xs[1..])
  }

  function SortBy<T>(key: T -> string, xs: seq<T>): seq<T> {
    if xs == [] then [] else Insert(key, xs[0], SortBy(key, xs[1..]))
  }

  lemma {:induction false} InsertKeeps<T>(key: T -> string, x: T, xs: seq<T>)
    requires SortedBy(key, xs)
    ensures SortedBy(key, Insert(key, x, xs))
    ensures multiset(Insert(key, x, xs)) == multiset{x} + multiset(xs)
    ensures |Insert(key, x, xs)| == |xs| + 1
  {
    var r := Insert(key, x, xs);
    if xs == [] || Le(key(x), key(xs[0])) {
      forall i, j | 0 <= i < j < |r| ensures Le(key(r[i]), key(r[j])) {
        if i == 0 {
          LeTotal(key(xs[0]), key(xs[0]));
          assert j - 1 == 0 || Le(key(xs[0]), key(xs[j - 1]));
          LeTransitive(key(x), key(xs[0]), key(xs[j - 1]));
        }
      }
    } else {
      InsertKeeps(key, x, xs[1..]);
      var rest := Insert(key, x, xs[1..]);
      LeTotal(key(x), key(xs[0]));
      assert xs == [xs[0]] + xs[1..];
      forall y | y in rest ensures Le(key(xs[0]), key(y)) {
        assert y in multiset(rest);
        assert y == x || y in multiset(xs[1..]);
        if y != x {
          var k :| 0 <= k < |xs[1..]| && xs[1..][k] == y;
          assert xs[k + 1] == y;
        }
      }
    }
  }

  lemma {:induction false} SortByFacts<T>(key: T -> string, xs: seq<T>)
    ensures SortedBy(key, SortBy(key, xs))
    ensures multiset(SortBy(key, xs)) == multiset(xs)
    ensures |SortBy(key, xs)| == |xs|
  {
    if xs != [] {
      var rest := SortBy(key, xs[1..]);
      SortByFacts(key, xs[1..]);
      InsertKeeps(key, xs[0], rest);
      assert xs == [xs[0]] + xs[1..] && SortBy(key, xs) == Insert(key, xs[0], rest);
    }
  }

  /** The elements with that key, in order. */
  function WithKey<T>(key: T -> string, k: string, xs: seq<T>): seq<T> {
    if xs == [] then [] else (if key(xs[0]) == k then [xs[0]] else []) + WithKey(key, k, xs[1..])
  }

  lemma WithKeyCons<T>(key: T -> string, k: string, x: T, xs: seq<T>)
    ensures WithKey(key, k, [x] + xs) == (if key(x) == k then [x] else []) + WithKey(key, k, xs)
  {
    assert ([x] + xs)[1..] == xs;
  }

  lemma {:induction false} InsertIsStable<T>(key: T -> string, x: T, xs: seq<T>, k: string)
    ensures WithKey(key, k, Insert(key, x, xs)) == (if key(x) == k then [x] else []) + WithKey(key, k, xs)
  {
    if xs == [] || Le(key(x), key(xs[0])) {
      WithKeyCons(key, k, x, xs);
    } else {
      LeTotal(key(x), key(x));
      InsertIsStable(key, x, xs[1..], k);
      WithKeyCons(key, k, xs[0], Insert(key, x, xs[1..]));
      WithKeyCons(key, k, xs[0], xs[1..]);
      assert xs == [xs[0]] + xs[1..];
    }
  }

  /** Elements of one key keep the order they came in. */
  lemma {:induction false} SortIsStable<T>(key: T -> string, xs: seq<T>, k: string)
    ensures WithKey(key, k, SortBy(key, xs)) == WithKey(key, k, xs)
  {
    if xs != [] {
      SortIsStable(key, xs[1..], k);
      InsertIsStable(key, xs[0], SortBy(key, xs[1..]), k);
    }
  }

  /** Membership survives the sort. */
  lemma SortByMembers<T>(key: T -> string, xs: seq<T>, x: T)
    ensures x in SortBy(key, xs) <==> x in xs
  {
    SortByFacts(key, xs);
    assert x in SortBy(key, xs) <==> x in multiset(SortBy(key, xs));
    assert x in xs <==> x in multiset(xs);
  }

  ghost predicate Distinct<T(!new)>(xs: seq<T>) {
    forall i, j :: 0 <= i < j < |xs| ==> xs[i] != xs[j]
  }

  /** A sorted list of distinct strings is determined by its elements, so the
      order in which a map was iterated never shows after the sort. */
  lemma {:induction false} SortedUnique(xs: seq<string>, ys: seq<string>)
    requires SortedBy(Id, xs) && SortedBy(Id, ys)
    requires Distinct(xs) && Distinct(ys)
    requires forall s :: s in xs <==> s in ys
    ensures xs == ys
  {
    assert xs != [] ==> xs[0] in xs;
    assert ys != [] ==> ys[0] in ys;
    if xs != [] && ys != [] {
      var i :| 0 <= i < |ys| && ys[i] == xs[0];
      var j :| 0 <= j < |xs| && xs[j] == ys[0];
      LeTotal(xs[0], ys[0]);
      if xs[0] != ys[0] {
        assert Le(Id(ys[0]), Id(ys[i])) && Le(Id(xs[0]), Id(xs[j]));
        LeAntisymmetric(xs[0], ys[0]);
      }
      forall s ensures s in xs[1..] <==> s in ys[1..] {
        if s in xs[1..] {
          var k :| 0 <= k < |xs[1..]| && xs[1..][k] == s;
          assert s == xs[k + 1] && s != xs[0] && s in xs;
          var m :| 0 <= m < |ys| && ys[m] == s;
          assert ys[1..][m - 1] == s;
        }
        if s in ys[1..] {
          var k :| 0 <= k < |ys[1..]| && ys[1..][k] == s;
          assert s == ys[k + 1] && s != ys[0] && s in ys;
          var m :| 0 <= m < |xs| && xs[m] == s;
          assert xs[1..][m - 1] == s;
        }
      }
      SortedUnique(xs[1..], ys[1..]);
      assert xs == [xs[0]] + xs[1..] && ys == [ys[0]] + ys[1..];
    }
  }

  // ---- the keys of a map, sorted ----------------------------------------

  /** The keys of a map in sorted order; sorting makes the choices immaterial. */
  ghost function SortedKeys(s: set<string>): (keys: seq<string>)
    ensures SortedBy(Id, keys) && Distinct(keys) && forall k :: k in keys <==> k in s
  {
    if s == {} then []
    else
      var k :| k in s;
      var rest := SortedKeys(s - {k});
      InsertKeeps(Id, k, rest);
      InsertDistinct(k, rest);
      Insert(Id, k, rest)
  }

  lemma InsertDistinct(k: string, rest: seq<string>)
    requires SortedBy(Id, rest) && Distinct(rest) && k !in rest
    ensures Distinct(Insert(Id, k, rest))
    ensures forall x :: x in Insert(Id, k, rest) <==> x == k || x in rest
  {
    InsertKeeps(Id, k, rest);
    DistinctCounts(rest);
    var r := Insert(Id, k, rest);
    assert forall x :: multiset(r)[x] == multiset{k}[x] + multiset(rest)[x];
    CountsDistinct(r);
    forall x ensures x in r <==> x == k || x in rest {
      assert x in r <==> x in multiset(r);
      assert x in rest <==> x in multiset(rest);
    }
  }

  lemma TwiceCounts(r: seq<string>, i: nat, j: nat)
    requires i < j < |r| && r[i] == r[j]
    ensures multiset(r)[r[i]] >= 2
  {
    assert r == r[..i] + [r[i]] + r[i + 1..j] + [r[j]] + r[j + 1..];
  }

  lemma CountsDistinct(r: seq<string>)
    requires forall x :: multiset(r)[x] <= 1
    ensures Distinct(r)
  {
    forall i, j | 0 <= i < j < |r| ensures r[i] != r[j] {
      if r[i] == r[j] {
        TwiceCounts(r, i, j);
      }
    }
  }

  lemma {:induction false} DistinctCounts(r: seq<string>)
    requires Distinct(r)
    ensures forall x :: multiset(r)[x] == if x in r then 1 else 0
  {
    if r != [] {
      assert forall i :: 0 <= i < |r| - 1 ==> r[1..][i] == r[i + 1];
      DistinctCounts(r[1..]);
      assert r == [r[0]] + r[1..];
    }
  }

  /** The keys in the order the map happens to be iterated in. */
  method CollectKeys<V>(data: map<string, V>) returns (keys: seq<string>)
    ensures Distinct(keys) && forall k :: k in keys <==> k in data.Keys
  {
    keys := [];
    var todo := data.Keys;
    while todo != {}
      invariant todo <= data.Keys
      invariant forall k :: k in keys <==> k in data.Keys - todo
      invariant Distinct(keys)
      decreases todo
    {
      var k :| k in todo;
      assert k !in keys;
      ghost var before := keys;
      keys := keys + [k];
      todo := todo - {k};
      assert forall x :: x in keys <==> x in before || x == k;
    }
  }

  /** Sorting hides that order. */
  lemma SortHidesOrder(keys: seq<string>, s: set<string>)
    requires Distinct(keys) && forall k :: k in keys <==> k in s
    ensures SortBy(Id, keys) == SortedKeys(s)
  {
    var r := SortBy(Id, keys);
    SortByFacts(Id, keys);
    DistinctCounts(keys);
    CountsDistinct(r);
    forall k ensures k in r <==> k in SortedKeys(s) {
      SortByMembers(Id, keys, k);
    }
    SortedUnique(r, SortedKeys(s));
  }

  // ---- decimal numbers ------------------------------------------------

  predicate IsDigit(c: char) { '0' <= c <= '9' }

  predicate AllDigits(s: string) { forall i :: 0 <= i < |s| ==> IsDigit(s[i]) }

  /** fmt's %d for a length. */
  function Itoa(n: nat): (s: string)
    ensures |s| > 0 && AllDigits(s)
  {
    if n < 10 then ['0' + n as char] else Itoa(n / 10) + ['0' + (n % 10) as char]
  }

  function Digits(s: string): nat
    requires AllDigits(s)
  {
    if s == [] then 0
    else 10 * Digits(s[..|s| - 1]) + (s[|s| - 1] - '0') as int
  }

  lemma {:induction false} DigitsOfItoa(n: nat)
    ensures Digits(Itoa(n)) == n
  {
    if n >= 10 {
      DigitsOfItoa(n / 10);
      assert Itoa(n)[..|Itoa(n)| - 1] == Itoa(n / 10);
    }
  }

  // ---- white space ------------------------------------------------------

  /** unicode.IsSpace. */
  predicate IsSpace(c: char) {
    || '\t' <= c <= '\r' || c == ' ' || c == '\U{0085}' || c == '\U{00A0}' || c == '\U{1680}'
    || '\U{2000}' <= c <= '\U{200a}' || c == '\U{2028}' || c == '\U{2029}' || c == '\U{202f}'
    || c == '\U{205f}' || c == '\U{3000}'
  }

  function TrimLeft(space: char -> bool, s: string): string {
    if s != [] && space(s[0]) then TrimLeft(space, s[1..]) else s
  }

  function TrimRight(space: char -> bool, s: string): string {
    if s != [] && space(s[|s| - 1]) then TrimRight(space, s[..|s| - 1]) else s
  }

  /** strings.TrimFunc. */
  function Trim(space: char -> bool, s: string): string { TrimRight(space, TrimLeft(space, s)) }

  // ---- cutting and splitting -------------------------------------------

  /** Index of the first occurrence of c, or the length. */
  function IndexOf(s: string, c: char): (i: nat)
    ensures i <= |s|
    ensures i < |s| ==> s[i] == c
    ensures forall k :: 0 <= k < i ==> s[k] != c
  {
    if s == [] || s[0] == c then 0 else 1 + IndexOf(s[1..], c)
  }

  lemma IndexOfAt(p: string, c: char, q: string)
    requires c !in p
    ensures IndexOf(p + [c] + q, c) == |p|
    ensures IndexOf(p, c) == |p|
  {
    var s := p + [c] + q;
    var i := IndexOf(s, c);
    assert s[|p|] == c;
    assert forall k :: 0 <= k < |p| ==> s[k] == p[k] && p[k] in p;
  }

  /** A text cut at the first separator determines both pieces. */
  lemma CutUnique(x: string, p: string, y: string, q: string, c: char)
    requires c !in x && c !in y
    requires x + [c] + p == y + [c] + q
    ensures x == y && p == q
  {
    IndexOfAt(x, c, p);
    IndexOfAt(y, c, q);
    assert x == (x + [c] + p)[..|x|] && y == (y + [c] + q)[..|y|];
    assert p == (x + [c] + p)[|x| + 1..] && q == (y + [c] + q)[|y| + 1..];
  }

  /** strings.Split on one character: always at least one piece. */
  function Split(s: string, c: char): (r: seq<string>)
    ensures |r| >= 1
    decreases |s|
  {
    var i := IndexOf(s, c);
    if i == |s| then [s] else [s[..i]] + Split(s[i + 1..], c)
  }

  function Join(parts: seq<string>, c: char): string
    requires |parts| >= 1
  {
    if |parts| == 1 then parts[0] else parts[0] + [c] + Join(parts[1..], c)
  }

  /** Splitting is undone by joining, and no piece holds the separator. */
  lemma {:induction false} JoinOfSplit(s: string, c: char)
    ensures Join(Split(s, c), c) == s
    ensures forall i :: 0 <= i < |Split(s, c)| ==> c !in Split(s, c)[i]
    decreases |s|
  {
    var i := IndexOf(s, c);
    if i < |s| {
      JoinOfSplit(s[i + 1..], c);
      assert Split(s, c)[1..] == Split(s[i + 1..], c);
      assert s == s[..i] + [c] + s[i + 1..];
    }
  }

  /** Joining pieces free of the separator is undone by splitting. */
  lemma {:induction false} SplitOfJoin(parts: seq<string>, c: char)
    requires |parts| >= 1
    requires forall i :: 0 <= i < |parts| ==> c !in parts[i]
    ensures Split(Join(parts, c), c) == parts
  {
    var s := Join(parts, c);
    if |parts| == 1 {
      IndexOfAt(s, c, []);
    } else {
      var rest := Join(parts[1..], c);
      IndexOfAt(parts[0], c, rest);
      assert s[|parts[0]| + 1..] == rest && s[..|parts[0]|] == parts[0];
      SplitOfJoin(parts[1..], c);
    }
  }

  // ---- lists and tables ------------------------------------------------

  /** Reading an absent key of a Go map gives the zero value. */
  function Lookup(m: map<string, string>, key: string): string { if key in m then m[key] else "" }

  lemma Regroup<T>(a: seq<T>, b: seq<T>, c: seq<T>)
    ensures a + b + c == a + (b + c)
  {}

  /** How often x occurs. */
  function Count<T(==)>(xs: seq<T>, x: T): nat {
    if xs == [] then 0 else (if xs[0] == x then 1 else 0) + Count(xs[1..], x)
  }

  lemma {:induction false} CountAppend<T>(a: seq<T>, b: seq<T>, x: T)
    ensures Count(a + b, x) == Count(a, x) + Count(b, x)
  {
    if a == [] {
      assert a + b == b;
    } else {
      assert (a + b)[1..] == a[1..] + b;
      CountAppend(a[1..], b, x);
    }
  }

  lemma CountOne<T>(y: T, x: T)
    ensures Count([y], x) == if x == y then 1 else 0
  {
    assert [y][1..] == [];
  }

  lemma {:induction false} CountMember<T>(xs: seq<T>, x: T)
    ensures Count(xs, x) > 0 <==> x in xs
  {
    if xs != [] {
      CountMember(xs[1..], x);
    }
  }
}
