/** Text order and stable sorting, shared by the engine, the key codecs and the canonical JSON printer. */
module Ordering {

  /** The place of a character in UTF-16 code-unit order: surrogate pairs sort between U+D7FF and U+E000. */
  function Utf16Rank(c: char): int {
    var code := c as int;
    if code < 0xD800 then code
    else if code >= 0x10000 then code - 0x10000 + 0xD800
    else code + 0x100000
  }

  /** Strict lexicographic order by UTF-16 code unit. */
  predicate Less(a: string, b: string) {
    if b == "" then false
    else if a == "" then true
    else if a[0] == b[0] then Less(a[1..], b[1..])
    else Utf16Rank(a[0]) < Utf16Rank(b[0])
  }

  lemma {:induction false} LessTotal(a: string, b: string)
    ensures Less(a, b) || Less(b, a) || a == b
    ensures !(Less(a, b) && Less(b, a))
    ensures !Less(a, a)
  {
    if a != "" && b != "" {
      if a[0] == b[0] {
        LessTotal(a[1..], b[1..]);
        assert a == [a[0]] + a[1..] && b == [b[0]] + b[1..];
      }
    }
    LessIrreflexive(a);
  }

  lemma {:induction false} LessIrreflexive(a: string)
    ensures !Less(a, a)
  {
    if a != "" { LessIrreflexive(a[1..]); }
  }

  lemma {:induction false} LessTransitive(a: string, b: string, c: string)
    requires Less(a, b) && Less(b, c)
    ensures Less(a, c)
  {
    if a != "" && a[0] == b[0] && b[0] == c[0] {
      LessTransitive(a[1..], b[1..], c[1..]);
    }
  }

  // ---- What the order is ----

  /** The UTF-16 code units of a character: one, or a surrogate pair. */
  function Units(c: char): seq<int> {
    var code := c as int;
    if code < 0x10000 then [code] else [0xD800 + (code - 0x10000) / 0x400, 0xDC00 + (code - 0x10000) % 0x400]
  }

  /** One unit is the character's own code; a pair is a high and a low surrogate that hold ten bits each of the rest above
      0x10000. */
  lemma UnitsSpell(c: char)
    ensures var u := Units(c);
      if |u| == 1 then u[0] == c as int < 0x10000
      else |u| == 2 && 0xD800 <= u[0] <= 0xDBFF && 0xDC00 <= u[1] <= 0xDFFF
           && c as int == 0x10000 + 0x400 * (u[0] - 0xD800) + (u[1] - 0xDC00)
  {
  }

  function UnitsOf(s: string): (units: seq<int>)
    ensures |units| >= |s|
  {
    if s == "" then [] else Units(s[0]) + UnitsOf(s[1..])
  }

  /** The first text ends where the second goes on, or has the smaller number where they first differ. */
  ghost predicate Ascends(u: seq<int>, v: seq<int>) {
    u < v || exists k :: DiffersAt(u, v, k) && u[k] < v[k]
  }

  predicate DiffersAt(u: seq<int>, v: seq<int>, k: int) {
    0 <= k < |u| && k < |v| && u[..k] == v[..k] && u[k] != v[k]
  }

  lemma RankIsByUnits(c: char, d: char)
    requires c != d
    ensures Utf16Rank(c) < Utf16Rank(d) <==> Ascends(Units(c), Units(d))
    ensures exists k :: DiffersAt(Units(c), Units(d), k)
  {
    var u, v := Units(c), Units(d);
    if u[0] != v[0] {
      assert DiffersAt(u, v, 0);
    } else {
      assert DiffersAt(u, v, 1);
    }
    forall k, m | DiffersAt(u, v, k) && DiffersAt(u, v, m) ensures k == m { FirstDifferenceIsOne(u, v, k, m); }
  }

  lemma FirstDifferenceIsOne(u: seq<int>, v: seq<int>, k: int, m: int)
    requires DiffersAt(u, v, k) && DiffersAt(u, v, m)
    ensures k == m
  {
    AgreeBefore(u, v, k);
    AgreeBefore(u, v, m);
  }

  lemma AgreeBefore(u: seq<int>, v: seq<int>, k: int)
    requires 0 <= k <= |u| && k <= |v| && u[..k] == v[..k]
    ensures forall i :: 0 <= i < k ==> u[i] == v[i]
  {
    forall i | 0 <= i < k ensures u[i] == v[i] {
      assert u[i] == u[..k][i] && v[i] == v[..k][i];
    }
  }

  /** A difference stays the first one when something is put behind. */
  lemma DifferenceStays(u: seq<int>, v: seq<int>, x: seq<int>, y: seq<int>, k: int)
    requires DiffersAt(u, v, k)
    ensures Ascends(u + x, v + y) <==> u[k] < v[k]
    ensures !(u < v)
  {
    assert (u + x)[..k] == u[..k] && (v + y)[..k] == v[..k];
    assert DiffersAt(u + x, v + y, k);
    forall m | DiffersAt(u + x, v + y, m) ensures m == k { FirstDifferenceIsOne(u + x, v + y, k, m); }
    assert (u + x)[k] == u[k] && (v + y)[k] == v[k];
  }

  lemma SamePrefixAscends(p: seq<int>, u: seq<int>, v: seq<int>)
    ensures Ascends(p + u, p + v) <==> Ascends(u, v)
  {
    if Ascends(u, v) && !(u < v) {
      var k :| DiffersAt(u, v, k) && u[k] < v[k];
      assert (p + u)[..|p| + k] == p + u[..k] && (p + v)[..|p| + k] == p + v[..k];
      assert DiffersAt(p + u, p + v, |p| + k);
    }
    if Ascends(p + u, p + v) && !(p + u < p + v) {
      var k :| DiffersAt(p + u, p + v, k) && (p + u)[k] < (p + v)[k];
      assert k >= |p|;
      assert u[..k - |p|] == (p + u)[..k][|p|..] && v[..k - |p|] == (p + v)[..k][|p|..];
      assert DiffersAt(u, v, k - |p|);
    }
    if u < v { assert p + u < p + v; }
    if p + u < p + v { assert u == (p + u)[|p|..] && v[..|u|] == (p + v)[|p|..|p| + |u|]; }
  }

  /** The order compares texts unit by unit, as JavaScript does. */
  lemma {:induction false} LessIsByUnits(a: string, b: string)
    ensures Less(a, b) <==> Ascends(UnitsOf(a), UnitsOf(b))
  {
    if b == "" {
    } else if a == "" {
      assert UnitsOf(a) < UnitsOf(b);
    } else if a[0] == b[0] {
      LessIsByUnits(a[1..], b[1..]);
      SamePrefixAscends(Units(a[0]), UnitsOf(a[1..]), UnitsOf(b[1..]));
    } else {
      RankIsByUnits(a[0], b[0]);
      var k :| DiffersAt(Units(a[0]), Units(b[0]), k);
      DifferenceStays(Units(a[0]), Units(b[0]), UnitsOf(a[1..]), UnitsOf(b[1..]), k);
      DifferenceStays(Units(a[0]), Units(b[0]), [], [], k);
      assert Units(a[0]) + [] == Units(a[0]) && Units(b[0]) + [] == Units(b[0]);
    }
  }

  ghost predicate TotalPreorder<T(!new)>(le: (T, T) -> bool) {
    && (forall x, y :: le(x, y) || le(y, x))
    && (forall x, y, z :: le(x, y) && le(y, z) ==> le(x, z))
  }

  ghost predicate Sorted<T>(xs: seq<T>, le: (T, T) -> bool) {
    forall i, j :: 0 <= i < j < |xs| ==> le(xs[i], xs[j])
  }

  function Insert<T>(x: T, xs: seq<T>, le: (T, T) -> bool): (r: seq<T>)
    ensures |r| == |xs| + 1
    ensures multiset(r) == multiset(xs) + multiset{x}
  {
    if xs == [] then [x]
    else if le(x, xs[0]) then [x] + xs
    else
      assert xs == [xs[0]] + xs[1..];
      [xs[0]] + Insert(x, xs[1..], le)
  }

  /** Stable insertion sort: equal elements keep their order, as `Array.prototype.sort` does. */
  function StableSort<T>(xs: seq<T>, le: (T, T) -> bool): (r: seq<T>)
    ensures |r| == |xs|
    ensures multiset(r) == multiset(xs)
  {
    if xs == [] then []
    else
      assert xs == [xs[0]] + xs[1..];
      Insert(xs[0], StableSort(xs[1..], le), le)
  }

  lemma {:induction false} InsertSorted<T(!new)>(x: T, xs: seq<T>, le: (T, T) -> bool)
    requires TotalPreorder(le) && Sorted(xs, le)
    ensures Sorted(Insert(x, xs, le), le)
  {
    if xs != [] && !le(x, xs[0]) {
      var tail := Insert(x, xs[1..], le);
      InsertSorted(x, xs[1..], le);
      forall j | 0 <= j < |tail| ensures le(xs[0], tail[j]) {
        assert tail[j] in multiset(tail);
        if tail[j] != x {
          assert tail[j] in xs[1..];
          var k :| 0 <= k < |xs[1..]| && xs[1..][k] == tail[j];
          assert xs[k + 1] == tail[j];
        }
      }
    }
  }

  lemma {:induction false} StableSortSorted<T(!new)>(xs: seq<T>, le: (T, T) -> bool)
    requires TotalPreorder(le)
    ensures Sorted(StableSort(xs, le), le)
  {
    if xs != [] {
      StableSortSorted(xs[1..], le);
      InsertSorted(xs[0], StableSort(xs[1..], le), le);
    }
  }

  /** The elements that the order does not tell from `z`, in their order. */
  function Ties<T>(xs: seq<T>, le: (T, T) -> bool, z: T): seq<T> {
    if xs == [] then [] else (if le(xs[0], z) && le(z, xs[0]) then [xs[0]] else []) + Ties(xs[1..], le, z)
  }

  lemma TiesBehind<T>(x: T, xs: seq<T>, le: (T, T) -> bool, z: T)
    ensures Ties([x] + xs, le, z) == (if le(x, z) && le(z, x) then [x] else []) + Ties(xs, le, z)
  {
    assert ([x] + xs)[1..] == xs;
  }

  lemma NotBothTied<T(!new)>(x: T, y: T, le: (T, T) -> bool, z: T)
    requires TotalPreorder(le) && !le(x, y)
    ensures !(le(x, z) && le(z, y))
  {
  }

  lemma {:induction false} InsertKeepsTies<T(!new)>(x: T, xs: seq<T>, le: (T, T) -> bool, z: T)
    requires TotalPreorder(le)
    ensures Ties(Insert(x, xs, le), le, z) == (if le(x, z) && le(z, x) then [x] else []) + Ties(xs, le, z)
  {
    hide TotalPreorder, Ties;
    if xs == [] || le(x, xs[0]) {
      assert [x] + [] == [x];
      TiesBehind(x, xs, le, z);
    } else {
      InsertKeepsTies(x, xs[1..], le, z);
      TiesBehind(xs[0], Insert(x, xs[1..], le), le, z);
      TiesBehind(xs[0], xs[1..], le, z);
      assert [xs[0]] + xs[1..] == xs;
      NotBothTied(x, xs[0], le, z);
    }
  }

  /** Sorting leaves equal elements in the order they came in. */
  lemma {:induction false} StableSortKeepsTies<T(!new)>(xs: seq<T>, le: (T, T) -> bool, z: T)
    requires TotalPreorder(le)
    ensures Ties(StableSort(xs, le), le, z) == Ties(xs, le, z)
  {
    if xs != [] {
      StableSortKeepsTies(xs[1..], le, z);
      InsertKeepsTies(xs[0], StableSort(xs[1..], le), le, z);
    }
  }

  lemma SameMembers<T>(xs: seq<T>, ys: seq<T>, x: T)
    requires multiset(xs) == multiset(ys)
    ensures x in xs <==> x in ys
  {
    assert x in xs <==> x in multiset(xs);
  }
}
