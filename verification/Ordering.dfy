/** Stable sorting by a strict order, and the order of Go strings. */
module Ordering {

  // ---------------------------------------------------------------- orders

  /** A strict weak order: what a comparison function handed to a sort must be. */
  ghost predicate WeakOrder<T(!new)>(less: (T, T) -> bool) {
    && (forall x, y :: less(x, y) ==> !less(y, x))
    && (forall x, y, z :: !less(x, y) && !less(y, z) ==> !less(x, z))
  }

  /** Strings compare by code point, as their UTF-8 bytes do. */
  predicate StringLess(a: string, b: string) {
    b != [] && (a == [] || a[0] < b[0] || (a[0] == b[0] && StringLess(a[1..], b[1..])))
  }

  /** The texts agree up to here, and then the first one ends or has the smaller character. */
  predicate LessAt(a: string, b: string, k: nat) { k <= |a| && k < |b| && a[..k] == b[..k] && (k == |a| || a[k] < b[k]) }

  lemma {:induction false} StringLessIff(a: string, b: string)
    ensures StringLess(a, b) <==> exists k: nat :: LessAt(a, b, k)
  {
    if a != [] && b != [] {
      if a[0] == b[0] {
        StringLessIff(a[1..], b[1..]);
        if StringLess(a, b) {
          var k: nat :| LessAt(a[1..], b[1..], k);
          assert a[..k + 1] == [a[0]] + a[1..][..k] && b[..k + 1] == [b[0]] + b[1..][..k];
          assert LessAt(a, b, k + 1);
        }
        if k: nat :| LessAt(a, b, k) {
          assert k > 0;
          assert a[1..][..k - 1] == a[..k][1..] && b[1..][..k - 1] == b[..k][1..];
          assert LessAt(a[1..], b[1..], k - 1);
        }
      } else {
        forall k: nat ensures LessAt(a, b, k) ==> k == 0 { assert k > 0 && k <= |a| && k <= |b| ==> a[..k][0] == a[0] && b[..k][0] == b[0]; }
        if a[0] < b[0] { assert LessAt(a, b, 0); }
      }
    } else if a == [] && b != [] {
      assert LessAt(a, b, 0);
    }
  }

  lemma {:induction false} StringLessIrreflexive(a: string)
    ensures !StringLess(a, a)
  {
    if a != [] {
      StringLessIrreflexive(a[1..]);
    }
  }

  lemma {:induction false} StringLessTransitive(a: string, b: string, c: string)
    requires StringLess(a, b) && StringLess(b, c)
    ensures StringLess(a, c)
  {
    if a != [] && a[0] == b[0] && b[0] == c[0] {
      StringLessTransitive(a[1..], b[1..], c[1..]);
    }
  }

  lemma {:induction false} StringLessTotal(a: string, b: string)
    ensures a == b || StringLess(a, b) || StringLess(b, a)
  {
    if a != [] && b != [] && a[0] == b[0] {
      StringLessTotal(a[1..], b[1..]);
      assert a == [a[0]] + a[1..] && b == [b[0]] + b[1..];
    }
  }

  lemma StringLessAsymmetric(a: string, b: string)
    requires StringLess(a, b)
    ensures !StringLess(b, a)
  {
    StringLessIrreflexive(a);
    if StringLess(b, a) {
      StringLessTransitive(a, b, a);
    }
  }

  lemma StringOrderIsWeak()
    ensures WeakOrder(StringLess)
  {
    forall x: string, y: string | StringLess(x, y) ensures !StringLess(y, x) { StringLessAsymmetric(x, y); }
    forall x: string, y: string, z: string | !StringLess(x, y) && !StringLess(y, z) ensures !StringLess(x, z) {
      StringLessTotal(x, y);
      StringLessTotal(y, z);
      if StringLess(x, z) {
        if x != y { StringLessTransitive(y, x, z); }
      }
    }
  }

  /** Of a text that is last among some keys and one more text, one is last among all. */
  lemma LaterText(texts: map<nat, string>, i: nat, k: nat, j: nat)
    requires i in texts && k in texts && j in texts && (j != i ==> !StringLess(texts[k], texts[j]))
    ensures if StringLess(texts[i], texts[k]) then !StringLess(texts[k], texts[j]) else !StringLess(texts[i], texts[j])
  {
    var a, b, c := texts[i], texts[k], texts[j];
    if StringLess(a, b) {
      StringLessAsymmetric(a, b);
    } else if j == i {
      StringLessIrreflexive(a);
    } else if StringLess(a, c) {
      StringLessTotal(a, b);
      if StringLess(b, a) {
        StringLessTransitive(b, a, c);
      }
    }
  }

  /** Some key carries a text that no other key's text follows. */
  lemma LastText(texts: map<nat, string>) returns (i: nat)
    requires texts != map[]
    ensures i in texts && forall j :: j in texts ==> !StringLess(texts[i], texts[j])
    decreases |texts|
  {
    i :| i in texts;
    StringLessIrreflexive(texts[i]);
    var rest := texts - {i};
    assert forall j :: j in texts ==> j == i || (j in rest && rest[j] == texts[j]);
    if rest != map[] {
      var k := LastText(rest);
      forall j | j in texts
        ensures if StringLess(texts[i], texts[k]) then !StringLess(texts[k], texts[j]) else !StringLess(texts[i], texts[j])
      {
        LaterText(texts, i, k, j);
      }
      if StringLess(texts[i], texts[k]) {
        i := k;
      }
    }
  }

  // ---------------------------------------------------------------- stable sorting

  /** `x` goes behind every element that it is not less than. */
  function Insert<T>(less: (T, T) -> bool, s: seq<T>, x: T): (r: seq<T>)
    ensures |r| == |s| + 1
  {
    if s == [] || !less(x, s[|s| - 1]) then s + [x]
    else Insert(less, s[..|s| - 1], x) + [s[|s| - 1]]
  }

  function Sorted<T>(less: (T, T) -> bool, s: seq<T>): (r: seq<T>)
    ensures |r| == |s|
  {
    if s == [] then [] else Insert(less, Sorted(less, s[..|s| - 1]), s[|s| - 1])
  }

  predicate Ordered<T>(less: (T, T) -> bool, s: seq<T>) {
    forall i, j :: 0 <= i < j < |s| ==> !less(s[j], s[i])
  }

  lemma {:induction false} InsertPermutes<T>(less: (T, T) -> bool, s: seq<T>, x: T)
    ensures multiset(Insert(less, s, x)) == multiset(s) + multiset{x}
  {
    if s != [] && less(x, s[|s| - 1]) {
      InsertPermutes(less, s[..|s| - 1], x);
      assert s == s[..|s| - 1] + [s[|s| - 1]];
    }
  }

  lemma {:induction false} SortedPermutes<T>(less: (T, T) -> bool, s: seq<T>)
    ensures multiset(Sorted(less, s)) == multiset(s)
  {
    if s != [] {
      SortedPermutes(less, s[..|s| - 1]);
      InsertPermutes(less, Sorted(less, s[..|s| - 1]), s[|s| - 1]);
      assert s == s[..|s| - 1] + [s[|s| - 1]];
    }
  }

  predicate Distinct<T(==)>(s: seq<T>) {
    forall i, j :: 0 <= i < j < |s| ==> s[i] != s[j]
  }

  lemma {:induction false} DistinctIsCountOne<T>(s: seq<T>)
    ensures Distinct(s) <==> forall x :: multiset(s)[x] <= 1
  {
    if s != [] {
      var rest, last := s[..|s| - 1], s[|s| - 1];
      DistinctIsCountOne(rest);
      assert s == rest + [last];
      assert multiset(s) == multiset(rest) + multiset{last};
      if Distinct(s) {
        assert Distinct(rest) && last !in rest;
      } else if Distinct(rest) {
        assert last in rest;
        assert multiset(s)[last] >= 2;
      }
      assert forall x :: multiset(rest)[x] <= multiset(s)[x];
    }
  }

  /** Sorting keeps the members, and keeps them distinct. */
  lemma SortedMembers<T(!new)>(less: (T, T) -> bool, s: seq<T>)
    ensures forall x :: x in Sorted(less, s) <==> x in s
    ensures Distinct(s) ==> Distinct(Sorted(less, s))
  {
    SortedPermutes(less, s);
    DistinctIsCountOne(s);
    DistinctIsCountOne(Sorted(less, s));
    forall x ensures x in Sorted(less, s) <==> x in s {
      assert x in multiset(Sorted(less, s)) <==> x in multiset(s);
    }
  }

  lemma {:induction false} InsertOrdered<T(!new)>(less: (T, T) -> bool, s: seq<T>, x: T)
    requires WeakOrder(less) && Ordered(less, s)
    ensures Ordered(less, Insert(less, s, x))
  {
    var n := |s| - 1;
    if s != [] && less(x, s[n]) {
      InsertOrdered(less, s[..n], x);
      InsertPermutes(less, s[..n], x);
      var r := Insert(less, s[..n], x);
      forall i | 0 <= i < |r| ensures !less(s[n], r[i]) {
        assert r[i] in multiset(r);
        assert r[i] == x || r[i] in s[..n];
      }
    }
  }

  lemma {:induction false} SortedOrdered<T(!new)>(less: (T, T) -> bool, s: seq<T>)
    requires WeakOrder(less)
    ensures Ordered(less, Sorted(less, s))
  {
    if s != [] {
      SortedOrdered(less, s[..|s| - 1]);
      InsertOrdered(less, Sorted(less, s[..|s| - 1]), s[|s| - 1]);
    }
  }

  /** The elements of `s` that tie with `x`, in their order in `s`. */
  function Ties<T>(less: (T, T) -> bool, s: seq<T>, x: T): seq<T> {
    if s == [] then []
    else
      var y := s[|s| - 1];
      Ties(less, s[..|s| - 1], x) + (if !less(x, y) && !less(y, x) then [y] else [])
  }

  lemma {:induction false} InsertTies<T(!new)>(less: (T, T) -> bool, s: seq<T>, y: T, x: T)
    requires WeakOrder(less) && Ordered(less, s)
    ensures Ties(less, Insert(less, s, y), x) == Ties(less, s + [y], x)
  {
    assert (s + [y])[..|s|] == s;
    if s != [] && less(y, s[|s| - 1]) {
      var z, rest := s[|s| - 1], s[..|s| - 1];
      InsertTies(less, rest, y, x);
      assert (rest + [y])[..|rest|] == rest;
      assert (Insert(less, rest, y) + [z])[..|s|] == Insert(less, rest, y);
      assert Ties(less, Insert(less, rest, y) + [z], x)
          == Ties(less, rest + [y], x) + (if !less(x, z) && !less(z, x) then [z] else []);
    }
  }

  /** Sorting keeps the order of tied elements. */
  lemma {:induction false} SortedIsStable<T(!new)>(less: (T, T) -> bool, s: seq<T>, x: T)
    requires WeakOrder(less)
    ensures Ties(less, Sorted(less, s), x) == Ties(less, s, x)
  {
    if s != [] {
      var rest, y := s[..|s| - 1], s[|s| - 1];
      SortedIsStable(less, rest, x);
      SortedOrdered(less, rest);
      InsertTies(less, Sorted(less, rest), y, x);
      assert (Sorted(less, rest) + [y])[..|rest|] == Sorted(less, rest);
    }
  }

  ghost predicate NoTies<T>(less: (T, T) -> bool, s: seq<T>) {
    forall x, y :: x in s && y in s ==> x == y || less(x, y) || less(y, x)
  }

  lemma TailMultiset<T>(a: seq<T>)
    requires a != []
    ensures multiset(a) == multiset{a[0]} + multiset(a[1..])
  {
    assert a == [a[0]] + a[1..];
  }

  lemma SameLeast<T>(less: (T, T) -> bool, a: seq<T>, b: seq<T>)
    requires Ordered(less, a) && Ordered(less, b) && multiset(a) == multiset(b) && NoTies(less, a) && a != [] && b != []
    ensures a[0] == b[0]
  {
    assert a[0] in multiset(b) && b[0] in multiset(a);
    assert a[0] in b && b[0] in a;
  }

  /** Without ties there is only one way to order a multiset. */
  lemma {:induction false} OrderedUnique<T>(less: (T, T) -> bool, a: seq<T>, b: seq<T>)
    requires Ordered(less, a) && Ordered(less, b) && multiset(a) == multiset(b) && NoTies(less, a)
    ensures a == b
  {
    if a == [] || b == [] {
      assert |multiset(a)| == |a| && |multiset(b)| == |b|;
    } else {
      SameLeast(less, a, b);
      TailMultiset(a);
      TailMultiset(b);
      assert multiset(a[1..]) == multiset(a) - multiset{a[0]} == multiset(b[1..]);
      assert Ordered(less, a[1..]) && Ordered(less, b[1..]) && NoTies(less, a[1..]);
      OrderedUnique(less, a[1..], b[1..]);
    }
  }

  lemma SortedUnique<T(!new)>(less: (T, T) -> bool, a: seq<T>, b: seq<T>)
    requires WeakOrder(less) && multiset(a) == multiset(b) && NoTies(less, a)
    ensures Sorted(less, a) == Sorted(less, b)
  {
    SortedOrdered(less, a);
    SortedOrdered(less, b);
    SortedPermutes(less, a);
    SortedPermutes(less, b);
    forall x, y | x in Sorted(less, a) && y in Sorted(less, a) ensures x == y || less(x, y) || less(y, x) {
      assert x in multiset(a) && y in multiset(a);
    }
    OrderedUnique(less, Sorted(less, a), Sorted(less, b));
  }

  lemma {:induction false} SortedFixed<T>(less: (T, T) -> bool, s: seq<T>)
    requires Ordered(less, s)
    ensures Sorted(less, s) == s
  {
    if s != [] {
      SortedFixed(less, s[..|s| - 1]);
    }
  }

  /** Where `Insert` puts its element: behind `left`, all of `right` being greater. */
  lemma {:induction false} InsertBetween<T>(less: (T, T) -> bool, left: seq<T>, right: seq<T>, x: T)
    requires (left != [] ==> !less(x, left[|left| - 1])) && forall k :: 0 <= k < |right| ==> less(x, right[k])
    ensures Insert(less, left + right, x) == left + [x] + right
  {
    if right == [] {
      assert left + right == left;
    } else {
      var rest, last := right[..|right| - 1], right[|right| - 1];
      var s := left + right;
      assert s[..|s| - 1] == left + rest && s[|s| - 1] == last;
      InsertBetween(less, left, rest, x);
      assert left + [x] + rest + [last] == left + [x] + right;
    }
  }

  lemma InsertAt<T>(less: (T, T) -> bool, s: seq<T>, x: T, j: nat)
    requires j <= |s| && (j > 0 ==> !less(x, s[j - 1])) && forall k :: j <= k < |s| ==> less(x, s[k])
    ensures Insert(less, s, x) == s[..j] + [x] + s[j..]
  {
    assert s[..j] + s[j..] == s;
    forall k | 0 <= k < |s[j..]| ensures less(x, s[j..][k]) {
      assert s[j..][k] == s[j + k];
    }
    InsertBetween(less, s[..j], s[j..], x);
  }

  /** Moves `a[i]` left into its place among the first `i` elements. */
  method InsertInPlace<T>(less: (T, T) -> bool, a: array<T>, i: nat)
    requires i < a.Length
    modifies a
    ensures a[..i + 1] == Insert(less, old(a[..i]), old(a[i])) && a[i + 1..] == old(a[i + 1..])
  {
    ghost var before := a[..];
    var x, j := a[i], i;
    while j > 0 && less(x, a[j - 1])
      invariant 0 <= j <= i
      invariant forall k :: 0 <= k < a.Length && (k < j || i < k) ==> a[k] == before[k]
      invariant forall k :: j < k <= i ==> a[k] == before[k - 1]
      invariant forall k :: j <= k < i ==> less(x, before[k])
    {
      a[j] := a[j - 1];
      j := j - 1;
    }
    a[j] := x;
    InsertAt(less, before[..i], x, j);
    assert a[..i + 1] == before[..i][..j] + [x] + before[..i][j..];
  }

  /** Stable insertion sort of an array in place. */
  method SortInPlace<T>(less: (T, T) -> bool, a: array<T>)
    modifies a
    ensures a[..] == Sorted(less, old(a[..]))
  {
    ghost var input := a[..];
    var i := 0;
    while i < a.Length
      invariant 0 <= i <= a.Length
      invariant a[..i] == Sorted(less, input[..i]) && a[i..] == input[i..]
    {
      assert a[i] == a[i..][0] == input[i];
      assert a[i + 1..] == a[i..][1..] == input[i + 1..];
      InsertInPlace(less, a, i);
      assert input[..i + 1][..i] == input[..i] && input[..i + 1][i] == input[i];
      i := i + 1;
    }
    assert a[..] == a[..i] && input[..i] == input;
  }
}
