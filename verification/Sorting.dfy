/** sort.Slice, by what it promises: the order of ties is whatever the sort makes it. */
module Sorting {

  /** What sort.Slice asks of its less function. */
  ghost predicate StrictWeakOrder<T(!new)>(before: (T, T) -> bool) {
    && (forall a :: !before(a, a))
    && (forall a, b, c :: before(a, b) && before(b, c) ==> before(a, c))
    && (forall a, b, c :: before(a, b) ==> before(a, c) || before(c, b))
  }

  ghost predicate Sorted<T>(s: seq<T>, before: (T, T) -> bool) {
    forall i, j :: 0 <= i < j < |s| ==> !before(s[j], s[i])
  }

  /** One sort meeting the promise. Callers see only the promise, so what is proved of them holds of
      every sort, stable or not. */
  method SortSlice<T(!new)>(s: seq<T>, before: (T, T) -> bool) returns (sorted: seq<T>)
    requires StrictWeakOrder(before)
    ensures multiset(sorted) == multiset(s)
    ensures Sorted(sorted, before)
  {
    sorted := [];
    for n := 0 to |s|
      invariant multiset(sorted) == multiset(s[..n])
      invariant Sorted(sorted, before)
    {
      var k := 0;
      while k < |sorted| && !before(s[n], sorted[k])
        invariant k <= |sorted|
        invariant forall m :: 0 <= m < k ==> !before(s[n], sorted[m])
      {
        k := k + 1;
      }
      Inserted(sorted, k, s[n], before);
      assert s[..n + 1] == s[..n] + [s[n]];
      sorted := sorted[..k] + [s[n]] + sorted[k..];
    }
    assert s[..|s|] == s;
  }

  lemma Inserted<T(!new)>(s: seq<T>, k: nat, x: T, before: (T, T) -> bool)
    requires StrictWeakOrder(before) && Sorted(s, before) && k <= |s|
    requires forall m :: 0 <= m < k ==> !before(x, s[m])
    requires k < |s| ==> before(x, s[k])
    ensures Sorted(s[..k] + [x] + s[k..], before)
    ensures multiset(s[..k] + [x] + s[k..]) == multiset(s) + multiset{x}
  {
    var a, b := s[..k], s[k..];
    InsertedElements(s, k, x);
    forall m | 0 <= m < |b|
      ensures !before(b[m], x)
    {
      assert m == 0 || !before(s[k + m], s[k]);
    }
    forall i, j | 0 <= i < |a| && 0 <= j < |b|
      ensures !before(b[j], a[i])
    {
      assert !before(s[k + j], s[i]);
    }
    SortedBetween(a, x, b, before);
  }

  lemma InsertedElements<T(!new)>(s: seq<T>, k: nat, x: T)
    requires k <= |s|
    ensures multiset(s[..k] + [x] + s[k..]) == multiset(s) + multiset{x}
  {
    assert s == s[..k] + s[k..];
  }

  lemma SortedBetween<T(!new)>(a: seq<T>, x: T, b: seq<T>, before: (T, T) -> bool)
    requires Sorted(a, before) && Sorted(b, before)
    requires forall m :: 0 <= m < |a| ==> !before(x, a[m])
    requires forall m :: 0 <= m < |b| ==> !before(b[m], x)
    requires forall i, j :: 0 <= i < |a| && 0 <= j < |b| ==> !before(b[j], a[i])
    ensures Sorted(a + [x] + b, before)
  {}

  // ---- Rearranging a duplicate-free sequence ----

  ghost predicate NoDuplicates<T(!new)>(s: seq<T>) {
    forall i, j :: 0 <= i < j < |s| ==> s[i] != s[j]
  }

  lemma {:induction false} CountsAtMostOne<T(!new)>(s: seq<T>, x: T)
    requires NoDuplicates(s)
    ensures multiset(s)[x] <= 1
  {
    if s != [] {
      assert s == s[..|s| - 1] + [s[|s| - 1]];
      CountsAtMostOne(s[..|s| - 1], x);
    }
  }

  lemma RearrangedNoDuplicates<T(!new)>(s: seq<T>, t: seq<T>)
    requires multiset(s) == multiset(t) && NoDuplicates(s)
    ensures NoDuplicates(t) && |t| == |s|
  {
    assert |multiset(s)| == |s| && |multiset(t)| == |t|;
    forall i, j | 0 <= i < j < |t|
      ensures t[i] != t[j]
    {
      CountsAtMostOne(s, t[i]);
      assert t == t[..j] + [t[j]] + t[j + 1..];
      assert t[i] in t[..j];
    }
  }

  lemma SameElements<T(!new)>(s: seq<T>, t: seq<T>)
    requires multiset(s) == multiset(t)
    ensures forall x :: x in s <==> x in t
  {
    forall x
      ensures x in s <==> x in t
    {
      assert x in s <==> x in multiset(s);
      assert x in t <==> x in multiset(t);
    }
  }
}
