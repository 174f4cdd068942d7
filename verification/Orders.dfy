/** Comparators that answer with a sign, and the laws the rest of the project needs of them. */
module Orders {

  /** -1, 0 or 1, as a comparator answers for two numbers. */
  function Sign(a: int, b: int): int {
    if a < b then -1 else if a > b then 1 else 0
  }

  /** What a sort needs: a sign-valued comparison, antisymmetric in sign (hence reflexive and
      total) and transitive. */
  ghost predicate TotalPreorder<T(!new)>(cmp: (T, T) -> int) {
    && (forall a, b :: cmp(a, b) == -1 || cmp(a, b) == 0 || cmp(a, b) == 1)
    && (forall a, b :: cmp(b, a) == -cmp(a, b))
    && (forall a, b, c :: cmp(a, b) <= 0 && cmp(b, c) <= 0 ==> cmp(a, c) <= 0)
  }

  // ---- Zero-padded lexicographic order on integer sequences ----

  function Head(xs: seq<int>): int { if xs == [] then 0 else xs[0] }

  function Tail(xs: seq<int>): seq<int> { if xs == [] then [] else xs[1..] }

  /** Lexicographic comparison in which the shorter sequence continues with zeros. */
  function PadCompare(xs: seq<int>, ys: seq<int>): (c: int)
    ensures c == -1 || c == 0 || c == 1
    decreases |xs| + |ys|
  {
    if xs == [] && ys == [] then 0
    else if Head(xs) != Head(ys) then Sign(Head(xs), Head(ys))
    else PadCompare(Tail(xs), Tail(ys))
  }

  lemma {:induction false} PadCompareAntisymmetric(xs: seq<int>, ys: seq<int>)
    ensures PadCompare(ys, xs) == -PadCompare(xs, ys)
    decreases |xs| + |ys|
  {
    if (xs != [] || ys != []) && Head(xs) == Head(ys) {
      PadCompareAntisymmetric(Tail(xs), Tail(ys));
    }
  }

  lemma {:induction false} PadCompareTransitive(xs: seq<int>, ys: seq<int>, zs: seq<int>)
    requires PadCompare(xs, ys) <= 0 && PadCompare(ys, zs) <= 0
    ensures PadCompare(xs, zs) <= 0
    ensures PadCompare(xs, zs) == 0 ==> PadCompare(xs, ys) == 0 && PadCompare(ys, zs) == 0
    decreases |xs| + |ys| + |zs|
  {
    if xs != [] || ys != [] || zs != [] {
      if Head(xs) == Head(ys) == Head(zs) {
        PadCompareTransitive(Tail(xs), Tail(ys), Tail(zs));
      }
    }
  }

  /** A common prefix decides nothing. */
  lemma {:induction false} PadCompareSamePrefix(ps: seq<int>, xs: seq<int>, ys: seq<int>)
    ensures PadCompare(ps + xs, ps + ys) == PadCompare(xs, ys)
  {
    if ps == [] {
      assert ps + xs == xs && ps + ys == ys;
    } else {
      assert (ps + xs)[1..] == ps[1..] + xs && (ps + ys)[1..] == ps[1..] + ys;
      PadCompareSamePrefix(ps[1..], xs, ys);
    }
  }

  /** Two zero-free sequences, each closed by a zero, compare before what follows them. */
  lemma {:induction false} PadCompareClosed(ps: seq<int>, qs: seq<int>, xs: seq<int>, ys: seq<int>)
    requires 0 !in ps && 0 !in qs
    ensures PadCompare(ps + [0] + xs, qs + [0] + ys)
         == if ps == qs then PadCompare(xs, ys) else PadCompare(ps, qs)
    ensures ps != qs ==> PadCompare(ps, qs) != 0
    decreases |ps| + |qs|
  {
    var l, r := ps + [0] + xs, qs + [0] + ys;
    if ps == qs {
      PadCompareSamePrefix(ps + [0], xs, ys);
    } else {
      assert Head(l) == Head(ps) && Head(r) == Head(qs);
      if Head(ps) == Head(qs) {
        assert ps != [] && qs != [];
        assert Tail(l) == ps[1..] + [0] + xs && Tail(r) == qs[1..] + [0] + ys;
        assert ps[1..] != qs[1..] by { assert ps == [ps[0]] + ps[1..] && qs == [qs[0]] + qs[1..]; }
        PadCompareClosed(ps[1..], qs[1..], xs, ys);
      }
    }
  }
}
