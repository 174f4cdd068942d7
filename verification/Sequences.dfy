/** Facts about sequences that several parts share. */
module Sequences {

  /** The position of the first `c`, or |s| when there is none. */
  function IndexOf<T(==)>(s: seq<T>, c: T): (i: nat)
    ensures i <= |s|
    ensures forall k :: 0 <= k < i ==> s[k] != c
    ensures i < |s| ==> s[i] == c
  {
    if s == [] || s[0] == c then 0 else 1 + IndexOf(s[1..], c)
  }

  lemma IndexOfUnique<T>(s: seq<T>, c: T, i: nat)
    requires i <= |s| && (i < |s| ==> s[i] == c) && forall k :: 0 <= k < i ==> s[k] != c
    ensures IndexOf(s, c) == i
  {}

  /** `part` is what `s` has at `from`; an empty part stands anywhere, even past the end. */
  ghost predicate IsSlice<T>(s: seq<T>, from: nat, part: seq<T>) {
    part == [] || (from + |part| <= |s| && part == s[from..from + |part|])
  }

  lemma SliceMore<T>(s: seq<T>, from: nat, part: seq<T>, more: seq<T>)
    requires IsSlice(s, from, part) && from + |part| + |more| <= |s|
    requires more == s[from + |part|..from + |part| + |more|]
    ensures IsSlice(s, from, part + more)
  {}

  lemma SliceStays<T>(s: seq<T>, t: seq<T>, from: nat, part: seq<T>)
    requires IsSlice(s, from, part) && s <= t
    ensures IsSlice(t, from, part)
  {
    if part != [] {
      assert t[from..from + |part|] == s[from..from + |part|];
    }
  }

  // ---- Lists whose trailing blanks do not matter ----

  function Cons<T(==)>(blank: T, x: T, rest: seq<T>): seq<T> {
    if x == blank && rest == [] then [] else [x] + rest
  }

  lemma ConsInjective<T>(blank: T, x: T, xs: seq<T>, y: T, ys: seq<T>)
    ensures Cons(blank, x, xs) == Cons(blank, y, ys) <==> x == y && xs == ys
  {
    var l, r := Cons(blank, x, xs), Cons(blank, y, ys);
    if l == r && l != [] {
      assert l[0] == x && l[1..] == xs;
      assert r[0] == y && r[1..] == ys;
    }
  }
}
