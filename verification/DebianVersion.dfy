/** The Debian version order of internal/apt/version.go, against section 5.6.12 of the Debian
    Policy Manual. */
module DebianVersion {
  import opened Orders
  import opened Sequences
  import opened Text

  // ---- The order of the manual, on one part (upstream version or revision) ----

  /** Letters before all other characters; a tilde before everything, even the end (0). */
  function CharOrder(c: char): (o: int)
    ensures o != 0
  {
    if c == '~' then -1
    else if 'A' <= c <= 'Z' || 'a' <= c <= 'z' then c as int
    else c as int + 256
  }

  /** The length of the longest prefix of non-digits. */
  function TextRun(s: string): (n: nat)
    ensures n <= |s|
    ensures forall k :: 0 <= k < n ==> !IsDigit(s[k])
    ensures n < |s| ==> IsDigit(s[n])
  {
    if s == [] || IsDigit(s[0]) then 0 else 1 + TextRun(s[1..])
  }

  function TextOf(s: string): string { s[..TextRun(s)] }

  function AfterText(s: string): string { s[TextRun(s)..] }

  /** The number after the initial text; an absent numeral counts as zero. */
  function NumberOf(s: string): nat { Value(AfterText(s)[..DigitRun(AfterText(s))]) }

  function Remainder(s: string): (r: string)
    ensures s != [] ==> |r| < |s|
    ensures s == [] ==> r == []
  {
    AfterText(s)[DigitRun(AfterText(s))..]
  }

  /** Lexical comparison by CharOrder, where the end of a string has order 0. */
  function CompareText(a: string, b: string): (c: int)
    ensures c == -1 || c == 0 || c == 1
    decreases |a| + |b|
  {
    if a == [] && b == [] then 0
    else
      var x, y := if a == [] then 0 else CharOrder(a[0]), if b == [] then 0 else CharOrder(b[0]);
      if x != y then Sign(x, y) else CompareText(a[1..], b[1..])
  }

  /** The manual's algorithm: initial text, then initial number, then the remainders. */
  function ComparePart(a: string, b: string): (c: int)
    ensures c == -1 || c == 0 || c == 1
    decreases |a| + |b|
  {
    if a == [] && b == [] then 0
    else if CompareText(TextOf(a), TextOf(b)) != 0 then CompareText(TextOf(a), TextOf(b))
    else if NumberOf(a) != NumberOf(b) then Sign(NumberOf(a), NumberOf(b))
    else ComparePart(Remainder(a), Remainder(b))
  }

  // ---- How the loops move through that order ----

  /** The order of the first character when it is text, 0 at a digit or at the end. */
  function FirstOrder(s: string): int {
    if s != [] && !IsDigit(s[0]) then CharOrder(s[0]) else 0
  }

  /** The algorithm's equation, which also holds of two empty parts. */
  lemma Unfold(a: string, b: string)
    ensures ComparePart(a, b)
         == if CompareText(TextOf(a), TextOf(b)) != 0 then CompareText(TextOf(a), TextOf(b))
            else if NumberOf(a) != NumberOf(b) then Sign(NumberOf(a), NumberOf(b))
            else ComparePart(Remainder(a), Remainder(b))
  {}

  lemma EmptyParts()
    ensures ComparePart("", "") == 0
  {}

  lemma TextDecides(a: string, b: string)
    requires FirstOrder(a) != FirstOrder(b)
    ensures ComparePart(a, b) == Sign(FirstOrder(a), FirstOrder(b))
  {
    assert TextOf(a) == [] <==> FirstOrder(a) == 0;
    assert TextOf(b) == [] <==> FirstOrder(b) == 0;
  }

  lemma DropTextChar(s: string)
    requires FirstOrder(s) != 0
    ensures TextOf(s) == [s[0]] + TextOf(s[1..]) && AfterText(s) == AfterText(s[1..])
    ensures NumberOf(s) == NumberOf(s[1..]) && Remainder(s) == Remainder(s[1..])
  {
    assert TextRun(s) == 1 + TextRun(s[1..]);
  }

  lemma CompareTextCons(x: char, s: string, y: char, t: string)
    requires CharOrder(x) == CharOrder(y)
    ensures CompareText([x] + s, [y] + t) == CompareText(s, t)
  {
    assert ([x] + s)[1..] == s && ([y] + t)[1..] == t;
  }

  lemma SkipText(a: string, b: string)
    requires FirstOrder(a) == FirstOrder(b) != 0
    ensures ComparePart(a, b) == ComparePart(a[1..], b[1..])
  {
    hide ComparePart, CompareText, TextOf, NumberOf, Remainder, AfterText;
    DropTextChar(a);
    DropTextChar(b);
    CompareTextCons(a[0], TextOf(a[1..]), b[0], TextOf(b[1..]));
    Unfold(a, b);
    Unfold(a[1..], b[1..]);
  }

  lemma SkipNumber(a: string, b: string, m: nat, n: nat)
    requires FirstOrder(a) == FirstOrder(b) == 0
    requires m == DigitRun(a) && n == DigitRun(b)
    ensures ComparePart(a, b) == if Value(a[..m]) != Value(b[..n]) then Sign(Value(a[..m]), Value(b[..n]))
                                 else ComparePart(a[m..], b[n..])
  {
    assert AfterText(a) == a && AfterText(b) == b;
    Unfold(a, b);
  }

  /** The order of the text character at a position; 0 at a digit or at the end. */
  function OrderAt(s: string, i: nat): int {
    if i < |s| && !IsDigit(s[i]) then CharOrder(s[i]) else 0
  }

  /** What one pair of text characters decides, in the positions of the loop below. */
  lemma TextPass(left: string, right: string, i: nat, j: nat)
    requires i <= |left| && j <= |right|
    requires OrderAt(left, i) != 0 || OrderAt(right, j) != 0
    ensures OrderAt(left, i) != OrderAt(right, j)
        ==> ComparePart(left[i..], right[j..]) == Sign(OrderAt(left, i), OrderAt(right, j))
    ensures OrderAt(left, i) == OrderAt(right, j)
        ==> ComparePart(left[i..], right[j..]) == ComparePart(left[i + 1..], right[j + 1..])
  {
    var a, b := left[i..], right[j..];
    if OrderAt(left, i) == OrderAt(right, j) {
      SkipText(a, b);
      assert a[1..] == left[i + 1..] && b[1..] == right[j + 1..];
    } else {
      TextDecides(a, b);
    }
  }

  /** What one pass over a pair of numerals decides, in the positions of the loop below. */
  lemma NumberPass(left: string, right: string, i0: nat, i1: nat, i: nat, j0: nat, j1: nat, j: nat)
    requires i0 <= i1 <= i <= |left| && j0 <= j1 <= j <= |right|
    requires OrderAt(left, i0) == OrderAt(right, j0) == 0
    requires forall k :: i0 <= k < i1 ==> left[k] == '0'
    requires forall k :: j0 <= k < j1 ==> right[k] == '0'
    requires i1 < |left| ==> left[i1] != '0'
    requires j1 < |right| ==> right[j1] != '0'
    requires forall k :: i1 <= k < i ==> IsDigit(left[k])
    requires forall k :: j1 <= k < j ==> IsDigit(right[k])
    requires i < |left| ==> !IsDigit(left[i])
    requires j < |right| ==> !IsDigit(right[j])
    ensures ComparePart(left[i0..], right[j0..])
         == if i - i1 != j - j1 then Sign(i - i1, j - j1)
            else if CompareStrings(left[i1..i], right[j1..j]) != 0 then CompareStrings(left[i1..i], right[j1..j])
            else ComparePart(left[i..], right[j..])
  {
    hide ComparePart, Value, CompareStrings;
    ScannedNumeral(left, i0, i1, i);
    ScannedNumeral(right, j0, j1, j);
    SkipNumber(left[i0..], right[j0..], i - i0, j - j0);
    CanonicalNumerals(left[i1..i], right[j1..j]);
  }

  /** The inner loop of compareDebianPart: steps over text pairwise while either side has any, and
      answers as soon as a pair differs. */
  method CompareTextRuns(left: string, right: string, i0: nat, j0: nat) returns (c: int, i: nat, j: nat)
    requires i0 <= |left| && j0 <= |right|
    ensures c != 0 ==> c == ComparePart(left[i0..], right[j0..])
    ensures c == 0 ==> i0 <= i <= |left| && j0 <= j <= |right|
    ensures c == 0 ==> OrderAt(left, i) == OrderAt(right, j) == 0
    ensures c == 0 ==> ComparePart(left[i0..], right[j0..]) == ComparePart(left[i..], right[j..])
  {
    hide ComparePart;
    i, j := i0, j0;
    while (i < |left| && !IsDigit(left[i])) || (j < |right| && !IsDigit(right[j]))
      invariant i0 <= i <= |left| && j0 <= j <= |right|
      invariant ComparePart(left[i0..], right[j0..]) == ComparePart(left[i..], right[j..])
      decreases |left| - i + |right| - j
    {
      TextPass(left, right, i, j);
      var leftOrder, rightOrder := 0, 0;
      if i < |left| && !IsDigit(left[i]) {
        leftOrder := CharOrder(left[i]);
        i := i + 1;
      }
      if j < |right| && !IsDigit(right[j]) {
        rightOrder := CharOrder(right[j]);
        j := j + 1;
      }
      if leftOrder != rightOrder {
        return if leftOrder < rightOrder then -1 else 1, i, j;
      }
    }
    c := 0;
  }

  /** compareDebianPart: the two-index loop computes the manual's comparison. */
  method CompareDebianPart(left: string, right: string) returns (c: int)
    ensures c == ComparePart(left, right)
  {
    hide ComparePart, CompareStrings;
    assert left[0..] == left && right[0..] == right;
    var i, j := 0, 0;
    while i < |left| || j < |right|
      invariant i <= |left| && j <= |right|
      invariant ComparePart(left, right) == ComparePart(left[i..], right[j..])
      decreases |left| - i + |right| - j
    {
      var text, i0, j0 := CompareTextRuns(left, right, i, j);
      if text != 0 {
        return text;
      }
      i := SkipZeros(left, i0);
      j := SkipZeros(right, j0);
      var leftDigits, rightDigits := i, j;
      i := SkipDigits(left, i);
      j := SkipDigits(right, j);
      NumberPass(left, right, i0, leftDigits, i, j0, rightDigits, j);
      if i - leftDigits != j - rightDigits {
        return if i - leftDigits < j - rightDigits then -1 else 1;
      }
      var segment := CompareStrings(left[leftDigits..i], right[rightDigits..j]);
      if segment != 0 {
        return segment;
      }
    }
    assert left[i..] == "" && right[j..] == "";
    EmptyParts();
    return 0;
  }

  // ---- The order as an order on keys ----

  function CharOrders(text: string): (os: seq<int>)
    ensures |os| == |text| && 0 !in os
  {
    seq(|text|, k requires 0 <= k < |text| => CharOrder(text[k]))
  }

  /** One block of a key: the orders of a text, closed by 0, and the number after it. */
  function BlockKey(s: string): seq<int> { CharOrders(TextOf(s)) + [0] + [NumberOf(s)] }

  /** The blocks of a part, in order. Zero-padded comparison of keys is ComparePart. */
  function Key(s: string): seq<int> {
    if s == [] then [] else BlockKey(s) + Key(Remainder(s))
  }

  lemma {:induction false} CompareTextByOrders(a: string, b: string)
    ensures CompareText(a, b) == PadCompare(CharOrders(a), CharOrders(b))
    ensures CompareText(a, b) == 0 <==> a == b
    decreases |a| + |b|
  {
    if a != [] && b != [] {
      assert CharOrders(a)[1..] == CharOrders(a[1..]) && CharOrders(b)[1..] == CharOrders(b[1..]);
      CompareTextByOrders(a[1..], b[1..]);
      assert a == [a[0]] + a[1..] && b == [b[0]] + b[1..];
    }
  }

  lemma SameOrders(a: string, b: string)
    ensures CharOrders(a) == CharOrders(b) <==> a == b
  {
    if CharOrders(a) == CharOrders(b) {
      forall k | 0 <= k < |a|
        ensures a[k] == b[k]
      {
        assert CharOrders(a)[k] == CharOrders(b)[k];
      }
    }
  }

  /** An exhausted part continues with empty blocks. */
  lemma KeyUnfold(a: string, xs: seq<int>)
    ensures PadCompare(Key(a), xs) == PadCompare(BlockKey(a) + Key(Remainder(a)), xs)
  {
    if a == [] {
      assert BlockKey(a) + Key(Remainder(a)) == [0, 0];
      assert Tail([0, 0]) == [0] && Tail([0]) == [];
      assert PadCompare([0], Tail(xs)) == PadCompare([], Tail(xs));
    }
  }

  lemma {:induction false} ComparePartIsKeyOrder(a: string, b: string)
    ensures ComparePart(a, b) == PadCompare(Key(a), Key(b))
    decreases |a| + |b|
  {
    if a != [] || b != [] {
      ComparePartIsKeyOrder(Remainder(a), Remainder(b));
      BlocksDecide(a, b);
      PadCompareAntisymmetric(Key(a), Key(b));
      PadCompareAntisymmetric(Key(b), BlockKey(a) + Key(Remainder(a)));
      PadCompareAntisymmetric(BlockKey(b) + Key(Remainder(b)), BlockKey(a) + Key(Remainder(a)));
      KeyUnfold(a, Key(b));
      KeyUnfold(b, BlockKey(a) + Key(Remainder(a)));
    }
  }

  lemma BlocksDecide(a: string, b: string)
    ensures PadCompare(BlockKey(a) + Key(Remainder(a)), BlockKey(b) + Key(Remainder(b)))
         == if CompareText(TextOf(a), TextOf(b)) != 0 then CompareText(TextOf(a), TextOf(b))
            else if NumberOf(a) != NumberOf(b) then Sign(NumberOf(a), NumberOf(b))
            else PadCompare(Key(Remainder(a)), Key(Remainder(b)))
  {
    hide Key, Value, TextRun, DigitRun, CompareText, PadCompare, TextOf, NumberOf, Remainder, CharOrders;
    var ps, qs := CharOrders(TextOf(a)), CharOrders(TextOf(b));
    var xs, ys := [NumberOf(a)] + Key(Remainder(a)), [NumberOf(b)] + Key(Remainder(b));
    assert BlockKey(a) + Key(Remainder(a)) == ps + [0] + xs;
    assert BlockKey(b) + Key(Remainder(b)) == qs + [0] + ys;
    PadCompareClosed(ps, qs, xs, ys);
    CompareTextByOrders(TextOf(a), TextOf(b));
    SameOrders(TextOf(a), TextOf(b));
    PadCompareCons(NumberOf(a), Key(Remainder(a)), NumberOf(b), Key(Remainder(b)));
  }

  lemma PadCompareCons(x: int, xs: seq<int>, y: int, ys: seq<int>)
    ensures PadCompare([x] + xs, [y] + ys) == if x != y then Sign(x, y) else PadCompare(xs, ys)
  {
    assert ([x] + xs)[1..] == xs && ([y] + ys)[1..] == ys;
  }

  lemma ComparePartTotalPreorder()
    ensures TotalPreorder(ComparePart)
  {
    forall a, b
      ensures ComparePart(b, a) == -ComparePart(a, b)
    {
      ComparePartIsKeyOrder(a, b);
      ComparePartIsKeyOrder(b, a);
      PadCompareAntisymmetric(Key(a), Key(b));
    }
    forall a, b, c | ComparePart(a, b) <= 0 && ComparePart(b, c) <= 0
      ensures ComparePart(a, c) <= 0
    {
      ComparePartIsKeyOrder(a, b);
      ComparePartIsKeyOrder(b, c);
      ComparePartIsKeyOrder(a, c);
      PadCompareTransitive(Key(a), Key(b), Key(c));
    }
  }

  // ---- When two parts are equal ----

  datatype Block = Block(text: string, number: nat)

  const BLANK := Block("", 0)

  /** A part as its (text, number) blocks: numerals lose their leading zeros, a missing numeral is
      zero, and a part that is only zeros is the empty part. */
  function NormalForm(s: string): seq<Block> {
    if s == [] then [] else Cons(BLANK, Block(TextOf(s), NumberOf(s)), NormalForm(Remainder(s)))
  }

  lemma {:induction false} EqualParts(a: string, b: string)
    ensures ComparePart(a, b) == 0 <==> NormalForm(a) == NormalForm(b)
    decreases |a| + |b|
  {
    hide TextRun, DigitRun, Value;
    if a != [] || b != [] {
      EqualParts(Remainder(a), Remainder(b));
      CompareTextByOrders(TextOf(a), TextOf(b));
      NormalFormUnfold(a);
      NormalFormUnfold(b);
      var x, y := Block(TextOf(a), NumberOf(a)), Block(TextOf(b), NumberOf(b));
      Unfold(a, b);
      assert ComparePart(a, b) == 0 <==> x == y && NormalForm(Remainder(a)) == NormalForm(Remainder(b));
      ConsInjective(BLANK, x, NormalForm(Remainder(a)), y, NormalForm(Remainder(b)));
    }
  }

  lemma NormalFormUnfold(s: string)
    ensures NormalForm(s) == Cons(BLANK, Block(TextOf(s), NumberOf(s)), NormalForm(Remainder(s)))
  {
    if s == [] {
      hide TextRun, DigitRun;
      assert TextOf(s) == [] && NumberOf(s) == 0 && Remainder(s) == [];
    }
    hide Value, TextRun, DigitRun;
  }

  // ---- A tilde sorts before everything, even the end of a part ----

  predicate StartsWithTilde(t: string) { t != "" && t[0] == '~' }

  lemma {:induction false} TildeBeforeEnd(a: string, t: string)
    requires StartsWithTilde(t)
    ensures ComparePart(a + t, a) == -1
    decreases |a|
  {
    hide ComparePart, CompareText, TextOf, NumberOf, Remainder, TextRun;
    Unfold(a + t, a);
    if TextRun(a) == |a| {
      TextOfAppend(a, t);
      TextOfTilde(t);
      TildeText(a, TextOf(t));
    } else {
      RemainderAppend(a, t);
      TildeBeforeEnd(Remainder(a), t);
      CompareTextByOrders(TextOf(a), TextOf(a));
    }
  }

  lemma TextOfTilde(t: string)
    requires StartsWithTilde(t)
    ensures StartsWithTilde(TextOf(t))
  {}

  lemma TextOfAppend(a: string, t: string)
    requires TextRun(a) == |a|
    ensures TextOf(a + t) == a + TextOf(t) && TextOf(a) == a
  {
    hide TextRun;
    TextRunAppend(a, t);
    var n := TextRun(t);
    assert (a + t)[..|a| + n] == a + t[..n];
  }

  lemma SliceAppend(a: string, t: string, n: nat)
    requires n <= |a|
    ensures (a + t)[..n] == a[..n] && (a + t)[n..] == a[n..] + t
  {}

  lemma DigitsAppend(s: string, t: string)
    requires t != "" && !IsDigit(t[0])
    ensures DigitRun(s + t) == DigitRun(s)
    ensures (s + t)[..DigitRun(s)] == s[..DigitRun(s)] && (s + t)[DigitRun(s)..] == s[DigitRun(s)..] + t
  {
    hide DigitRun;
    DigitRunUnique(s + t, DigitRun(s));
    SliceAppend(s, t, DigitRun(s));
  }

  /** Text appended to a part whose first block has a number leaves that block alone. */
  lemma RemainderAppend(a: string, t: string)
    requires TextRun(a) < |a| && t != "" && !IsDigit(t[0])
    ensures TextOf(a + t) == TextOf(a) && NumberOf(a + t) == NumberOf(a)
    ensures Remainder(a + t) == Remainder(a) + t && |Remainder(a)| < |a|
  {
    hide Value, TextRun, DigitRun;
    TextRunUnique(a + t, TextRun(a));
    SliceAppend(a, t, TextRun(a));
    DigitsAppend(AfterText(a), t);
  }

  lemma TextRunUnique(s: string, n: nat)
    requires n < |s| && IsDigit(s[n]) && forall k :: 0 <= k < n ==> !IsDigit(s[k])
    ensures TextRun(s) == n
  {}

  lemma {:induction false} TextRunAppend(a: string, b: string)
    requires TextRun(a) == |a|
    ensures TextRun(a + b) == |a| + TextRun(b)
  {
    if a == "" {
      assert a + b == b;
    } else {
      assert (a + b)[1..] == a[1..] + b;
      TextRunAppend(a[1..], b);
    }
  }

  lemma {:induction false} TildeText(a: string, t: string)
    requires StartsWithTilde(t)
    ensures CompareText(a + t, a) == -1
  {
    if a == "" {
      assert a + t == t;
    } else {
      assert (a + t)[1..] == a[1..] + t;
      TildeText(a[1..], t);
    }
  }

  // ---- Whole versions: epoch, upstream version, revision ----

  function ColonOf(version: string): (i: nat)
    ensures i <= |version|
  {
    IndexOf(version, ':')
  }

  /** What follows the epoch. */
  function Body(version: string): string {
    if ColonOf(version) < |version| then version[ColonOf(version) + 1..] else version
  }

  /** The number before the first colon, as a 64-bit int; 0 when there is no colon. Digits after a
      non-digit are ignored. */
  function Epoch(version: string): int {
    if ColonOf(version) < |version|
    then Wrap64(Value(version[..ColonOf(version)][..DigitRun(version[..ColonOf(version)])]))
    else 0
  }

  function Upstream(version: string): string {
    var dash := LastIndexOf(Body(version), '-');
    if dash >= 0 then Body(version)[..dash] else Body(version)
  }

  /** What follows the last hyphen; "0" when there is none. */
  function Revision(version: string): string {
    var dash := LastIndexOf(Body(version), '-');
    if dash >= 0 then Body(version)[dash + 1..] else "0"
  }

  function Compare(left: string, right: string): (c: int) {
    if Epoch(left) != Epoch(right) then Sign(Epoch(left), Epoch(right))
    else if ComparePart(Upstream(left), Upstream(right)) != 0 then ComparePart(Upstream(left), Upstream(right))
    else ComparePart(Revision(left), Revision(right))
  }

  /** splitDebianVersion. */
  method SplitDebianVersion(version: string) returns (epoch: int, upstream: string, revision: string)
    ensures epoch == Epoch(version)
    ensures upstream == Upstream(version) && revision == Revision(version)
  {
    hide IndexOf, LastIndexOf, DigitRun, Value, Epoch, Upstream, Revision, Body;
    epoch := 0;
    var rest := version;
    var colon := IndexOf(version, ':');
    HeadParts(version);
    if colon < |version| {
      var number, _ := ParseDigits(version[..colon]);
      epoch := number;
      rest := version[colon + 1..];
    }
    var dash := LastIndexOf(rest, '-');
    TailParts(version);
    if dash >= 0 {
      return epoch, rest[..dash], rest[dash + 1..];
    }
    return epoch, rest, "0";
  }

  lemma HeadParts(version: string)
    ensures var colon := IndexOf(version, ':');
      if colon < |version|
      then Epoch(version) == Wrap64(Value(version[..colon][..DigitRun(version[..colon])])) && Body(version) == version[colon + 1..]
      else Epoch(version) == 0 && Body(version) == version
  {
    hide IndexOf, DigitRun, Value;
  }

  lemma TailParts(version: string)
    ensures var rest, dash := Body(version), LastIndexOf(Body(version), '-');
      if dash >= 0 then Upstream(version) == rest[..dash] && Revision(version) == rest[dash + 1..]
      else Upstream(version) == rest && Revision(version) == "0"
  {
    hide LastIndexOf, Body;
  }

  /** debianVersionCompare. */
  method DebianVersionCompare(left: string, right: string) returns (c: int)
    ensures c == Compare(left, right)
  {
    var leftEpoch, leftUpstream, leftRevision := SplitDebianVersion(left);
    var rightEpoch, rightUpstream, rightRevision := SplitDebianVersion(right);
    if leftEpoch != rightEpoch {
      return if leftEpoch < rightEpoch then -1 else 1;
    }
    var compared := CompareDebianPart(leftUpstream, rightUpstream);
    if compared != 0 {
      return compared;
    }
    c := CompareDebianPart(leftRevision, rightRevision);
  }

  /** Sorting by this comparator is well defined: it is a total preorder on all strings. */
  lemma CompareTotalPreorder()
    ensures TotalPreorder(Compare)
  {
    hide ComparePart, Epoch, Upstream, Revision;
    ComparePartTotalPreorder();
    forall a, b, c | Compare(a, b) <= 0 && Compare(b, c) <= 0
      ensures Compare(a, c) <= 0
    {
      PreorderSteps(Upstream(a), Upstream(b), Upstream(c));
      PreorderSteps(Revision(a), Revision(b), Revision(c));
    }
  }

  lemma PreorderSteps(a: string, b: string, c: string)
    requires TotalPreorder(ComparePart)
    ensures ComparePart(a, b) <= 0 && ComparePart(b, c) <= 0 ==> ComparePart(a, c) <= 0
    ensures ComparePart(a, b) <= 0 && ComparePart(b, c) <= 0 && ComparePart(a, c) == 0
        ==> ComparePart(a, b) == 0 && ComparePart(b, c) == 0
  {
    hide ComparePart;
    if ComparePart(a, b) <= 0 && ComparePart(b, c) <= 0 && ComparePart(a, c) == 0 {
      assert ComparePart(c, a) <= 0;
      assert ComparePart(c, b) <= 0 && ComparePart(b, a) <= 0;
    }
  }

  /** Two versions tie exactly when epochs agree and both parts have the same normal form. */
  lemma EqualVersions(left: string, right: string)
    ensures Compare(left, right) == 0 <==>
              && Epoch(left) == Epoch(right)
              && NormalForm(Upstream(left)) == NormalForm(Upstream(right))
              && NormalForm(Revision(left)) == NormalForm(Revision(right))
  {
    hide ComparePart, NormalForm, Value, IndexOf, LastIndexOf, DigitRun;
    EqualParts(Upstream(left), Upstream(right));
    EqualParts(Revision(left), Revision(right));
  }

  /** Whatever the version, a tilde suffix makes an earlier one. */
  lemma TildeSuffixSortsFirst(version: string, suffix: string)
    requires StartsWithTilde(suffix) && ':' !in suffix && '-' !in suffix
    ensures Compare(version + suffix, version) == -1
  {
    hide ComparePart, NormalForm, Value, IndexOf, LastIndexOf, DigitRun;
    TildeSuffixParts(version, suffix);
    EqualParts(Upstream(version), Upstream(version));
    TildeBeforeEnd(Revision(version), suffix);
    TildeBeforeEnd(Upstream(version), suffix);
  }

  lemma TildeSuffixParts(version: string, suffix: string)
    requires ':' !in suffix && '-' !in suffix
    ensures Epoch(version + suffix) == Epoch(version)
    ensures var x := version + suffix;
            if LastIndexOf(Body(version), '-') >= 0
            then Upstream(x) == Upstream(version) && Revision(x) == Revision(version) + suffix
            else Upstream(x) == Upstream(version) + suffix && Revision(x) == Revision(version)
  {
    hide Value, IndexOf, LastIndexOf, DigitRun;
    TildeSuffixBody(version, suffix);
    var b, y := Body(version), Body(version) + suffix;
    var dash := LastIndexOf(b, '-');
    LastIndexOfUnique(y, '-', dash);
    if dash >= 0 {
      assert y[..dash] == b[..dash] && y[dash + 1..] == b[dash + 1..] + suffix;
    }
  }

  lemma TildeSuffixBody(version: string, suffix: string)
    requires ':' !in suffix && '-' !in suffix
    ensures Epoch(version + suffix) == Epoch(version)
    ensures Body(version + suffix) == Body(version) + suffix
  {
    hide Value, IndexOf, LastIndexOf, DigitRun;
    var x, colon := version + suffix, ColonOf(version);
    IndexOfUnique(x, ':', if colon < |version| then colon else |x|);
    if colon < |version| {
      assert x[..ColonOf(x)] == version[..colon];
    }
  }

  // ---- The order, on strings put together from their pieces ----

  /** A common prefix decides nothing. */
  lemma {:induction false} SamePrefix(p: string, s: string, t: string)
    requires Splits(p, s) && Splits(p, t)
    ensures ComparePart(p + s, p + t) == ComparePart(s, t)
    decreases |p|
  {
    hide ComparePart, Value, DigitRun;
    if p == "" {
      assert p + s == s && p + t == t;
    } else if IsDigit(p[0]) {
      RunSplits(p, s);
      RunSplits(p, t);
      var n := DigitRun(p);
      SkipNumber(p + s, p + t, n, n);
      SamePrefix(p[n..], s, t);
    } else {
      SkipText(p + s, p + t);
      assert (p + s)[1..] == p[1..] + s && (p + t)[1..] == p[1..] + t;
      SamePrefix(p[1..], s, t);
    }
  }

  predicate IsLetter(c: char) { 'A' <= c <= 'Z' || 'a' <= c <= 'z' }

  /** A tilde comes first, then the letters, then everything else; letters, and others, by their code. */
  predicate Precedes(x: char, y: char) {
    if y == '~' then false
    else if x == '~' then true
    else if IsLetter(x) == IsLetter(y) then x < y
    else IsLetter(x)
  }

  /** Text decides at its first difference, whatever follows. */
  lemma TextOrder(p: string, x: char, s: string, y: char, t: string)
    requires !IsDigit(x) && !IsDigit(y) && Precedes(x, y)
    ensures ComparePart(p + ([x] + s), p + ([y] + t)) == -1
  {
    hide ComparePart;
    SamePrefix(p, [x] + s, [y] + t);
    TextDecides([x] + s, [y] + t);
  }

  /** Where one part ends and the other goes on with text, the longer one is greater; only a tilde makes it
      smaller. */
  lemma EndOrder(p: string, y: char, t: string)
    requires !IsDigit(y)
    ensures ComparePart(p, p + ([y] + t)) == if y == '~' then 1 else -1
  {
    hide ComparePart;
    SamePrefix(p, "", [y] + t);
    assert p + "" == p;
    TextDecides("", [y] + t);
  }

  /** Numbers decide by their values, whatever follows. */
  lemma NumberOrder(p: string, m: nat, s: string, n: nat, t: string)
    requires p == "" || !IsDigit(p[|p| - 1])
    requires (s == "" || !IsDigit(s[0])) && (t == "" || !IsDigit(t[0]))
    requires m < n
    ensures ComparePart(p + (Decimal(m) + s), p + (Decimal(n) + t)) == -1
  {
    hide ComparePart, Decimal, Value, DigitRun;
    SamePrefix(p, Decimal(m) + s, Decimal(n) + t);
    DecimalRun(m, s);
    DecimalRun(n, t);
    SkipNumber(Decimal(m) + s, Decimal(n) + t, |Decimal(m)|, |Decimal(n)|);
  }

  lemma EpochPrinted(n: nat, rest: string)
    requires n < TWO63
    ensures Epoch(Decimal(n) + (":" + rest)) == n && Body(Decimal(n) + (":" + rest)) == rest
  {
    hide Decimal, IndexOf, Value, DigitRun;
    var d := Decimal(n);
    var version := d + (":" + rest);
    IndexOfUnique(version, ':', |d|);
    assert version[..|d|] == d && version[|d| + 1..] == rest;
    DigitRunUnique(d, |d|);
    assert d[..|d|] == d;
  }

  /** The epoch decides, whatever the rest. */
  lemma EpochDecides(m: nat, a: string, n: nat, b: string)
    requires m < n < TWO63
    ensures Compare(Decimal(m) + (":" + a), Decimal(n) + (":" + b)) == -1
  {
    hide Decimal, ComparePart, Epoch, Upstream, Revision;
    EpochPrinted(m, a);
    EpochPrinted(n, b);
  }

  /** Without a colon the epoch is zero. */
  lemma NoEpoch(version: string)
    requires ':' !in version
    ensures Epoch(version) == 0
    ensures Compare(version, Decimal(0) + (":" + version)) == 0
  {
    hide Decimal, ComparePart, IndexOf, Value, LastIndexOf, NormalForm;
    EpochPrinted(0, version);
    EqualVersions(version, Decimal(0) + (":" + version));
  }

  /** With equal epochs the upstream version decides, and then the revision. Only the last hyphen counts. */
  lemma UpstreamDecides(n: nat, a: string, r: string, b: string, q: string)
    requires n < TWO63 && '-' !in r && '-' !in q
    ensures Compare(Decimal(n) + (":" + (a + ("-" + r))), Decimal(n) + (":" + (b + ("-" + q))))
         == if ComparePart(a, b) != 0 then ComparePart(a, b) else ComparePart(r, q)
  {
    hide Decimal, ComparePart, Epoch, LastIndexOf;
    EpochPrinted(n, a + ("-" + r));
    EpochPrinted(n, b + ("-" + q));
    HyphenSplits(a, r);
    HyphenSplits(b, q);
  }

  lemma HyphenSplits(a: string, r: string)
    requires '-' !in r
    ensures var x := a + ("-" + r); LastIndexOf(x, '-') == |a| && x[..|a|] == a && x[|a| + 1..] == r
  {
    LastIndexOfUnique(a + ("-" + r), '-', |a|);
  }

  /** A missing revision counts as zero. */
  lemma NoRevision(n: nat, a: string)
    requires n < TWO63 && '-' !in a
    ensures Compare(Decimal(n) + (":" + a), Decimal(n) + (":" + (a + "-0"))) == 0
  {
    hide Decimal, ComparePart, Epoch, LastIndexOf, NormalForm;
    EpochPrinted(n, a);
    EpochPrinted(n, a + "-0");
    LastIndexOfUnique(a, '-', -1);
    HyphenSplits(a, "0");
    assert "-" + "0" == "-0";
    EqualVersions(Decimal(n) + (":" + a), Decimal(n) + (":" + (a + "-0")));
  }
}
