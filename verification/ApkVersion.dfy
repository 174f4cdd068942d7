/** The Alpine version order of internal/apk/version.go. */
module ApkVersion {
  import opened Orders
  import opened Records
  import opened Sequences
  import opened Text

  // ---- The order on token lists ----

  /** A run of digits, as the number it denotes, or any other single character. */
  datatype Token = Number(n: nat) | Char(c: char)

  /** Numbers compare by value; against a character a number stands where the digits are. */
  function CompareToken(x: Token, y: Token): (c: int)
    ensures c == -1 || c == 0 || c == 1
    ensures c == 0 <==> x == y
  {
    match (x, y)
    case (Number(m), Number(n)) => Sign(m, n)
    case (Number(_), Char(d)) => if '0' <= d then -1 else 1
    case (Char(c), Number(_)) => if '0' <= c then 1 else -1
    case (Char(c), Char(d)) => Sign(c as int, d as int)
  }

  /** An exhausted version continues with zero bytes. */
  function First(xs: seq<Token>): Token { if xs == [] then Char('\0') else xs[0] }

  function Rest(xs: seq<Token>): seq<Token> { if xs == [] then [] else xs[1..] }

  function CompareTokens(xs: seq<Token>, ys: seq<Token>): (c: int)
    ensures c == -1 || c == 0 || c == 1
    decreases |xs| + |ys|
  {
    if xs == [] && ys == [] then 0
    else if First(xs) != First(ys) then CompareToken(First(xs), First(ys))
    else CompareTokens(Rest(xs), Rest(ys))
  }

  lemma {:induction false} CompareTokensAntisymmetric(xs: seq<Token>, ys: seq<Token>)
    ensures CompareTokens(ys, xs) == -CompareTokens(xs, ys)
    decreases |xs| + |ys|
  {
    if xs != [] || ys != [] {
      CompareTokensAntisymmetric(Rest(xs), Rest(ys));
    }
  }

  lemma {:induction false} CompareTokensTransitive(xs: seq<Token>, ys: seq<Token>, zs: seq<Token>)
    requires CompareTokens(xs, ys) <= 0 && CompareTokens(ys, zs) <= 0
    ensures CompareTokens(xs, zs) <= 0
    decreases |xs| + |ys| + |zs|
  {
    if xs != [] || ys != [] || zs != [] {
      if First(xs) == First(ys) == First(zs) {
        CompareTokensTransitive(Rest(xs), Rest(ys), Rest(zs));
      }
    }
  }

  lemma {:induction false} SamePrefix(ps: seq<Token>, xs: seq<Token>, ys: seq<Token>)
    ensures CompareTokens(ps + xs, ps + ys) == CompareTokens(xs, ys)
  {
    if ps == [] {
      assert ps + xs == xs && ps + ys == ys;
    } else {
      assert (ps + xs)[1..] == ps[1..] + xs && (ps + ys)[1..] == ps[1..] + ys;
      SamePrefix(ps[1..], xs, ys);
    }
  }

  const BLANK := Char('\0')

  /** A token list without the zero bytes at its end. */
  function Trimmed(xs: seq<Token>): seq<Token> {
    if xs == [] then [] else Cons(BLANK, xs[0], Trimmed(xs[1..]))
  }

  lemma {:induction false} EqualTokens(xs: seq<Token>, ys: seq<Token>)
    ensures CompareTokens(xs, ys) == 0 <==> Trimmed(xs) == Trimmed(ys)
    decreases |xs| + |ys|
  {
    if xs != [] || ys != [] {
      EqualTokens(Rest(xs), Rest(ys));
      ConsInjective(BLANK, First(xs), Trimmed(Rest(xs)), First(ys), Trimmed(Rest(ys)));
      assert Trimmed(xs) == Cons(BLANK, First(xs), Trimmed(Rest(xs)));
      assert Trimmed(ys) == Cons(BLANK, First(ys), Trimmed(Rest(ys)));
    }
  }

  // ---- The base of a version as tokens ----

  /** Maximal digit runs become numbers; a digit run is never split. */
  function Tokens(s: string): seq<Token> {
    if s == [] then []
    else if IsDigit(s[0]) then [Number(Value(s[..DigitRun(s)]))] + Tokens(s[DigitRun(s)..])
    else [Char(s[0])] + Tokens(s[1..])
  }

  function CompareBase(left: string, right: string): int { CompareTokens(Tokens(left), Tokens(right)) }

  predicate DigitAt(s: string, i: nat) { i < |s| && IsDigit(s[i]) }

  function CharAt(s: string, i: nat): char { if i < |s| then s[i] else '\0' }

  function Next(s: string, i: nat): nat { if i < |s| then i + 1 else i }

  lemma CharToken(s: string, i: nat)
    requires i <= |s| && !DigitAt(s, i)
    ensures First(Tokens(s[i..])) == Char(CharAt(s, i))
    ensures Rest(Tokens(s[i..])) == Tokens(s[Next(s, i)..])
  {
    hide Value, DigitRun;
    if i < |s| {
      assert s[i..][1..] == s[i + 1..];
    }
  }

  lemma NumberToken(s: string, from: nat, start: nat, end: nat)
    requires from <= start <= end <= |s| && DigitAt(s, from)
    requires forall k :: from <= k < start ==> s[k] == '0'
    requires start < |s| ==> s[start] != '0'
    requires forall k :: start <= k < end ==> IsDigit(s[k])
    requires end < |s| ==> !IsDigit(s[end])
    ensures Canonical(s[start..end])
    ensures Tokens(s[from..]) == [Number(Value(s[start..end]))] + Tokens(s[end..])
  {
    hide Value, DigitRun;
    ScannedNumeral(s, from, start, end);
  }

  /** One character step of the loop below, when not both sides are at a digit. */
  lemma CharPass(left: string, right: string, i: nat, j: nat)
    requires i <= |left| && j <= |right| && (i < |left| || j < |right|)
    requires !(DigitAt(left, i) && DigitAt(right, j))
    ensures CompareBase(left[i..], right[j..])
         == if CharAt(left, i) != CharAt(right, j) then Sign(CharAt(left, i) as int, CharAt(right, j) as int)
            else CompareBase(left[Next(left, i)..], right[Next(right, j)..])
  {
    hide Value, DigitRun;
    if !DigitAt(left, i) { CharToken(left, i); }
    if !DigitAt(right, j) { CharToken(right, j); }
  }

  /** One number step of the loop below. */
  lemma NumberPass(left: string, right: string, i0: nat, i1: nat, i: nat, j0: nat, j1: nat, j: nat)
    requires i0 <= i1 <= i <= |left| && j0 <= j1 <= j <= |right|
    requires DigitAt(left, i0) && DigitAt(right, j0)
    requires forall k :: i0 <= k < i1 ==> left[k] == '0'
    requires forall k :: j0 <= k < j1 ==> right[k] == '0'
    requires i1 < |left| ==> left[i1] != '0'
    requires j1 < |right| ==> right[j1] != '0'
    requires forall k :: i1 <= k < i ==> IsDigit(left[k])
    requires forall k :: j1 <= k < j ==> IsDigit(right[k])
    requires i < |left| ==> !IsDigit(left[i])
    requires j < |right| ==> !IsDigit(right[j])
    ensures CompareBase(left[i0..], right[j0..])
         == if i - i1 != j - j1 then Sign(i - i1, j - j1)
            else if CompareStrings(left[i1..i], right[j1..j]) != 0 then CompareStrings(left[i1..i], right[j1..j])
            else CompareBase(left[i..], right[j..])
  {
    hide Value, DigitRun, CompareStrings, Tokens;
    NumberToken(left, i0, i1, i);
    NumberToken(right, j0, j1, j);
    CanonicalNumerals(left[i1..i], right[j1..j]);
  }

  /** compareVersionBase: the two-index loop computes the comparison of the token lists. */
  method CompareVersionBase(left: string, right: string) returns (c: int)
    ensures c == CompareBase(left, right)
  {
    hide CompareBase, CompareStrings;
    assert left[0..] == left && right[0..] == right;
    var i, j := 0, 0;
    while i < |left| || j < |right|
      invariant i <= |left| && j <= |right|
      invariant CompareBase(left, right) == CompareBase(left[i..], right[j..])
      decreases |left| - i + |right| - j
    {
      var leftDigit := i < |left| && IsDigit(left[i]);
      var rightDigit := j < |right| && IsDigit(right[j]);
      if leftDigit && rightDigit {
        ghost var i0, j0 := i, j;
        i := SkipZeros(left, i);
        j := SkipZeros(right, j);
        var leftStart, rightStart := i, j;
        i := SkipDigits(left, i);
        j := SkipDigits(right, j);
        NumberPass(left, right, i0, leftStart, i, j0, rightStart, j);
        if i - leftStart != j - rightStart {
          return if i - leftStart < j - rightStart then -1 else 1;
        }
        var compared := CompareStrings(left[leftStart..i], right[rightStart..j]);
        if compared != 0 {
          return compared;
        }
      } else {
        CharPass(left, right, i, j);
        var leftValue, rightValue := '\0', '\0';
        if i < |left| {
          leftValue := left[i];
          i := i + 1;
        }
        if j < |right| {
          rightValue := right[j];
          j := j + 1;
        }
        if leftValue != rightValue {
          return if leftValue < rightValue then -1 else 1;
        }
      }
    }
    assert left[i..] == [] && right[j..] == [];
    NothingLeft();
    return 0;
  }

  lemma NothingLeft()
    ensures CompareBase([], []) == 0
  {}

  // ---- Whole versions: base and -r revision ----

  predicate MarkAt(s: string, i: nat) { i + 1 < |s| && s[i] == '-' && s[i + 1] == 'r' }

  /** The position of the last "-r", or -1: strings.LastIndex. */
  function LastMark(s: string): (i: int)
    ensures -1 <= i < |s|
    ensures i >= 0 ==> MarkAt(s, i)
    ensures forall k: nat :: i < k ==> !MarkAt(s, k)
  {
    LastMarkBelow(s, |s|)
  }

  function LastMarkBelow(s: string, n: nat): (i: int)
    requires n <= |s|
    ensures -1 <= i < n
    ensures i >= 0 ==> MarkAt(s, i)
    ensures forall k: nat :: i < k < n ==> !MarkAt(s, k)
  {
    if n == 0 then -1 else if MarkAt(s, n - 1) then n - 1 else LastMarkBelow(s, n - 1)
  }

  /** Whether the version ends in "-r" and digits only. */
  predicate HasRevision(version: string) {
    LastMark(version) >= 0 && DigitRun(version[LastMark(version) + 2..]) == |version| - LastMark(version) - 2
  }

  function Base(version: string): string {
    if HasRevision(version) then version[..LastMark(version)] else version
  }

  /** The revision as a 64-bit int; 0 without one. */
  function Revision(version: string): int {
    if HasRevision(version) then Wrap64(Value(version[LastMark(version) + 2..])) else 0
  }

  function Compare(left: string, right: string): int {
    if CompareBase(Base(left), Base(right)) != 0 then CompareBase(Base(left), Base(right))
    else Sign(Revision(left), Revision(right))
  }

  /** splitVersion. */
  method SplitVersion(version: string) returns (base: string, revision: int)
    ensures base == Base(version) && revision == Revision(version)
  {
    hide Value;
    var marker := LastMark(version);
    if marker >= 0 {
      var digits := version[marker + 2..];
      var number, read := ParseDigits(digits);
      var valid := read == |digits|;
      if valid {
        assert digits[..read] == digits;
        return version[..marker], number;
      }
    }
    return version, 0;
  }

  /** apkVersionCompare. */
  method ApkVersionCompare(left: string, right: string) returns (c: int)
    ensures c == Compare(left, right)
  {
    var leftBase, leftRevision := SplitVersion(left);
    var rightBase, rightRevision := SplitVersion(right);
    var compared := CompareVersionBase(leftBase, rightBase);
    if compared != 0 {
      return compared;
    }
    if leftRevision < rightRevision {
      return -1;
    }
    if leftRevision > rightRevision {
      return 1;
    }
    return 0;
  }

  /** Sorting by this comparator is well defined: it is a total preorder on all strings. */
  lemma CompareTotalPreorder()
    ensures TotalPreorder(Compare)
  {
    hide Tokens, Base, Revision, CompareTokens;
    forall a, b
      ensures Compare(b, a) == -Compare(a, b)
    {
      CompareTokensAntisymmetric(Tokens(Base(a)), Tokens(Base(b)));
    }
    forall a, b, c | Compare(a, b) <= 0 && Compare(b, c) <= 0
      ensures Compare(a, c) <= 0
    {
      var x, y, z := Tokens(Base(a)), Tokens(Base(b)), Tokens(Base(c));
      CompareTokensTransitive(x, y, z);
      if CompareTokens(x, z) == 0 {
        CompareTokensAntisymmetric(x, z);
        CompareTokensAntisymmetric(x, y);
        CompareTokensAntisymmetric(y, z);
        CompareTokensTransitive(z, x, y);
        CompareTokensTransitive(y, z, x);
      }
    }
  }

  /** Two versions tie exactly when they have the same tokens, up to zero bytes at the end, and the
      same revision. */
  lemma EqualVersions(left: string, right: string)
    ensures Compare(left, right) == 0 <==>
              && Trimmed(Tokens(Base(left))) == Trimmed(Tokens(Base(right)))
              && Revision(left) == Revision(right)
  {
    hide Tokens, Base, Revision, CompareTokens, Trimmed;
    EqualTokens(Tokens(Base(left)), Tokens(Base(right)));
  }

  // ---- Where this order departs from apk-tools ----

  /** More text makes a later base. */
  lemma LongerSortsAfter(base: string, c: char, rest: string)
    requires !IsDigit(c) && c != '\0'
    ensures CompareBase(base + [c] + rest, base) == 1
  {
    hide Tokens;
    TokensSplit(base, [c] + rest);
    FirstToken(c, rest);
    SamePrefix(Tokens(base), Tokens([c] + rest), []);
    assert base + ([c] + rest) == base + [c] + rest;
    assert Tokens(base) + [] == Tokens(base);
  }

  /** A version with an -rN revision, or as it stands. */
  function Released(base: string, revision: Option<string>): string {
    match revision
    case None => base
    case Some(digits) => base + "-r" + digits
  }

  predicate IsRevision(revision: Option<string>) { revision == None || DigitRun(revision.value) == |revision.value| }

  lemma ReleasedBase(base: string, digits: string)
    requires DigitRun(digits) == |digits|
    ensures Base(base + "-r" + digits) == base
  {
    hide Value, DigitRun;
    var v := base + "-r" + digits;
    var m := LastMark(v);
    assert MarkAt(v, |base|);
    assert forall k :: 0 <= k < |digits| ==> v[|base| + 2 + k] == digits[k];
    assert m == |base|;
    assert v[m + 2..] == digits && v[..m] == base;
  }

  /** A revision is looked for behind the underscore only. */
  lemma SuffixedBase(base: string, suffix: string) returns (rest: string)
    ensures Base(base + "_" + suffix) == base + "_" + rest
  {
    hide Value, DigitRun;
    var v := base + "_" + suffix;
    var m := LastMark(v);
    assert v[|base|] == '_';
    assert 0 <= m <= |base| - 2 ==> v[m + 2..][|base| - m - 2] == '_';
    if !HasRevision(v) {
      return suffix;
    }
    assert m > |base|;
    rest := v[|base| + 1..m];
    assert v[..m] == base + "_" + rest;
  }

  lemma ShortenedBase(base: string, rest: string)
    ensures CompareBase(base + "_" + rest, Base(base)) == 1
  {
    hide Value, DigitRun, CompareBase;
    if HasRevision(base) {
      var m := LastMark(base);
      assert base + "_" + rest == base[..m] + ['-'] + (base[m + 1..] + "_" + rest);
      LongerSortsAfter(base[..m], '-', base[m + 1..] + "_" + rest);
    } else {
      LongerSortsAfter(base, '_', rest);
    }
  }

  /** Every underscore suffix, pre-release ones included, sorts after the plain version, whatever the
      revisions of the two. */
  lemma UnderscoreSortsAfter(base: string, suffix: string, left: Option<string>, right: Option<string>)
    requires IsRevision(left) && IsRevision(right)
    ensures Compare(Released(base + "_" + suffix, left), Released(base, right)) == 1
  {
    hide Value, DigitRun, CompareBase, Base, Revision;
    var rest := suffix;
    if left == None {
      rest := SuffixedBase(base, suffix);
    } else {
      ReleasedBase(base + "_" + suffix, left.value);
    }
    if right == None {
      ShortenedBase(base, rest);
    } else {
      ReleasedBase(base, right.value);
      LongerSortsAfter(base, '_', rest);
    }
  }

  lemma {:induction false} TokensSplit(s: string, t: string)
    requires Splits(s, t)
    ensures Tokens(s + t) == Tokens(s) + Tokens(t)
    decreases |s|
  {
    hide Value, DigitRun;
    if s == [] {
      assert s + t == t;
    } else if IsDigit(s[0]) {
      RunSplits(s, t);
      TokensSplit(s[DigitRun(s)..], t);
    } else {
      assert (s + t)[1..] == s[1..] + t;
      TokensSplit(s[1..], t);
    }
  }

  // ---- The order, on strings put together from their pieces ----

  lemma CompareSplit(p: string, s: string, t: string)
    requires Splits(p, s) && Splits(p, t)
    ensures CompareBase(p + s, p + t) == CompareBase(s, t)
  {
    hide Tokens, CompareTokens;
    TokensSplit(p, s);
    TokensSplit(p, t);
    SamePrefix(Tokens(p), Tokens(s), Tokens(t));
  }

  lemma FirstToken(c: char, s: string)
    ensures Tokens([c] + s) != []
    ensures !IsDigit(c) ==> First(Tokens([c] + s)) == Char(c)
    ensures IsDigit(c) ==> First(Tokens([c] + s)).Number?
  {
    hide Value, DigitRun;
  }

  /** Characters decide by their code, even against a numeral, whatever follows; but not inside a numeral. */
  lemma CharacterOrder(p: string, x: char, s: string, y: char, t: string)
    requires x < y && !(IsDigit(x) && IsDigit(y)) && Splits(p, [x]) && Splits(p, [y])
    ensures CompareBase(p + ([x] + s), p + ([y] + t)) == -1
  {
    hide Tokens;
    CompareSplit(p, [x] + s, [y] + t);
    FirstToken(x, s);
    FirstToken(y, t);
  }

  lemma DecimalToken(n: nat, s: string)
    requires s == "" || !IsDigit(s[0])
    ensures Tokens(Decimal(n) + s) != [] && First(Tokens(Decimal(n) + s)) == Number(n)
  {
    hide Decimal, Value, DigitRun;
    DecimalRun(n, s);
  }

  /** Numbers decide by their values, whatever follows. */
  lemma NumberOrder(p: string, m: nat, s: string, n: nat, t: string)
    requires p == "" || !IsDigit(p[|p| - 1])
    requires (s == "" || !IsDigit(s[0])) && (t == "" || !IsDigit(t[0]))
    requires m < n
    ensures CompareBase(p + (Decimal(m) + s), p + (Decimal(n) + t)) == -1
  {
    hide Tokens, Decimal;
    CompareSplit(p, Decimal(m) + s, Decimal(n) + t);
    DecimalToken(m, s);
    DecimalToken(n, t);
  }

  /** The base decides, and then the revision. */
  lemma RevisionDecides(a: string, m: nat, b: string, n: nat)
    requires m < TWO63 && n < TWO63
    ensures Compare(a + "-r" + Decimal(m), b + "-r" + Decimal(n))
         == if CompareBase(a, b) != 0 then CompareBase(a, b) else if m < n then -1 else if m > n then 1 else 0
  {
    hide Decimal, CompareBase, Base, Revision;
    ReleasedRevision(a, m);
    ReleasedRevision(b, n);
  }

  lemma ReleasedRevision(base: string, n: nat)
    requires n < TWO63
    ensures Base(base + "-r" + Decimal(n)) == base && Revision(base + "-r" + Decimal(n)) == n
  {
    hide Decimal, Value, DigitRun;
    DigitRunUnique(Decimal(n), |Decimal(n)|);
    ReleasedBase(base, Decimal(n));
    var v := base + "-r" + Decimal(n);
    assert HasRevision(v) && LastMark(v) == |base|;
    assert v[|base| + 2..] == Decimal(n);
  }

  /** A missing revision counts as zero. */
  lemma NoRevision(version: string)
    requires !HasRevision(version)
    ensures Compare(version, version + "-r" + Decimal(0)) == 0
  {
    hide Decimal, Tokens, HasRevision, CompareTokens, Trimmed;
    ReleasedRevision(version, 0);
    EqualVersions(version, version + "-r" + Decimal(0));
  }
}
