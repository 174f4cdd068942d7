/** The pieces of Go's strings package and integer parsing the modelled code uses. A Go string
    is a sequence of bytes; here it is a sequence of characters, and every result is stated for
    all characters, so in particular for those that are bytes. */
module Text {
  import opened Orders

  predicate IsDigit(c: char) { '0' <= c <= '9' }

  function Digit(c: char): (d: nat)
    requires IsDigit(c)
    ensures d < 10
  {
    c as int - '0' as int
  }

  ghost predicate AllDigits(s: string) { forall k :: 0 <= k < |s| ==> IsDigit(s[k]) }

  /** The length of the longest prefix of digits. */
  function DigitRun(s: string): (n: nat)
    ensures n <= |s|
    ensures AllDigits(s[..n])
    ensures forall k :: 0 <= k < n ==> IsDigit(s[k])
    ensures n < |s| ==> !IsDigit(s[n])
  {
    if s == [] || !IsDigit(s[0]) then 0 else 1 + DigitRun(s[1..])
  }

  lemma DigitRunUnique(s: string, n: nat)
    requires n <= |s| && forall k :: 0 <= k < n ==> IsDigit(s[k])
    requires n < |s| ==> !IsDigit(s[n])
    ensures DigitRun(s) == n
  {}

  /** The position of the last `c`, or -1 when there is none: strings.LastIndexByte. */
  function LastIndexOf(s: string, c: char): (i: int)
    ensures -1 <= i < |s|
    ensures forall k :: i < k < |s| ==> s[k] != c
    ensures i >= 0 ==> s[i] == c
  {
    if s == [] then -1
    else if s[|s| - 1] == c then |s| - 1
    else LastIndexOf(s[..|s| - 1], c)
  }

  lemma LastIndexOfUnique(s: string, c: char, i: int)
    requires -1 <= i < |s| && (i >= 0 ==> s[i] == c) && forall k :: i < k < |s| ==> s[k] != c
    ensures LastIndexOf(s, c) == i
  {}

  // ---- Bytewise comparison: strings.Compare ----

  function CompareStrings(a: string, b: string): (c: int)
    ensures c == -1 || c == 0 || c == 1
  {
    if a == [] && b == [] then 0
    else if a == [] then -1
    else if b == [] then 1
    else if a[0] != b[0] then (if a[0] < b[0] then -1 else 1)
    else CompareStrings(a[1..], b[1..])
  }

  lemma {:induction false} CompareStringsAntisymmetric(a: string, b: string)
    ensures CompareStrings(b, a) == -CompareStrings(a, b)
    ensures CompareStrings(a, b) == 0 <==> a == b
  {
    if a != [] && b != [] && a[0] == b[0] {
      CompareStringsAntisymmetric(a[1..], b[1..]);
      assert a == [a[0]] + a[1..] && b == [b[0]] + b[1..];
    }
  }

  /** `a` ends where `b` goes on, or has the lesser character at the first difference. */
  ghost predicate Before(a: string, b: string, k: nat) {
    k <= |a| && k < |b| && a[..k] == b[..k] && (k < |a| ==> a[k] < b[k])
  }

  lemma {:induction false} CompareStringsLess(a: string, b: string)
    ensures CompareStrings(a, b) == -1 <==> exists k: nat :: Before(a, b, k)
  {
    assert forall k: nat :: Before(a, b, k) && k > 0 ==> a[..k][0] == b[..k][0];
    if b != [] && (a == [] || a[0] < b[0]) {
      assert Before(a, b, 0);
    } else if a != [] && b != [] && a[0] == b[0] {
      CompareStringsLess(a[1..], b[1..]);
      if exists k: nat :: Before(a[1..], b[1..], k) {
        var k: nat :| Before(a[1..], b[1..], k);
        assert a[..k + 1] == [a[0]] + a[1..][..k] && b[..k + 1] == [b[0]] + b[1..][..k];
        assert Before(a, b, k + 1);
      }
      if exists k: nat :: Before(a, b, k) {
        var k: nat :| Before(a, b, k);
        assert a[..k] == b[..k] && k > 0;
        assert a[1..][..k - 1] == a[..k][1..] && b[1..][..k - 1] == b[..k][1..];
        assert Before(a[1..], b[1..], k - 1);
      }
    }
  }

  lemma {:induction false} CompareStringsTransitive(a: string, b: string, c: string)
    requires CompareStrings(a, b) <= 0 && CompareStrings(b, c) <= 0
    ensures CompareStrings(a, c) <= 0
  {
    if a != [] && b != [] && c != [] && a[0] == b[0] == c[0] {
      CompareStringsTransitive(a[1..], b[1..], c[1..]);
    }
  }

  // ---- Numerals ----

  /** The unbounded number a string of digits denotes; the empty string denotes zero. */
  function Value(s: string): nat
    requires AllDigits(s)
  {
    if s == [] then 0 else Value(s[..|s| - 1]) * 10 + Digit(s[|s| - 1])
  }

  lemma ValueOfPrefix(s: string, k: nat)
    requires k <= |s| && forall m :: 0 <= m < k ==> IsDigit(s[m])
    ensures Value(s[..k]) == if k == 0 then 0 else Value(s[..k - 1]) * 10 + Digit(s[k - 1])
  {
    if k > 0 { assert s[..k][..k - 1] == s[..k - 1]; }
  }

  function Pow10(n: nat): (p: nat)
    ensures p >= 1
  {
    if n == 0 then 1 else 10 * Pow10(n - 1)
  }

  /** The leading digit carries the weight of its position. */
  lemma {:induction false} ValueFromLeft(s: string)
    requires AllDigits(s) && s != []
    ensures AllDigits(s[1..])
    ensures Value(s) == Digit(s[0]) * Pow10(|s| - 1) + Value(s[1..])
  {
    if |s| == 1 {
      assert s[..0] == [] && s[1..] == [];
    } else {
      var init := s[..|s| - 1];
      ValueFromLeft(init);
      assert init[1..] == s[1..][..|s| - 2];
      Shift(Digit(s[0]), Pow10(|s| - 2), Value(init[1..]), Digit(s[|s| - 1]));
    }
  }

  lemma Shift(d: nat, p: nat, low: nat, e: nat)
    ensures (d * p + low) * 10 + e == d * (10 * p) + (low * 10 + e)
  {}

  lemma {:induction false} ValueBound(s: string)
    requires AllDigits(s)
    ensures Value(s) < Pow10(|s|)
    ensures s != [] && s[0] != '0' ==> Value(s) >= Pow10(|s| - 1)
  {
    if s != [] {
      ValueBound(s[..|s| - 1]);
    }
  }

  lemma Pow10Monotone(m: nat, n: nat)
    requires m <= n
    ensures Pow10(m) <= Pow10(n)
  {
    if m < n { Pow10Monotone(m, n - 1); }
  }

  /** Stripping a leading zero keeps the number. */
  lemma ValueLeadingZero(s: string)
    requires AllDigits(s) && s != [] && s[0] == '0'
    ensures AllDigits(s[1..]) && Value(s) == Value(s[1..])
  {
    ValueFromLeft(s);
  }

  ghost predicate Canonical(s: string) { AllDigits(s) && (s != [] ==> s[0] != '0') }

  lemma {:induction false} SameLengthNumerals(a: string, b: string)
    requires AllDigits(a) && AllDigits(b) && |a| == |b|
    ensures CompareStrings(a, b) == Sign(Value(a), Value(b))
  {
    if a != [] {
      ValueFromLeft(a);
      ValueFromLeft(b);
      SameLengthNumerals(a[1..], b[1..]);
      ValueBound(a[1..]);
      ValueBound(b[1..]);
      if a[0] < b[0] {
        DigitDominates(Digit(a[0]), Digit(b[0]), Pow10(|a| - 1), Value(a[1..]));
      } else if b[0] < a[0] {
        DigitDominates(Digit(b[0]), Digit(a[0]), Pow10(|a| - 1), Value(b[1..]));
      }
    }
  }

  lemma DigitDominates(d: nat, e: nat, p: nat, low: nat)
    requires d < e && low < p
    ensures d * p + low < e * p
  {
    assert e * p == d * p + (e - d) * p;
    assert (e - d) * p >= p by { assert (e - d - 1) * p >= 0; }
  }

  /** "Compare lengths, then bytes" orders canonical numerals by the numbers they denote. */
  lemma CanonicalNumerals(a: string, b: string)
    requires Canonical(a) && Canonical(b)
    ensures Sign(Value(a), Value(b)) == if |a| != |b| then Sign(|a|, |b|) else CompareStrings(a, b)
  {
    if |a| == |b| {
      SameLengthNumerals(a, b);
    } else {
      ValueBound(a);
      ValueBound(b);
      if |a| < |b| { Pow10Monotone(|a|, |b| - 1); } else { Pow10Monotone(|b|, |a| - 1); }
    }
  }

  // ---- Printing a number ----

  function DigitChar(d: nat): (c: char)
    requires d < 10
    ensures IsDigit(c) && Digit(c) == d
  {
    ('0' as int + d) as char
  }

  /** The canonical decimal of a number. */
  function Decimal(n: nat): (s: string)
    ensures s != "" && AllDigits(s) && Value(s) == n
    ensures '-' !in s && ',' !in s && ':' !in s
  {
    if n < 10 then [DigitChar(n)] else
      var high, last := Decimal(n / 10), [DigitChar(n % 10)];
      assert (high + last)[..|high|] == high;
      high + last
  }

  /** A decimal is the digit run of what it starts, if no digit follows. */
  lemma DecimalRun(n: nat, rest: string)
    requires rest == "" || !IsDigit(rest[0])
    ensures DigitRun(Decimal(n) + rest) == |Decimal(n)|
    ensures (Decimal(n) + rest)[..|Decimal(n)|] == Decimal(n) && (Decimal(n) + rest)[|Decimal(n)|..] == rest
  {
    hide Decimal, DigitRun;
    DigitRunUnique(Decimal(n) + rest, |Decimal(n)|);
  }

  /** No numeral goes on from the end of `p` into `s`. */
  predicate Splits(p: string, s: string) { p == "" || s == "" || !IsDigit(p[|p| - 1]) || !IsDigit(s[0]) }

  lemma RunSplits(p: string, s: string)
    requires p != "" && IsDigit(p[0]) && Splits(p, s)
    ensures 0 < DigitRun(p) == DigitRun(p + s) && (p + s)[..DigitRun(p)] == p[..DigitRun(p)]
    ensures (p + s)[DigitRun(p)..] == p[DigitRun(p)..] + s && Splits(p[DigitRun(p)..], s)
  {
    DigitRunUnique(p + s, DigitRun(p));
  }

  // ---- Scanning a numeral in place ----

  method SkipZeros(s: string, from: nat) returns (i: nat)
    requires from <= |s|
    ensures from <= i <= |s|
    ensures forall k :: from <= k < i ==> s[k] == '0'
    ensures i < |s| ==> s[i] != '0'
  {
    i := from;
    while i < |s| && s[i] == '0'
      invariant from <= i <= |s|
      invariant forall k :: from <= k < i ==> s[k] == '0'
    {
      i := i + 1;
    }
  }

  method SkipDigits(s: string, from: nat) returns (i: nat)
    requires from <= |s|
    ensures from <= i <= |s|
    ensures forall k :: from <= k < i ==> IsDigit(s[k])
    ensures i < |s| ==> !IsDigit(s[i])
  {
    i := from;
    while i < |s| && IsDigit(s[i])
      invariant from <= i <= |s|
      invariant forall k :: from <= k < i ==> IsDigit(s[k])
    {
      i := i + 1;
    }
  }

  /** Zeros from `from` to `start`, then digits to `end`, are exactly the digit run at `from`, and
      what is left of it is the canonical numeral of the same number. */
  lemma ScannedNumeral(s: string, from: nat, start: nat, end: nat)
    requires from <= start <= end <= |s|
    requires forall k :: from <= k < start ==> s[k] == '0'
    requires start < |s| ==> s[start] != '0'
    requires forall k :: start <= k < end ==> IsDigit(s[k])
    requires end < |s| ==> !IsDigit(s[end])
    ensures DigitRun(s[from..]) == end - from
    ensures Canonical(s[start..end]) && Value(s[from..][..end - from]) == Value(s[start..end])
    ensures s[from..][end - from..] == s[end..]
  {
    DigitRunUnique(s[from..], end - from);
    SkippedZeros(s, from, start, end);
    assert s[from..][..end - from] == s[from..end];
  }

  lemma SkippedZeros(s: string, from: nat, start: nat, end: nat)
    requires from <= start <= end <= |s| && AllDigits(s[from..end])
    requires forall k :: from <= k < start ==> s[k] == '0'
    ensures AllDigits(s[start..end]) && Value(s[from..end]) == Value(s[start..end])
    decreases start - from
  {
    if from < start {
      ValueLeadingZero(s[from..end]);
      assert s[from..end][1..] == s[from + 1..end];
      SkippedZeros(s, from + 1, start, end);
    }
  }

  // ---- Go's int: 64 bits, wrapping ----

  const TWO63: int := 0x8000_0000_0000_0000
  const TWO64: int := 0x1_0000_0000_0000_0000

  function Wrap64(x: int): (w: int)
    ensures -TWO63 <= w < TWO63
    ensures -TWO63 <= x < TWO63 ==> w == x
  {
    (x + TWO63) % TWO64 - TWO63
  }

  /** One digit more, in wrapping arithmetic, is one digit more of the unbounded number, wrapped. */
  lemma WrapStep(x: int, d: int)
    ensures Wrap64(Wrap64(x) * 10 + d) == Wrap64(x * 10 + d)
  {
    var k := (x + TWO63) / TWO64;
    assert Wrap64(x) == x - k * TWO64;
    var y := x * 10 + d;
    assert Wrap64(x) * 10 + d == y - (10 * k) * TWO64;
    WrapShift(y, 10 * k);
  }

  lemma WrapShift(y: int, m: int)
    ensures Wrap64(y - m * TWO64) == Wrap64(y)
  {
    var z := y + TWO63;
    var q := z / TWO64;
    assert z == q * TWO64 + z % TWO64;
    assert z - m * TWO64 == (q - m) * TWO64 + z % TWO64;
    QuotientUnique(z - m * TWO64, q - m, z % TWO64);
  }

  lemma QuotientUnique(n: int, q: int, r: int)
    requires n == q * TWO64 + r && 0 <= r < TWO64
    ensures n % TWO64 == r
  {
    var q', r' := n / TWO64, n % TWO64;
    assert (q - q') * TWO64 == r' - r;
  }

  /** The accumulating loop of both version packages: reads digits into a 64-bit int, up to the
      first character that is not one. */
  method ParseDigits(s: string) returns (number: int, read: nat)
    ensures read == DigitRun(s)
    ensures number == Wrap64(Value(s[..read]))
  {
    hide Value;
    number, read := 0, 0;
    assert Value(s[..0]) == 0 by { ValueOfPrefix(s, 0); }
    while read < |s| && IsDigit(s[read])
      invariant read <= |s| && forall m :: 0 <= m < read ==> IsDigit(s[m])
      invariant number == Wrap64(Value(s[..read]))
    {
      ValueOfPrefix(s, read + 1);
      WrapStep(Value(s[..read]), Digit(s[read]));
      number := Wrap64(number * 10 + Digit(s[read]));
      read := read + 1;
    }
    DigitRunUnique(s, read);
  }
}
