/** Unpadded base64url, section 5 of RFC 4648, as Go's base64.RawURLEncoding writes and reads it. */
module Base64Url {
  import opened Records

  // ---- The alphabet ----

  /** A-Z, a-z, 0-9, hyphen, underscore. */
  function Letter(v: nat): (c: Byte)
    requires v < 64
  {
    if v < 26 then 65 + v else if v < 52 then 71 + v else if v < 62 then v - 4 else if v == 62 then 45 else 95
  }

  predicate InAlphabet(c: Byte) { 65 <= c <= 90 || 97 <= c <= 122 || 48 <= c <= 57 || c == 45 || c == 95 }

  function LetterValue(c: Byte): (v: nat)
    requires InAlphabet(c)
    ensures v < 64 && Letter(v) == c
  {
    if 65 <= c <= 90 then c - 65 else if 97 <= c <= 122 then c - 71 else if 48 <= c <= 57 then c + 4
    else if c == 45 then 62 else 63
  }

  lemma LetterInverse(v: nat)
    requires v < 64
    ensures InAlphabet(Letter(v)) && LetterValue(Letter(v)) == v
  {}

  // ---- Encoding ----

  function Encode(bs: Bytes): Bytes {
    if |bs| == 0 then []
    else if |bs| == 1 then [First(bs[0]), Second(bs[0], 0)]
    else if |bs| == 2 then [First(bs[0]), Second(bs[0], bs[1]), Third(bs[1], 0)]
    else [First(bs[0]), Second(bs[0], bs[1]), Third(bs[1], bs[2]), Fourth(bs[2])] + Encode(bs[3..])
  }

  function First(a: Byte): (c: Byte) { Letter(a / 4) }

  function Second(a: Byte, b: Byte): (c: Byte) { Letter(a % 4 * 16 + b / 16) }

  function Third(b: Byte, c: Byte): (d: Byte) { Letter(b % 16 * 4 + c / 64) }

  function Fourth(c: Byte): (d: Byte) { Letter(c % 64) }

  // ---- Decoding ----

  /** The decoder ignores line breaks wherever they stand. */
  function WithoutBreaks(s: Bytes): Bytes {
    if s == [] then []
    else if s[0] == 10 || s[0] == 13 then WithoutBreaks(s[1..])
    else [s[0]] + WithoutBreaks(s[1..])
  }

  function High(v: nat, w: nat): (b: Byte)
    requires v < 64 && w < 64
  {
    v * 4 + w / 16
  }

  function Middle(v: nat, w: nat): (b: Byte)
    requires v < 64 && w < 64
  {
    v % 16 * 16 + w / 4
  }

  function Low(v: nat, w: nat): (b: Byte)
    requires v < 64 && w < 64
  {
    v % 4 * 64 + w
  }

  /** Groups of four letters are three bytes; a last group of two or three is one or two, its spare
      bits ignored; a single letter left over is an error. */
  function DecodeLetters(s: Bytes): Option<Bytes>
    requires forall k :: 0 <= k < |s| ==> InAlphabet(s[k])
  {
    if |s| == 0 then Some([])
    else if |s| == 1 then None
    else
      var v, w := LetterValue(s[0]), LetterValue(s[1]);
      if |s| == 2 then Some([High(v, w)])
      else
        var x := LetterValue(s[2]);
        if |s| == 3 then Some([High(v, w), Middle(w, x)])
        else
          match DecodeLetters(s[4..])
          case None => None
          case Some(rest) => Some([High(v, w), Middle(w, x), Low(x, LetterValue(s[3]))] + rest)
  }

  function Decode(s: Bytes): Option<Bytes> {
    var t := WithoutBreaks(s);
    if forall k :: 0 <= k < |t| ==> InAlphabet(t[k]) then DecodeLetters(t) else None
  }

  // ---- Decoding what was encoded ----

  lemma LettersOf(a: Byte, b: Byte, c: Byte)
    ensures InAlphabet(First(a)) && LetterValue(First(a)) == a / 4
    ensures InAlphabet(Second(a, b)) && LetterValue(Second(a, b)) == a % 4 * 16 + b / 16
    ensures InAlphabet(Third(b, c)) && LetterValue(Third(b, c)) == b % 16 * 4 + c / 64
    ensures InAlphabet(Fourth(c)) && LetterValue(Fourth(c)) == c % 64
  {
    hide Letter, LetterValue, InAlphabet;
    LetterInverse(a / 4);
    LetterInverse(a % 4 * 16 + b / 16);
    LetterInverse(b % 16 * 4 + c / 64);
    LetterInverse(c % 64);
  }

  lemma HighOf(a: Byte, tail: nat)
    requires tail < 16
    ensures a / 4 < 64 && a % 4 * 16 + tail < 64 && High(a / 4, a % 4 * 16 + tail) == a
  {}

  lemma MiddleOf(top: nat, b: Byte, tail: nat)
    requires top < 4 && tail < 4
    ensures top * 16 + b / 16 < 64 && b % 16 * 4 + tail < 64 && Middle(top * 16 + b / 16, b % 16 * 4 + tail) == b
  {
    var high, low := b / 16, b % 16;
    assert b == high * 16 + low && high < 16 && low < 16;
    assert (top * 16 + high) % 16 == high && (low * 4 + tail) / 4 == low;
  }

  lemma LowOf(top: nat, c: Byte)
    requires top < 16
    ensures top * 4 + c / 64 < 64 && Low(top * 4 + c / 64, c % 64) == c
  {}

  /** The four letters of three bytes give the three bytes back. */
  lemma Quantum(a: Byte, b: Byte, c: Byte)
    ensures InAlphabet(First(a)) && InAlphabet(Second(a, b)) && InAlphabet(Third(b, c)) && InAlphabet(Fourth(c))
    ensures High(LetterValue(First(a)), LetterValue(Second(a, b))) == a
    ensures Middle(LetterValue(Second(a, b)), LetterValue(Third(b, c))) == b
    ensures Low(LetterValue(Third(b, c)), LetterValue(Fourth(c))) == c
  {
    hide High, Middle, Low, First, Second, Third, Fourth, LetterValue, InAlphabet;
    LettersOf(a, b, c);
    HighOf(a, b / 16);
    MiddleOf(a % 4, b, c / 64);
    LowOf(b % 16, c);
  }

  lemma {:induction false} EncodeInAlphabet(bs: Bytes)
    ensures forall k :: 0 <= k < |Encode(bs)| ==> InAlphabet(Encode(bs)[k])
    ensures bs != [] ==> Encode(bs) != []
  {
    hide First, Second, Third, Fourth, InAlphabet;
    if |bs| == 1 {
      Quantum(bs[0], 0, 0);
    } else if |bs| == 2 {
      Quantum(bs[0], bs[1], 0);
    } else if |bs| >= 3 {
      Quantum(bs[0], bs[1], bs[2]);
      EncodeInAlphabet(bs[3..]);
    }
  }

  lemma {:induction false} NoBreaks(s: Bytes)
    requires forall k :: 0 <= k < |s| ==> InAlphabet(s[k])
    ensures WithoutBreaks(s) == s
  {
    if s != [] {
      NoBreaks(s[1..]);
    }
  }

  lemma {:induction false} DecodeLettersEncode(bs: Bytes)
    ensures forall k :: 0 <= k < |Encode(bs)| ==> InAlphabet(Encode(bs)[k])
    ensures DecodeLetters(Encode(bs)) == Some(bs)
  {
    hide First, Second, Third, Fourth, InAlphabet, LetterValue, High, Middle, Low;
    EncodeInAlphabet(bs);
    if |bs| == 1 {
      Quantum(bs[0], 0, 0);
      assert bs == [bs[0]];
    } else if |bs| == 2 {
      Quantum(bs[0], bs[1], 0);
      assert bs == [bs[0], bs[1]];
    } else if |bs| >= 3 {
      Quantum(bs[0], bs[1], bs[2]);
      DecodeLettersEncode(bs[3..]);
      assert Encode(bs)[4..] == Encode(bs[3..]);
      assert bs == [bs[0], bs[1], bs[2]] + bs[3..];
    }
  }

  /** Every byte string comes back. */
  lemma DecodeEncode(bs: Bytes)
    ensures Decode(Encode(bs)) == Some(bs)
  {
    DecodeLettersEncode(bs);
    NoBreaks(Encode(bs));
  }

  // ---- What else the decoder takes ----

  lemma {:induction false} WithoutBreaksIs(s: Bytes)
    ensures forall c :: c in WithoutBreaks(s) <==> c in s && c != 10 && c != 13
  {
    if s != [] {
      WithoutBreaksIs(s[1..]);
      assert s == [s[0]] + s[1..];
    }
  }

  lemma {:induction false} BreakDropped(a: Bytes, c: Byte, b: Bytes)
    requires c == 10 || c == 13
    ensures WithoutBreaks(a + [c] + b) == WithoutBreaks(a + b)
  {
    var x := a + [c] + b;
    if a == [] {
      assert x[1..] == b && a + b == b;
    } else {
      assert x[1..] == a[1..] + [c] + b && (a + b)[1..] == a[1..] + b;
      BreakDropped(a[1..], c, b);
    }
  }

  /** A line break, wherever it stands, changes nothing. */
  lemma BreakIgnored(a: Bytes, c: Byte, b: Bytes)
    requires c == 10 || c == 13
    ensures Decode(a + [c] + b) == Decode(a + b)
  {
    BreakDropped(a, c, b);
  }

  lemma {:induction false} LettersDecodeIff(s: Bytes)
    requires forall k :: 0 <= k < |s| ==> InAlphabet(s[k])
    ensures DecodeLetters(s) != None <==> |s| % 4 != 1
  {
    hide LetterValue, High, Middle, Low;
    if |s| >= 4 {
      LettersDecodeIff(s[4..]);
      assert |s| % 4 == |s[4..]| % 4;
    }
  }

  /** A text decodes exactly when, but for line breaks, it is all in the alphabet and has no letter left over. */
  lemma DecodesIff(s: Bytes)
    ensures Decode(s) != None <==>
              (forall c :: c in s && c != 10 && c != 13 ==> InAlphabet(c)) && |WithoutBreaks(s)| % 4 != 1
  {
    hide InAlphabet, DecodeLetters;
    WithoutBreaksIs(s);
    var t := WithoutBreaks(s);
    if forall k :: 0 <= k < |t| ==> InAlphabet(t[k]) {
      LettersDecodeIff(t);
      assert forall c :: c in t ==> InAlphabet(c);
    } else {
      var k :| 0 <= k < |t| && !InAlphabet(t[k]);
      assert t[k] in t;
    }
  }
}
