/** Range requests of a shared download: parseRange of internal/cache/cache.go; see section 14.1.2 of
    RFC 9110. */
module Ranges {
  import opened Records
  import opened Sequences
  import opened Text

  /** The whole object, the bytes start..end inclusive, or a request to be refused. */
  datatype Range = Whole | Part(start: int, end: int) | Invalid

  /** fmt.Sscan into an int64. It accepts more than decimals; what matters here is what it makes of
      canonical decimals. */
  type IntScanner = string -> Option<int>

  ghost predicate ScansDecimals(scan: IntScanner) {
    forall n: nat :: n < TWO63 ==> scan(Decimal(n)) == Some(n)
  }

  predicate HasPrefix(s: string, prefix: string) { |prefix| <= |s| && s[..|prefix|] == prefix }

  const UNIT := "bytes="

  /** What a header asks for: the suffix form "-n" and lists of ranges are refused, as is any range of an object
      of unknown length. */
  function RangeIn(header: string, total: int, scan: IntScanner): (r: Range)
    ensures r.Part? ==> 0 <= r.start <= r.end < total
    ensures r.Whole? <==> header == ""
  {
    if header == "" then Whole
    else if total < 0 || !HasPrefix(header, UNIT) || ',' in header then Invalid
    else
      var value := header[|UNIT|..];
      var dash := IndexOf(value, '-');
      if dash == |value| || dash == 0 then Invalid
      else
        var first := scan(value[..dash]);
        if first == None || first.value < 0 || first.value >= total then Invalid
        else if value[dash + 1..] == "" then Part(first.value, total - 1)
        else
          var last := scan(value[dash + 1..]);
          if last == None || last.value < first.value then Invalid
          else Part(first.value, if last.value >= total then total - 1 else last.value)
  }

  /** parseRange. */
  method ParseRange(header: string, total: int, scan: IntScanner) returns (start: int, end: int, partial: bool, ok: bool)
    ensures ok && partial ==> RangeIn(header, total, scan) == Part(start, end) && 0 <= start <= end < total
    ensures ok && !partial ==> RangeIn(header, total, scan) == Whole && start == 0 && end == -1
    ensures !ok ==> RangeIn(header, total, scan) == Invalid
  {
    start, end, partial, ok := 0, 0, false, false;
    if header == "" {
      return 0, -1, false, true;
    }
    if total < 0 || !HasPrefix(header, UNIT) || ',' in header {
      return;
    }
    var value := header[|UNIT|..];
    var dash := IndexOf(value, '-');
    if dash == |value| || dash == 0 {
      return;
    }
    var first := scan(value[..dash]);
    if first == None || first.value < 0 || first.value >= total {
      return;
    }
    start, end := first.value, total - 1;
    if value[dash + 1..] != "" {
      var last := scan(value[dash + 1..]);
      if last == None || last.value < start {
        return;
      }
      end := last.value;
      if end >= total {
        end := total - 1;
      }
    }
    return start, end, true, true;
  }

  /** The header asks for `first` to `last` in the units of bytes; `last` may be missing. */
  ghost predicate AsksFor(header: string, first: string, last: string) {
    && header == "bytes=" + (first + ("-" + last))
    && first != "" && '-' !in first && ',' !in first && ',' !in last
  }

  function Least(a: int, b: int): int { if a < b then a else b }

  lemma AskedRange(header: string, first: string, last: string, total: int, scan: IntScanner)
    requires AsksFor(header, first, last)
    ensures RangeIn(header, total, scan)
         == if total < 0 || scan(first) == None || scan(first).value < 0 || scan(first).value >= total then Invalid
            else if last == "" then Part(scan(first).value, total - 1)
            else if scan(last) == None || scan(last).value < scan(first).value then Invalid
            else Part(scan(first).value, Least(scan(last).value, total - 1))
  {
    hide IndexOf;
    var value := first + ("-" + last);
    assert header[..|UNIT|] == UNIT && header[|UNIT|..] == value && ',' !in header;
    IndexOfUnique(value, '-', |first|);
    assert value[..|first|] == first && value[|first| + 1..] == last;
  }

  lemma AcceptedIsAsked(header: string, total: int, scan: IntScanner) returns (first: string, last: string)
    requires RangeIn(header, total, scan).Part?
    ensures AsksFor(header, first, last)
  {
    hide IndexOf;
    var value := header[|UNIT|..];
    var dash := IndexOf(value, '-');
    first, last := value[..dash], value[dash + 1..];
    assert value == first + ("-" + last);
    assert header == UNIT + value;
  }

  /** Exactly which headers are answered with a part, and which part that is: the first byte must exist, and the
      last one is cut off at the end of the object. Everything else but an absent header is refused, and so is
      any range of an object of unknown length. */
  lemma PartIff(header: string, total: int, scan: IntScanner, start: int, end: int)
    ensures RangeIn(header, total, scan) == Part(start, end) <==>
              exists first, last :: AsksFor(header, first, last) && Gives(first, last, total, scan, start, end)
  {
    hide RangeIn, AsksFor;
    if RangeIn(header, total, scan) == Part(start, end) {
      var first, last := AcceptedIsAsked(header, total, scan);
      AskedRange(header, first, last, total, scan);
      assert Gives(first, last, total, scan, start, end);
    }
    forall first, last | AsksFor(header, first, last) {
      AskedRange(header, first, last, total, scan);
    }
  }

  predicate Gives(first: string, last: string, total: int, scan: IntScanner, start: int, end: int) {
    && scan(first) == Some(start) && 0 <= start < total
    && if last == "" then end == total - 1
       else scan(last).Some? && scan(last).value >= start && end == Least(scan(last).value, total - 1)
  }

  function PrintRange(first: nat, last: nat): string { UNIT + (Decimal(first) + "-" + Decimal(last)) }

  /** A printed range parses to its bytes that exist, and is refused exactly when it is empty or
      starts past the end. */
  lemma ParsePrintedRange(first: nat, last: nat, total: nat, scan: IntScanner)
    requires ScansDecimals(scan) && first < TWO63 && last < TWO63
    ensures RangeIn(PrintRange(first, last), total, scan)
         == if first < total && first <= last then Part(first, if last < total then last else total - 1) else Invalid
  {
    hide Decimal, IndexOf;
    var header, value := PrintRange(first, last), Decimal(first) + "-" + Decimal(last);
    assert header[..|UNIT|] == UNIT && header[|UNIT|..] == value;
    assert ',' !in header;
    IndexOfUnique(value, '-', |Decimal(first)|);
    assert value[..|Decimal(first)|] == Decimal(first) && value[|Decimal(first)| + 1..] == Decimal(last);
  }

  /** A range without an end runs to the last byte. */
  lemma ParseOpenRange(first: nat, total: nat, scan: IntScanner)
    requires ScansDecimals(scan) && first < TWO63
    ensures RangeIn(UNIT + (Decimal(first) + "-"), total, scan)
         == if first < total then Part(first, total - 1) else Invalid
  {
    hide Decimal, IndexOf;
    var value := Decimal(first) + "-";
    var header := UNIT + value;
    assert header[..|UNIT|] == UNIT && header[|UNIT|..] == value;
    assert ',' !in header;
    IndexOfUnique(value, '-', |Decimal(first)|);
    assert value[..|Decimal(first)|] == Decimal(first) && value[|Decimal(first)| + 1..] == "";
  }

  /** The suffix form of the RFC, the last n bytes, is always refused. */
  lemma SuffixRangeRefused(suffix: string, total: int, scan: IntScanner)
    ensures RangeIn(UNIT + ("-" + suffix), total, scan) == Invalid
  {
    var value := "-" + suffix;
    var header := UNIT + value;
    assert header[|UNIT|..] == value;
    IndexOfUnique(value, '-', 0);
  }
}
