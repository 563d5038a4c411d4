/** Year-scoped invoice numbers: the numbers of a year run from
    `year * 1000` upwards, the last three digits counting the invoices of the
    year.  The next number is read off the largest number already issued in
    the year's range by string surgery: its decimal text without the first
    four characters is the running count, which is incremented, padded to
    three digits and appended to the year. */
module InvoiceNumbering {
  import opened Wrappers
  import opened Text

  /** `parseInt(`${year}000`)`: the first number of a year's range. */
  function RangeStart(year: nat): (r: nat)
    ensures r == year * 1000
  {
    assert Zeros(3) == "000";
    ValueZeros(3);
    ValueAppend(DecimalString(year), "000");
    assert Pow10(3) == 1000;
    ParseIntDigits(DecimalString(year) + "000", "");
    assert DecimalString(year) + "000" + "" == DecimalString(year) + "000";
    ParseInt(DecimalString(year) + "000").value
  }

  /** The numbers the range query considers. */
  predicate InRange(n: int, lo: int, hi: int) {
    lo <= n < hi
  }

  /** The database query for the last invoice of the range: the largest
      existing number `n` with `lo <= n < hi`, or none. */
  function LastInRange(numbers: seq<int>, lo: int, hi: int): (r: Option<int>)
    ensures r.None? <==> forall i :: 0 <= i < |numbers| ==> !InRange(numbers[i], lo, hi)
    ensures r.Some? ==> r.value in numbers && InRange(r.value, lo, hi)
    ensures r.Some? ==> forall i :: 0 <= i < |numbers| && InRange(numbers[i], lo, hi) ==> numbers[i] <= r.value
  {
    if numbers == [] then None
    else
      var rest := LastInRange(numbers[1..], lo, hi);
      assert forall i :: 1 <= i < |numbers| ==> numbers[i] == numbers[1..][i - 1];
      if !InRange(numbers[0], lo, hi) then rest
      else if rest.Some? && rest.value > numbers[0] then rest
      else Some(numbers[0])
  }

  /** `parseInt(last.toString().slice(4))`: the running count of the last
      number, `None` (NaN) when the text has no fifth character. */
  function Suffix(last: nat): Option<nat> {
    var d := DecimalString(last);
    ParseInt(if |d| <= 4 then "" else d[4..])
  }

  /** `nextNumber.toString().padStart(3, '0')`, where a NaN count prints as
      `NaN`. */
  function CountText(next: Option<nat>): string {
    match next
    case Some(k) => PadStart(DecimalString(k), 3, '0')
    case None => "NaN"
  }

  /** The count that follows the last number of the range: 1 when there is
      none, otherwise the last count plus one. */
  function NextCount(numbers: seq<int>, year: nat): Option<nat> {
    match LastInRange(numbers, RangeStart(year), RangeStart(year + 1))
    case None => Some(1)
    case Some(last) =>
      match Suffix(last)
      case Some(k) => Some(k + 1)
      case None => None
  }

  /** The next invoice number: `parseInt` of the year followed by the padded
      count.  The year's digits come first, so the text always starts with a
      digit and the result is a number. */
  function NextNumber(numbers: seq<int>, year: nat): nat {
    var text := DecimalString(year) + CountText(NextCount(numbers, year));
    assert IsDigit(text[0]);
    ParseInt(text).value
  }

  /** `getNextInvoiceNumber`, for the numbers of the user's invoices and the
      requested year. */
  method GetNextInvoiceNumber(numbers: seq<int>, year: nat) returns (invoiceNumber: nat)
    ensures invoiceNumber == NextNumber(numbers, year)
  {
    var startRange := RangeStart(year);
    var endRange := RangeStart(year + 1);
    var lastInvoice := LastInRange(numbers, startRange, endRange);
    var nextNumber: Option<nat> := Some(1);
    if lastInvoice.Some? {
      var lastNum := Suffix(lastInvoice.value);
      nextNumber := if lastNum.Some? then Some(lastNum.value + 1) else None;
    }
    assert nextNumber == NextCount(numbers, year);
    var text := DecimalString(year) + CountText(nextNumber);
    assert IsDigit(text[0]);
    invoiceNumber := ParseInt(text).value;
  }

  // ---------------------------------------------------------------------
  // What the numbering promises
  // ---------------------------------------------------------------------

  /** The number made of the year's digits followed by a digit string. */
  lemma YearThenDigits(year: nat, t: string)
    requires AllDigits(t)
    ensures ParseInt(DecimalString(year) + t) == Some(year * Pow10(|t|) + Value(t))
  {
    ValueAppend(DecimalString(year), t);
    assert DecimalString(year) + t + "" == DecimalString(year) + t;
    ParseIntDigits(DecimalString(year) + t, "");
  }

  /** A count below 1000 pads to exactly three digits with the same value. */
  lemma PaddedCount(k: nat)
    requires k < 1000
    ensures var t := PadStart(DecimalString(k), 3, '0');
      |t| == 3 && AllDigits(t) && Value(t) == k
  {
    DecimalAtMost(k, 3);
    PadZerosValue(DecimalString(k), 3);
  }

  /** A number below `10^k` has at most `k` digits. */
  lemma {:induction false} DecimalAtMost(n: nat, k: nat)
    requires 1 <= k && n < Pow10(k)
    ensures |DecimalString(n)| <= k
  {
    if n >= 10 {
      DecimalAtMost(n / 10, k - 1);
    }
  }

  /** The count of a year with no number in its range is 1. */
  lemma CountOfEmptyYear(numbers: seq<int>, year: nat)
    requires forall i :: 0 <= i < |numbers| ==> !InRange(numbers[i], year * 1000, (year + 1) * 1000)
    ensures NextCount(numbers, year) == Some(1)
  {
  }

  /** The count after a last number `m`. */
  lemma CountAfter(numbers: seq<int>, year: nat, m: nat)
    requires LastInRange(numbers, year * 1000, (year + 1) * 1000) == Some(m)
    ensures NextCount(numbers, year) == if Suffix(m).Some? then Some(Suffix(m).value + 1) else None
  {
  }

  /** A count printing as the digit string `t` gives the year shifted by the
      length of `t`, plus `t`. */
  lemma NumberOfCount(numbers: seq<int>, year: nat, t: string)
    requires CountText(NextCount(numbers, year)) == t && AllDigits(t)
    ensures NextNumber(numbers, year) == year * Pow10(|t|) + Value(t)
  {
    YearThenDigits(year, t);
  }

  /** The first invoice of a year with no invoice in its range is
      `year * 1000 + 1`. */
  lemma FirstOfYear(numbers: seq<int>, year: nat)
    requires forall i :: 0 <= i < |numbers| ==> !InRange(numbers[i], year * 1000, (year + 1) * 1000)
    ensures NextNumber(numbers, year) == year * 1000 + 1
  {
    CountOfEmptyYear(numbers, year);
    PaddedCount(1);
    NumberOfCount(numbers, year, PadStart(DecimalString(1), 3, '0'));
    assert Pow10(3) == 1000;
  }

  /** The running count of a number of a four-digit year's range is its
      value modulo 1000. */
  lemma SuffixOfFullYear(year: nat, m: nat)
    requires 1000 <= year < 10000
    requires year * 1000 <= m < (year + 1) * 1000
    ensures Suffix(m) == Some(m - year * 1000)
  {
    var d := DecimalString(m);
    assert Pow10(6) <= m < Pow10(7);
    DecimalLength(m, 7);
    var head, tail := d[..4], d[4..];
    assert head + tail == d;
    ValueAppend(head, tail);
    ValueBound(tail);
    assert Pow10(|tail|) == 1000;
    SameThousands(Value(head), Value(tail), year, m);
    ParseIntDigits(tail, "");
    assert tail + "" == tail;
  }

  lemma SameThousands(a: nat, b: nat, year: nat, m: nat)
    requires m == a * 1000 + b && b < 1000
    requires year * 1000 <= m < (year + 1) * 1000
    ensures a == year && b == m - year * 1000
  {
  }

  /** For a four-digit year whose last number `m` has not used up the
      range, the next number is `m + 1`: still in the range, and larger than
      every number issued in it. */
  lemma NextIsLastPlusOne(numbers: seq<int>, year: nat, m: nat)
    requires 1000 <= year < 10000
    requires LastInRange(numbers, year * 1000, (year + 1) * 1000) == Some(m)
    requires m < year * 1000 + 999
    ensures NextNumber(numbers, year) == m + 1 && InRange(m + 1, year * 1000, (year + 1) * 1000)
  {
    SuffixOfFullYear(year, m);
    CountAfter(numbers, year, m);
    var k := m - year * 1000 + 1;
    PaddedCount(k);
    NumberOfCount(numbers, year, PadStart(DecimalString(k), 3, '0'));
    assert Pow10(3) == 1000;
  }

  /** After the 999th invoice of a four-digit year the count no longer fits
      three digits: the next number has eight digits, `year * 10000 + 1000`,
      and lies outside the year's range. */
  lemma CountOverflow(numbers: seq<int>, year: nat)
    requires 1000 <= year < 10000
    requires LastInRange(numbers, year * 1000, (year + 1) * 1000) == Some(year * 1000 + 999)
    ensures NextNumber(numbers, year) == year * 10000 + 1000
    ensures !InRange(NextNumber(numbers, year), year * 1000, (year + 1) * 1000)
  {
    SuffixOfFullYear(year, year * 1000 + 999);
    CountAfter(numbers, year, year * 1000 + 999);
    CountThousand();
    NumberOfCount(numbers, year, DecimalString(1000));
  }

  /** A count of 1000 prints with four digits, unpadded. */
  lemma CountThousand()
    ensures CountText(Some(1000)) == DecimalString(1000)
    ensures Pow10(|DecimalString(1000)|) == 10000
  {
    DecimalLength(1000, 4);
  }

  /** For a one-digit year every number of the range has at most four
      digits, so the count reads as NaN and the next number is the year
      itself. */
  lemma OneDigitYear(numbers: seq<int>, year: nat, m: nat)
    requires 1 <= year < 10
    requires LastInRange(numbers, year * 1000, (year + 1) * 1000) == Some(m)
    ensures NextNumber(numbers, year) == year
  {
    DecimalAtMost(m, 4);
    CountAfter(numbers, year, m);
    ParseIntDigits(DecimalString(year), "NaN");
  }
}
