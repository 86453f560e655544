/** Calendar dates as the screens and the database see them: Python's
    `datetime.date`, Qt's `QDate` (which may be null or invalid), the
    comparisons the filters make, and the `YYYY-MM-DD` text PostgreSQL
    produces for `date::text` and Python for `strftime("%Y-%m-%d")`. */
module Dates {
  import opened Wrappers
  import opened Text

  datatype Date = Date(year: int, month: int, day: int)

  predicate IsLeap(y: int) {
    (y % 4 == 0 && y % 100 != 0) || y % 400 == 0
  }

  function DaysInMonth(y: int, m: int): (n: int)
    requires 1 <= m <= 12
    ensures 28 <= n <= 31
    ensures m == 2 ==> (n == 29 <==> IsLeap(y))
  {
    if m == 2 then (if IsLeap(y) then 29 else 28)
    else if m == 4 || m == 6 || m == 9 || m == 11 then 30
    else 31
  }

  /** A real calendar day in the years a four-digit year can write. */
  predicate Valid(d: Date) {
    1 <= d.year <= 9999 && 1 <= d.month <= 12 && 1 <= d.day <= DaysInMonth(d.year, d.month)
  }

  /** Chronological order: `a < b` on Python dates and on SQL `date` values. */
  predicate Before(a: Date, b: Date) {
    a.year < b.year
    || (a.year == b.year && a.month < b.month)
    || (a.year == b.year && a.month == b.month && a.day < b.day)
  }

  /** `a <= b`. */
  predicate NotAfter(a: Date, b: Date) {
    Before(a, b) || a == b
  }

  lemma BeforeTotal(a: Date, b: Date)
    ensures Before(a, b) || a == b || Before(b, a)
    ensures !(Before(a, b) && Before(b, a))
  {
  }

  /** A `QDate`: either the null date `QDate()` or one built from a year,
      month and day, which Qt reports invalid when they name no real day. */
  datatype QDate = NullDate | Ymd(year: int, month: int, day: int) {

    predicate IsValid() {
      Ymd? && Valid(Date(year, month, day))
    }

    /** Qt defines a null date as one that is not valid. */
    predicate IsNull() {
      !IsValid()
    }

    /** `QDate.toPyDate()` of a valid date. */
    function ToDate(): (d: Date)
      requires IsValid()
      ensures Valid(d)
    {
      Date(year, month, day)
    }
  }

  /** A date filter read from a date edit: no filter unless the date is valid
      and not null, as the search screen tests it. */
  function FilterDate(q: QDate): (r: Option<Date>)
    ensures r.Some? <==> q.IsValid()
    ensures r.Some? ==> Valid(r.value) && r.value == q.ToDate()
  {
    if q.IsValid() && !q.IsNull() then Some(q.ToDate()) else None
  }

  // ---- The date editors ----

  /** A real calendar day: what the `date` columns hold, and what a
      `QDateEdit` shows. Qt keeps an editor on a valid date: it starts at
      2000-01-01, and `setDate` with an invalid date such as the null
      `QDate()` is ignored, so `date()` never returns a null date. */
  type ValidDate = d: Date | Valid(d) witness Date(2000, 1, 1)

  /** The date a new editor shows. */
  const EditorStart: ValidDate := Date(2000, 1, 1)

  /** The minimum date the screens give their editors; with
      `setSpecialValueText(" ")` Qt shows it as a blank field. */
  const EditorMinimum: ValidDate := Date(1990, 1, 1)

  /** `setDate(q)`: a valid date replaces the shown one, any other is
      ignored. */
  function SetDate(shown: ValidDate, q: QDate): (r: ValidDate)
    ensures q.IsValid() ==> r == q.ToDate()
    ensures !q.IsValid() ==> r == shown
  {
    if q.IsValid() then q.ToDate() else shown
  }

  /** `date()`: the shown date as a `QDate`, always a valid one. */
  function EditorValue(e: ValidDate): (q: QDate)
    ensures q.IsValid() && q.ToDate() == e
  {
    Ymd(e.year, e.month, e.day)
  }

  /** Resetting an editor with `setDate(QDate())` leaves it as it was, and
      the date filter read from an editor is always present. */
  lemma ResetKeepsDate(e: ValidDate)
    ensures SetDate(e, NullDate) == e
    ensures FilterDate(EditorValue(SetDate(e, NullDate))) == Some(e)
  {
  }

  /** The reading of a date editor the screens evidently intend: the blank
      minimum date stands for "no date". */
  function IntendedFilter(e: ValidDate): (r: Option<Date>)
    ensures r.None? <==> e == EditorMinimum
    ensures r.Some? ==> r.value == e
  {
    if e == EditorMinimum then None else Some(e)
  }

  /** The evidently intended reset puts an editor on its blank minimum; it
      then reads as no date, while the as-written reset keeps the filter. */
  lemma IntendedResetBlank(e: ValidDate)
    ensures IntendedFilter(SetDate(e, Ymd(1990, 1, 1))) == None
    ensures e != EditorMinimum ==> FilterDate(EditorValue(SetDate(e, NullDate))) != IntendedFilter(SetDate(e, Ymd(1990, 1, 1)))
  {
    assert Ymd(1990, 1, 1).IsValid();
  }

  /** The screens that test only `isValid()` read the same filter. */
  lemma ValidOnlyAgrees(q: QDate)
    ensures FilterDate(q) == (if q.IsValid() then Some(q.ToDate()) else None)
  {
  }

  function DigitChar(n: int): (c: char)
    requires 0 <= n < 10
    ensures IsDigit(c)
  {
    ('0' as int + n) as char
  }

  function Pow10(w: nat): (p: nat)
    ensures p >= 1
  {
    if w == 0 then 1 else 10 * Pow10(w - 1)
  }

  /** `n` written in decimal with leading zeros to exactly `w` digits. */
  function Pad(n: int, w: nat): (r: string)
    requires 0 <= n < Pow10(w)
    ensures |r| == w
    ensures forall i :: 0 <= i < |r| ==> IsDigit(r[i])
  {
    if w == 0 then "" else Pad(n / 10, w - 1) + [DigitChar(n % 10)]
  }

  /** `str(n)` for a natural number: its decimal digits, without leading zeros. */
  function DecimalText(n: nat): (r: string)
    ensures |r| > 0 && forall i :: 0 <= i < |r| ==> IsDigit(r[i])
    ensures n > 0 ==> r[0] != '0'
  {
    if n < 10 then [DigitChar(n)] else DecimalText(n / 10) + [DigitChar(n % 10)]
  }

  function DecimalValue(s: string): nat {
    if |s| == 0 then 0
    else 10 * DecimalValue(s[..|s| - 1]) + (if IsDigit(s[|s| - 1]) then (s[|s| - 1] as int - '0' as int) else 0)
  }

  /** Reading the digits back gives the number. */
  lemma {:induction false} DecimalRoundTrip(n: nat)
    ensures DecimalValue(DecimalText(n)) == n
  {
    if n >= 10 {
      DecimalRoundTrip(n / 10);
      var s := DecimalText(n);
      assert s[..|s| - 1] == DecimalText(n / 10);
    }
  }

  lemma DigitCharOrder(a: int, b: int)
    requires 0 <= a < 10 && 0 <= b < 10
    ensures DigitChar(a) < DigitChar(b) <==> a < b
    ensures DigitChar(a) == DigitChar(b) <==> a == b
  {
  }

  lemma SingleLess(c: char, d: char)
    ensures StrLess([c], [d]) <==> c < d
  {
    assert [c][1..] == [] && [d][1..] == [];
  }

  lemma DivModOrder(a: int, b: int)
    requires 0 <= a && 0 <= b
    ensures a < b <==> a / 10 < b / 10 || (a / 10 == b / 10 && a % 10 < b % 10)
    ensures a == b <==> a / 10 == b / 10 && a % 10 == b % 10
  {
    assert a == 10 * (a / 10) + a % 10;
    assert b == 10 * (b / 10) + b % 10;
  }

  /** Fixed-width decimal text orders the way the numbers do, and two
      numbers share a text only when they are equal. */
  lemma {:induction false} PadOrder(a: int, b: int, w: nat)
    requires 0 <= a < Pow10(w) && 0 <= b < Pow10(w)
    ensures StrLess(Pad(a, w), Pad(b, w)) <==> a < b
    ensures Pad(a, w) == Pad(b, w) <==> a == b
  {
    if w == 0 {
      StrLessIrreflexive("");
    } else {
      PadOrder(a / 10, b / 10, w - 1);
      var x1, x2 := Pad(a / 10, w - 1), Pad(b / 10, w - 1);
      var y1, y2 := [DigitChar(a % 10)], [DigitChar(b % 10)];
      StrLessAppend(x1, y1, x2, y2);
      SingleLess(y1[0], y2[0]);
      DigitCharOrder(a % 10, b % 10);
      DivModOrder(a, b);
      if Pad(a, w) == Pad(b, w) {
        assert x1 == Pad(a, w)[..w - 1] && x2 == Pad(b, w)[..w - 1];
        assert y1[0] == Pad(a, w)[w - 1] && y2[0] == Pad(b, w)[w - 1];
      }
    }
  }

  /** The `YYYY-MM-DD` text of a date. */
  function IsoText(d: Date): (r: string)
    requires Valid(d)
    ensures |r| == 10 && r[4] == '-' && r[7] == '-'
  {
    Pad(d.year, 4) + "-" + Pad(d.month, 2) + "-" + Pad(d.day, 2)
  }

  /** Sorting dates by their text sorts them chronologically, which is what
      an ORDER BY on a `date::text` column relies on. */
  lemma IsoTextOrder(a: Date, b: Date)
    requires Valid(a) && Valid(b)
    ensures StrLess(IsoText(a), IsoText(b)) <==> Before(a, b)
    ensures IsoText(a) == IsoText(b) <==> a == b
  {
    PadOrder(a.year, b.year, 4);
    PadOrder(a.month, b.month, 2);
    PadOrder(a.day, b.day, 2);
    DashedOrder(Pad(a.year, 4), Pad(a.month, 2), Pad(a.day, 2), Pad(b.year, 4), Pad(b.month, 2), Pad(b.day, 2));
    DashedEqual(Pad(a.year, 4), Pad(a.month, 2), Pad(a.day, 2), Pad(b.year, 4), Pad(b.month, 2), Pad(b.day, 2));
  }

  /** Three fields joined by `-`, the first two of fixed width, compare
      field by field. */
  lemma DashedOrder(x1: string, x2: string, x3: string, y1: string, y2: string, y3: string)
    requires |x1| == |y1| && |x2| == |y2|
    ensures StrLess(x1 + "-" + x2 + "-" + x3, y1 + "-" + y2 + "-" + y3)
        <==> StrLess(x1, y1) || (x1 == y1 && (StrLess(x2, y2) || (x2 == y2 && StrLess(x3, y3))))
  {
    assert x1 + "-" + x2 + "-" + x3 == x1 + ("-" + (x2 + ("-" + x3)));
    assert y1 + "-" + y2 + "-" + y3 == y1 + ("-" + (y2 + ("-" + y3)));
    StrLessIrreflexive("-");
    StrLessAppend(x1, "-" + (x2 + ("-" + x3)), y1, "-" + (y2 + ("-" + y3)));
    StrLessAppend("-", x2 + ("-" + x3), "-", y2 + ("-" + y3));
    StrLessAppend(x2, "-" + x3, y2, "-" + y3);
    StrLessAppend("-", x3, "-", y3);
  }

  lemma DashedEqual(x1: string, x2: string, x3: string, y1: string, y2: string, y3: string)
    requires |x1| == |y1| && |x2| == |y2|
    ensures x1 + "-" + x2 + "-" + x3 == y1 + "-" + y2 + "-" + y3 <==> x1 == y1 && x2 == y2 && x3 == y3
  {
    var s, t := x1 + "-" + x2 + "-" + x3, y1 + "-" + y2 + "-" + y3;
    if s == t {
      assert x1 == s[..|x1|] && y1 == t[..|x1|];
      assert x2 == s[|x1| + 1..|x1| + 1 + |x2|] && y2 == t[|x1| + 1..|x1| + 1 + |x2|];
      assert x3 == s[|x1| + |x2| + 2..] && y3 == t[|x1| + |x2| + 2..];
    }
  }
}
