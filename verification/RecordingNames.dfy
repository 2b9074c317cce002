/** The names under which recordings are stored, and their order: date folders, hour folders and file stems are
    zero-padded, so that comparing names compares times. */
module RecordingNames {
  import opened Arithmetic
  import opened Decimals
  import opened Orders

  // ---- zero-padded numbers ----

  function Zeros(n: nat): (s: string)
    ensures |s| == n
  {
    seq(n, _ => '0')
  }

  /** The decimal numeral with leading zeros up to `digits` characters. */
  function PrefixZero(n: nat, digits: nat): (s: string)
    requires 1 <= digits && n < PowerOfTen(digits)
    ensures |s| == digits
  {
    DecimalIsShort(n, digits);
    Zeros(digits - |Decimal(n)|) + Decimal(n)
  }

  function DigitChar(n: nat): (c: char)
    ensures IsDigit(c)
  {
    ('0' as int + n % 10) as char
  }

  lemma PrefixZeroStep(n: nat, k: nat)
    requires 1 <= k && n < PowerOfTen(k + 1)
    ensures n / 10 < PowerOfTen(k)
    ensures PrefixZero(n, k + 1) == PrefixZero(n / 10, k) + [DigitChar(n)]
  {
    DecimalIsShort(n, k + 1);
    DecimalIsShort(n / 10, k);
    if n < 10 {
      assert Zeros(k) == Zeros(k - 1) + "0";
    } else {
      assert Zeros(k + 1 - |Decimal(n)|) == Zeros(k - |Decimal(n / 10)|);
    }
  }

  lemma {:induction false} PrefixZeroIsDigits(n: nat, k: nat)
    requires 1 <= k && n < PowerOfTen(k)
    ensures (forall i | 0 <= i < k :: IsDigit(PrefixZero(n, k)[i])) && DigitsValue(PrefixZero(n, k), 0) == n
    decreases k
  {
    if k == 1 {
      assert PowerOfTen(1) == 10;
      assert PrefixZero(n, 1) == Decimal(n);
      ValueOfDecimal(n);
    } else {
      PrefixZeroStep(n, k - 1);
      PrefixZeroIsDigits(n / 10, k - 1);
      ValueOfAppended(PrefixZero(n / 10, k - 1), DigitChar(n), 0);
    }
  }

  // ---- equal lengths compare part by part ----

  lemma {:induction false} PartsCompare(a: string, b: string, c: string, d: string)
    requires |a| == |b|
    ensures StringLess(a + c, b + d) <==> StringLess(a, b) || (a == b && StringLess(c, d))
  {
    if a == "" {
      assert a + c == c && b + d == d;
    } else {
      assert (a + c)[1..] == a[1..] + c && (b + d)[1..] == b[1..] + d;
      assert a == [a[0]] + a[1..] && b == [b[0]] + b[1..];
      PartsCompare(a[1..], b[1..], c, d);
    }
  }

  lemma LastDigitsCompare(a: nat, b: nat)
    ensures StringLess([DigitChar(a)], [DigitChar(b)]) <==> a % 10 < b % 10
  {
    var s, t := [DigitChar(a)], [DigitChar(b)];
    assert s[0] < t[0] <==> a % 10 < b % 10;
    assert LexLess(CharLess, s, t) == if s[0] == t[0] then LexLess(CharLess, s[1..], t[1..]) else CharLess(s[0], t[0]);
  }

  lemma LeadingDigitsCompare(a: nat, b: nat)
    ensures a < b <==> a / 10 < b / 10 || (a / 10 == b / 10 && a % 10 < b % 10)
  {
  }

  /** Name order is numeric order. */
  lemma {:induction false} PrefixZeroOrder(a: nat, b: nat, k: nat)
    requires 1 <= k && a < PowerOfTen(k) && b < PowerOfTen(k)
    ensures StringLess(PrefixZero(a, k), PrefixZero(b, k)) <==> a < b
    decreases k
  {
    LastDigitsCompare(a, b);
    if k == 1 {
      assert PowerOfTen(1) == 10;
      assert PrefixZero(a, 1) == [DigitChar(a)] && PrefixZero(b, 1) == [DigitChar(b)];
    } else {
      PrefixZeroStep(a, k - 1);
      PrefixZeroStep(b, k - 1);
      PrefixZeroOrder(a / 10, b / 10, k - 1);
      PrefixZeroIsDigits(a / 10, k - 1);
      PrefixZeroIsDigits(b / 10, k - 1);
      LeadingDigitsCompare(a, b);
      hide PrefixZero, PowerOfTen, StringLess, DigitChar, DigitsValue;
      PartsCompare(PrefixZero(a / 10, k - 1), PrefixZero(b / 10, k - 1), [DigitChar(a)], [DigitChar(b)]);
    }
  }

  // ---- the calendar ----

  datatype Date = Date(year: nat, month: nat, day: nat)

  predicate IsLeap(year: nat) {
    year % 4 == 0 && (year % 100 != 0 || year % 400 == 0)
  }

  function DaysIn(year: nat, month: nat): nat {
    if month == 2 then (if IsLeap(year) then 29 else 28)
    else if month in {4, 6, 9, 11} then 30 else 31
  }

  /** A date with a four-digit year. */
  predicate ValidDate(d: Date) {
    1000 <= d.year <= 9999 && 1 <= d.month <= 12 && 1 <= d.day <= DaysIn(d.year, d.month)
  }

  predicate DateLess(a: Date, b: Date) {
    a.year < b.year || (a.year == b.year && (a.month < b.month || (a.month == b.month && a.day < b.day)))
  }

  const FIRST_DATE := Date(1000, 1, 1)

  /** mktime after taking one from the day of the month. */
  function PreviousDate(d: Date): (p: Date)
    requires ValidDate(d) && d != FIRST_DATE
    ensures ValidDate(p)
  {
    if d.day > 1 then d.(day := d.day - 1)
    else if d.month > 1 then Date(d.year, d.month - 1, DaysIn(d.year, d.month - 1))
    else Date(d.year - 1, 12, 31)
  }

  /** The previous date is the latest of all earlier dates. */
  lemma PreviousDateIsPredecessor(d: Date, x: Date)
    requires ValidDate(d) && ValidDate(x) && d != FIRST_DATE
    ensures DateLess(x, d) <==> x == PreviousDate(d) || DateLess(x, PreviousDate(d))
  {
  }

  // ---- days counted without a table of months ----

  const LAST_DATE := Date(9999, 12, 31)

  /** The number of a day of the Gregorian calendar in closed form, with years that begin in March. */
  function DayNumber(d: Date): (n: nat)
    requires 1 <= d.month && 1 <= d.year
  {
    var y: nat := if d.month >= 3 then d.year else d.year - 1;
    var m: nat := if d.month >= 3 then d.month - 3 else d.month + 9;
    365 * y + y / 4 - y / 100 + y / 400 + (153 * m + 2) / 5 + d.day
  }

  /** A year holds a day more than 365 when its number passes a multiple of 4 and not one of 100, or one of 400. */
  lemma YearStep(y: nat)
    requires 1 <= y
    ensures y / 4 - (y - 1) / 4 == (if y % 4 == 0 then 1 else 0)
    ensures y / 100 - (y - 1) / 100 == (if y % 100 == 0 then 1 else 0)
    ensures y / 400 - (y - 1) / 400 == (if y % 400 == 0 then 1 else 0)
    ensures y % 400 == 0 ==> y % 100 == 0
    ensures y % 100 == 0 ==> y % 4 == 0
  {
    FourStep(y);
    HundredStep(y);
    FourHundredStep(y);
  }

  lemma FourStep(y: nat)
    requires 1 <= y
    ensures y / 4 - (y - 1) / 4 == (if y % 4 == 0 then 1 else 0)
  {
    var q, r := y / 4, y % 4;
    if r == 0 {
      DivModIs(y - 1, 4, q - 1, 3);
    } else {
      DivModIs(y - 1, 4, q, r - 1);
    }
  }

  lemma HundredStep(y: nat)
    requires 1 <= y
    ensures y / 100 - (y - 1) / 100 == (if y % 100 == 0 then 1 else 0)
    ensures y % 100 == 0 ==> y % 4 == 0
  {
    var q, r := y / 100, y % 100;
    if r == 0 {
      DivModIs(y - 1, 100, q - 1, 99);
      DivModIs(y, 4, 25 * q, 0);
    } else {
      DivModIs(y - 1, 100, q, r - 1);
    }
  }

  lemma FourHundredStep(y: nat)
    requires 1 <= y
    ensures y / 400 - (y - 1) / 400 == (if y % 400 == 0 then 1 else 0)
    ensures y % 400 == 0 ==> y % 100 == 0
  {
    var q, r := y / 400, y % 400;
    if r == 0 {
      DivModIs(y - 1, 400, q - 1, 399);
      DivModIs(y, 100, 4 * q, 0);
    } else {
      DivModIs(y - 1, 400, q, r - 1);
    }
  }

  lemma MarchStep(y: nat)
    requires 1 <= y
    ensures DayNumber(Date(y, 2, DaysIn(y, 2))) + 1 == DayNumber(Date(y, 3, 1))
  {
    YearStep(y);
  }

  lemma MonthStep(y: nat, m: nat)
    requires 1 <= y && 2 <= m <= 12 && m != 3
    ensures DayNumber(Date(y, m - 1, DaysIn(y, m - 1))) + 1 == DayNumber(Date(y, m, 1))
  {
    var k := if m >= 4 then m - 3 else m + 9;
    assert DaysIn(y, m - 1) == (153 * k + 2) / 5 - (153 * (k - 1) + 2) / 5;
  }

  /** The date before is one day earlier. */
  lemma PreviousDateIsTheDayBefore(d: Date)
    requires ValidDate(d) && d != FIRST_DATE
    ensures DayNumber(PreviousDate(d)) + 1 == DayNumber(d)
  {
    hide DayNumber;
    if d.day == 1 {
      if d.month == 3 {
        MarchStep(d.year);
      } else if d.month > 1 {
        MonthStep(d.year, d.month);
      } else {
        NewYearStep(d.year);
      }
      assert d == Date(d.year, d.month, 1);
    } else {
      DayStep(d);
    }
  }

  lemma DayStep(d: Date)
    requires 1 <= d.month && 1 <= d.year && 1 < d.day
    ensures DayNumber(d.(day := d.day - 1)) + 1 == DayNumber(d)
  {
  }

  lemma NewYearStep(y: nat)
    requires 2 <= y
    ensures DayNumber(Date(y - 1, 12, 31)) + 1 == DayNumber(Date(y, 1, 1))
  {
    assert (153 * 9 + 2) / 5 == 275 && (153 * 10 + 2) / 5 == 306;
  }

  /** Later dates have greater numbers. */
  lemma {:induction false} DayNumbersGrow(a: Date, b: Date)
    requires ValidDate(a) && ValidDate(b) && DateLess(a, b)
    ensures DayNumber(a) < DayNumber(b)
    decreases DayNumber(b)
  {
    PreviousDateIsTheDayBefore(b);
    PreviousDateIsPredecessor(b, a);
    if a != PreviousDate(b) {
      DayNumbersGrow(a, PreviousDate(b));
    }
  }

  /** Going back from d one day after the other leads to day n. */
  lemma {:induction false} DayIsReached(d: Date, n: nat)
    requires ValidDate(d) && DayNumber(FIRST_DATE) <= n <= DayNumber(d)
    ensures exists x :: ValidDate(x) && DayNumber(x) == n
    decreases DayNumber(d)
  {
    if n < DayNumber(d) {
      PreviousDateIsTheDayBefore(d);
      DayIsReached(PreviousDate(d), n);
    }
  }

  /** The dates are the days from the first to the last: each date is one of them, no two are the same one, and none
      is left out. */
  lemma DatesAreDays(a: Date, b: Date, n: nat)
    ensures ValidDate(a) ==> DayNumber(FIRST_DATE) <= DayNumber(a) <= DayNumber(LAST_DATE)
    ensures ValidDate(a) && ValidDate(b) ==> (DayNumber(a) == DayNumber(b) <==> a == b)
    ensures ValidDate(a) && ValidDate(b) ==> (DayNumber(a) < DayNumber(b) <==> DateLess(a, b))
    ensures DayNumber(FIRST_DATE) <= n <= DayNumber(LAST_DATE) ==> exists x :: ValidDate(x) && DayNumber(x) == n
  {
    hide DayNumber;
    if ValidDate(a) {
      if a != FIRST_DATE { DayNumbersGrow(FIRST_DATE, a); }
      if a != LAST_DATE { DayNumbersGrow(a, LAST_DATE); }
      if ValidDate(b) && a != b {
        if DateLess(a, b) { DayNumbersGrow(a, b); } else { DayNumbersGrow(b, a); }
      }
    }
    if DayNumber(FIRST_DATE) <= n <= DayNumber(LAST_DATE) {
      DayIsReached(LAST_DATE, n);
    }
  }

  // ---- names of folders and files ----

  function DateName(d: Date): (s: string)
    requires ValidDate(d)
    ensures |s| == 8
  {
    assert PowerOfTen(2) == 100 && PowerOfTen(4) == 10000;
    PrefixZero(d.year, 4) + PrefixZero(d.month, 2) + PrefixZero(d.day, 2)
  }

  function ParseDate(s: string): Date
    requires |s| == 8
  {
    Date(DigitsValue(s[..4], 0), DigitsValue(s[4..6], 0), DigitsValue(s[6..], 0))
  }

  lemma DateNameReadsBack(d: Date)
    requires ValidDate(d)
    ensures ParseDate(DateName(d)) == d && forall i | 0 <= i < 8 :: IsDigit(DateName(d)[i])
  {
    assert PowerOfTen(2) == 100 && PowerOfTen(4) == 10000;
    var y, m, n := PrefixZero(d.year, 4), PrefixZero(d.month, 2), PrefixZero(d.day, 2);
    PrefixZeroIsDigits(d.year, 4);
    PrefixZeroIsDigits(d.month, 2);
    PrefixZeroIsDigits(d.day, 2);
    hide PrefixZero, DigitsValue;
    assert DateName(d)[..4] == y && DateName(d)[4..6] == m && DateName(d)[6..] == n;
  }

  /** Comparing date folders by name compares the dates. */
  lemma DateNameOrder(a: Date, b: Date)
    requires ValidDate(a) && ValidDate(b)
    ensures StringLess(DateName(a), DateName(b)) <==> DateLess(a, b)
  {
    assert PowerOfTen(2) == 100 && PowerOfTen(4) == 10000;
    PrefixZeroOrder(a.year, b.year, 4);
    PrefixZeroOrder(a.month, b.month, 2);
    PrefixZeroOrder(a.day, b.day, 2);
    PrefixZeroIsDigits(a.year, 4);
    PrefixZeroIsDigits(b.year, 4);
    PrefixZeroIsDigits(a.month, 2);
    PrefixZeroIsDigits(b.month, 2);
    hide PrefixZero, DigitsValue, StringLess;
    PartsCompare(PrefixZero(a.year, 4) + PrefixZero(a.month, 2), PrefixZero(b.year, 4) + PrefixZero(b.month, 2),
                 PrefixZero(a.day, 2), PrefixZero(b.day, 2));
    PartsCompare(PrefixZero(a.year, 4), PrefixZero(b.year, 4), PrefixZero(a.month, 2), PrefixZero(b.month, 2));
    assert (PrefixZero(a.year, 4) + PrefixZero(a.month, 2))[..4] == PrefixZero(a.year, 4);
    assert (PrefixZero(b.year, 4) + PrefixZero(b.month, 2))[..4] == PrefixZero(b.year, 4);
    assert (PrefixZero(a.year, 4) + PrefixZero(a.month, 2))[4..] == PrefixZero(a.month, 2);
    assert (PrefixZero(b.year, 4) + PrefixZero(b.month, 2))[4..] == PrefixZero(b.month, 2);
  }

  /** A recording's start, in local time. */
  datatype Moment = Moment(date: Date, hour: nat, minute: nat, second: nat)

  predicate ValidMoment(t: Moment) {
    ValidDate(t.date) && t.hour < 24 && t.minute < 60 && t.second <= 60
  }

  predicate Earlier(a: Moment, b: Moment) {
    DateLess(a.date, b.date) || (a.date == b.date && (a.hour < b.hour || (a.hour == b.hour &&
      (a.minute < b.minute || (a.minute == b.minute && a.second < b.second)))))
  }

  function HourName(hour: nat): (s: string)
    requires hour < 24
    ensures |s| == 2
  {
    TwoDigits(hour)
  }

  function TwoDigits(n: nat): (s: string)
    requires n < 100
    ensures |s| == 2
  {
    assert PowerOfTen(2) == 100;
    PrefixZero(n, 2)
  }

  /** The file name without its extension. */
  function StemName(t: Moment): (s: string)
    requires ValidMoment(t)
    ensures |s| == 15
  {
    DateName(t.date) + ("_" + (TwoDigits(t.hour) + (TwoDigits(t.minute) + TwoDigits(t.second))))
  }

  lemma TwoDigitsOrder(a: nat, b: nat)
    requires a < 100 && b < 100
    ensures StringLess(TwoDigits(a), TwoDigits(b)) <==> a < b
    ensures TwoDigits(a) == TwoDigits(b) <==> a == b
  {
    assert PowerOfTen(2) == 100;
    PrefixZeroOrder(a, b, 2);
    PrefixZeroIsDigits(a, 2);
    PrefixZeroIsDigits(b, 2);
  }

  /** Name order is chronological: for hour folders within a date, and for file stems everywhere. */
  lemma NamesAreChronological(a: Moment, b: Moment)
    requires ValidMoment(a) && ValidMoment(b)
    ensures StringLess(StemName(a), StemName(b)) <==> Earlier(a, b)
    ensures StringLess(HourName(a.hour), HourName(b.hour)) <==> a.hour < b.hour
  {
    TwoDigitsOrder(a.hour, b.hour);
    TwoDigitsOrder(a.minute, b.minute);
    TwoDigitsOrder(a.second, b.second);
    DateNameOrder(a.date, b.date);
    DateNameReadsBack(a.date);
    DateNameReadsBack(b.date);
    hide StringLess, DateName, TwoDigits, DateLess, ParseDate;
    var a1, b1 := TwoDigits(a.minute) + TwoDigits(a.second), TwoDigits(b.minute) + TwoDigits(b.second);
    var a2, b2 := TwoDigits(a.hour) + a1, TwoDigits(b.hour) + b1;
    PartsCompare(TwoDigits(a.minute), TwoDigits(b.minute), TwoDigits(a.second), TwoDigits(b.second));
    PartsCompare(TwoDigits(a.hour), TwoDigits(b.hour), a1, b1);
    PartsCompare("_", "_", a2, b2);
    StringLessIsTotalOrder();
    PartsCompare(DateName(a.date), DateName(b.date), "_" + a2, "_" + b2);
  }
}
