/** The Gregorian calendar: day n counted from 1970-01-01, each day followed by its calendar successor. */
module Calendar {
  datatype Date = Date(year: int, month: int, day: int)

  predicate Leap(y: int) {
    y % 4 == 0 && (y % 100 != 0 || y % 400 == 0)
  }

  function MonthLength(y: int, m: int): (n: int)
    requires 1 <= m <= 12
    ensures 28 <= n <= 31
  {
    if m == 2 then (if Leap(y) then 29 else 28)
    else if m == 4 || m == 6 || m == 9 || m == 11 then 30
    else 31
  }

  predicate IsDate(d: Date) {
    1 <= d.month <= 12 && 1 <= d.day <= MonthLength(d.year, d.month)
  }

  function NextDay(d: Date): (r: Date)
    requires IsDate(d)
    ensures IsDate(r)
  {
    if d.day < MonthLength(d.year, d.month) then d.(day := d.day + 1)
    else if d.month < 12 then Date(d.year, d.month + 1, 1)
    else Date(d.year + 1, 1, 1)
  }

  function PreviousDay(d: Date): (r: Date)
    requires IsDate(d)
    ensures IsDate(r) && NextDay(r) == d
  {
    if d.day > 1 then d.(day := d.day - 1)
    else if d.month > 1 then Date(d.year, d.month - 1, MonthLength(d.year, d.month - 1))
    else Date(d.year - 1, 12, 31)
  }

  function DateOf(n: int): (d: Date)
    ensures IsDate(d)
    decreases if n < 0 then -n else n
  {
    if n == 0 then Date(1970, 1, 1)
    else if n > 0 then NextDay(DateOf(n - 1))
    else PreviousDay(DateOf(n + 1))
  }

  /** 0 is Sunday; 1970-01-01 was a Thursday. */
  function Weekday(n: int): (w: int)
    ensures 0 <= w < 7
  {
    (n + 4) % 7
  }

  /** The first day was a Thursday, and weekdays follow each other round. */
  lemma WeekdaysGoRound(n: int)
    ensures Weekday(0) == 4 && Weekday(n + 1) == if Weekday(n) == 6 then 0 else Weekday(n) + 1
  {
  }

  /** The first day was the 1st of January 1970, and each date is followed by its calendar successor. */
  lemma DatesFollow(n: int)
    ensures DateOf(0) == Date(1970, 1, 1) && DateOf(n + 1) == NextDay(DateOf(n))
  {
  }

  lemma Successor(n: int)
    ensures DateOf(n + 1) == NextDay(DateOf(n))
  {
  }

  // ---------------------------------------------------------------------
  // Days within a year
  // ---------------------------------------------------------------------

  function DaysBefore(y: int, m: int): (n: nat)
    requires 1 <= m <= 12
  {
    if m == 1 then 0 else DaysBefore(y, m - 1) + MonthLength(y, m - 1)
  }

  function YearLength(y: int): int {
    if Leap(y) then 366 else 365
  }

  /** 0 on the first of January. */
  function DayOfYear(d: Date): (n: nat)
    requires IsDate(d)
  {
    DaysBefore(d.year, d.month) + d.day - 1
  }

  lemma DaysBeforeTable(y: int, m: int)
    requires 1 <= m <= 12
    ensures DaysBefore(y, m) == [0, 31, 59, 90, 120, 151, 181, 212, 243, 273, 304, 334][m - 1] + if m > 2 && Leap(y) then 1 else 0
  {
    if m > 1 {
      DaysBeforeTable(y, m - 1);
    }
  }

  lemma NextDayOfYear(d: Date)
    requires IsDate(d)
    ensures DayOfYear(d) < YearLength(d.year)
    ensures DayOfYear(d) + 1 < YearLength(d.year) ==>
              NextDay(d).year == d.year && DayOfYear(NextDay(d)) == DayOfYear(d) + 1
    ensures DayOfYear(d) + 1 == YearLength(d.year) ==> NextDay(d) == Date(d.year + 1, 1, 1)
  {
    DaysBeforeTable(d.year, d.month);
    if d.month < 12 { DaysBeforeTable(d.year, d.month + 1); }
  }

  /** The day of the year determines the date. */
  lemma DayOfYearUnique(d: Date, e: Date)
    requires IsDate(d) && IsDate(e) && d.year == e.year && DayOfYear(d) == DayOfYear(e)
    ensures d == e
  {
    DaysBeforeTable(d.year, d.month);
    DaysBeforeTable(e.year, e.month);
  }

  lemma {:induction false} WithinYear(n: int, k: nat)
    requires DayOfYear(DateOf(n)) + k < YearLength(DateOf(n).year)
    ensures DateOf(n + k).year == DateOf(n).year && DayOfYear(DateOf(n + k)) == DayOfYear(DateOf(n)) + k
  {
    hide DateOf, NextDay, DayOfYear;
    if k > 0 {
      WithinYear(n, k - 1);
      Successor(n + k - 1);
      NextDayOfYear(DateOf(n + k - 1));
    }
  }

  lemma NewYear(n: int) returns (k: nat)
    ensures k == YearLength(DateOf(n).year) - DayOfYear(DateOf(n)) && k >= 1
    ensures DateOf(n + k) == Date(DateOf(n).year + 1, 1, 1)
  {
    hide DateOf, NextDay, DayOfYear;
    NextDayOfYear(DateOf(n));
    k := YearLength(DateOf(n).year) - DayOfYear(DateOf(n));
    WithinYear(n, k - 1);
    Successor(n + k - 1);
    NextDayOfYear(DateOf(n + k - 1));
  }

  // ---------------------------------------------------------------------
  // When a date comes round again
  // ---------------------------------------------------------------------

  /** The date exists in every year. */
  predicate CommonDate(m: int, d: int) {
    1 <= m <= 12 && 1 <= d <= MonthLength(1970, m)
  }

  predicate Falls(n: int, m: int, d: int) {
    DateOf(n).month == m && DateOf(n).day == d
  }

  /** A date that exists in every year comes within the 366 days from any day on. */
  lemma ComesWithinAYear(n: int, m: int, d: int) returns (k: nat)
    requires CommonDate(m, d)
    ensures k <= 365 && Falls(n + k, m, d)
  {
    hide DateOf, NextDay, DaysBefore;
    var y, from := DateOf(n).year, DayOfYear(DateOf(n));
    var here, there := DayOfYear(Date(y, m, d)), DayOfYear(Date(y + 1, m, d));
    DaysBeforeTable(y, m);
    DaysBeforeTable(y + 1, m);
    NextDayOfYear(DateOf(n));
    NextDayOfYear(Date(y, m, d));
    NextDayOfYear(Date(y + 1, m, d));
    if from <= here {
      k := here - from;
      WithinYear(n, k);
      DayOfYearUnique(DateOf(n + k), Date(y, m, d));
    } else {
      var j := NewYear(n);
      k := j + there;
      DaysBeforeTable(y + 1, 1);
      WithinYear(n + j, there);
      DayOfYearUnique(DateOf(n + k), Date(y + 1, m, d));
    }
  }

  /** 1972 is a leap year; this is its first day. */
  lemma LeapYearStart() returns (n: int)
    ensures DateOf(n) == Date(1972, 1, 1)
  {
    n := 0;
    assert DateOf(n) == Date(1970, 1, 1);
    hide DateOf, NextDay;
    var j := NewYear(n);
    var k := NewYear(n + j);
    n := n + j + k;
  }

  lemma OrdinalIn1972(n: int, k: nat)
    requires DateOf(n) == Date(1972, 1, 1) && k < 366
    ensures DateOf(n + k).year == 1972 && DayOfYear(DateOf(n + k)) == k
  {
    hide DateOf, NextDay;
    WithinYear(n, k);
  }

  lemma NewYear1973(n: int)
    requires DateOf(n) == Date(1972, 1, 1)
    ensures DateOf(n + 366) == Date(1973, 1, 1)
  {
    hide DateOf, NextDay;
    var j := NewYear(n);
  }

  /** From 1972-03-01 on, 366 days pass without a 29th of February. */
  lemma NoLeapDay(n: int, k: nat)
    requires DateOf(n) == Date(1972, 1, 1) && k < 366
    ensures CommonDate(DateOf(n + 60 + k).month, DateOf(n + 60 + k).day)
  {
    hide DateOf, NextDay, DaysBefore;
    var d := DateOf(n + 60 + k);
    if k < 306 {
      OrdinalIn1972(n, 60 + k);
      DaysBeforeTable(1972, d.month);
    } else {
      NewYear1973(n);
      DaysBeforeTable(1973, 1);
      WithinYear(n + 366, k - 306);
      assert n + 366 + (k - 306) == n + 60 + k;
    }
  }

  /** From 1972-01-01, the first of January comes round after 366 days and not before. */
  lemma LeapYearGap(n: int, k: nat)
    requires DateOf(n) == Date(1972, 1, 1) && k <= 366
    ensures Falls(n + k, 1, 1) <==> k == 0 || k == 366
  {
    hide DateOf, NextDay;
    if k < 366 {
      OrdinalIn1972(n, k);
    } else {
      NewYear1973(n);
    }
  }

  // ---------------------------------------------------------------------
  // The 400-year cycle
  // ---------------------------------------------------------------------

  /** The days of 400 years, a whole number of weeks. */
  const CYCLE := 146097

  /** The days before the first of January of year y, up to a constant. */
  function YearStart(y: int): int {
    365 * y + (y - 1) / 4 - (y - 1) / 100 + (y - 1) / 400
  }

  lemma OneMoreOf4(y: int)
    ensures y / 4 == (y - 1) / 4 + if y % 4 == 0 then 1 else 0
  {
  }

  lemma OneMoreOf100(y: int)
    ensures y / 100 == (y - 1) / 100 + if y % 100 == 0 then 1 else 0
  {
  }

  lemma OneMoreOf400(y: int)
    ensures y / 400 == (y - 1) / 400 + if y % 400 == 0 then 1 else 0
  {
  }

  lemma MultiplesOf400(y: int)
    ensures y % 400 == 0 ==> y % 100 == 0
    ensures y % 100 == 0 ==> y % 4 == 0
  {
  }

  lemma YearStartStep(y: int)
    ensures YearStart(y + 1) == YearStart(y) + YearLength(y)
  {
    OneMoreOf4(y);
    OneMoreOf100(y);
    OneMoreOf400(y);
    MultiplesOf400(y);
  }

  lemma {:induction false} NewYears(y: int)
    requires y >= 1970
    ensures DateOf(YearStart(y) - YearStart(1970)) == Date(y, 1, 1)
  {
    hide DateOf, NextDay, YearStart, YearLength;
    if y == 1970 {
      assert DateOf(0) == Date(1970, 1, 1) by { EpochDay(); }
    } else {
      NewYears(y - 1);
      var n := YearStart(y - 1) - YearStart(1970);
      YearStartStep(y - 1);
      var k := NewYear(n);
    }
  }

  lemma EpochDay()
    ensures DateOf(0) == Date(1970, 1, 1)
  {
  }

  function Later(d: Date): Date {
    d.(year := d.year + 400)
  }

  lemma LeapLater(y: int)
    ensures Leap(y + 400) == Leap(y)
  {
    assert (y + 400) % 4 == y % 4 && (y + 400) % 100 == y % 100 && (y + 400) % 400 == y % 400;
  }

  lemma NextDayLater(d: Date)
    requires IsDate(d)
    ensures IsDate(Later(d)) && NextDay(Later(d)) == Later(NextDay(d))
  {
    LeapLater(d.year);
    hide Leap;
  }

  lemma NextDayUnique(d: Date, e: Date)
    requires IsDate(d) && IsDate(e) && NextDay(d) == NextDay(e)
    ensures d == e
  {
    hide Leap;
  }

  lemma CycleOfWeeks(n: int)
    ensures Weekday(n + CYCLE) == Weekday(n)
  {
  }

  lemma CycleLength()
    ensures YearStart(2370) - YearStart(1970) == CYCLE
  {
  }

  /** The calendar comes round after 400 years, weekdays included. */
  lemma {:induction false} CycleOfDates(n: int)
    ensures DateOf(n + CYCLE) == Later(DateOf(n)) && Weekday(n + CYCLE) == Weekday(n)
    decreases if n < 0 then -n else n
  {
    CycleOfWeeks(n);
    hide DateOf, NextDay, IsDate, Weekday, YearStart;
    if n == 0 {
      EpochDay();
      NewYears(2370);
      CycleLength();
    } else if n > 0 {
      CycleOfDates(n - 1);
      Successor(n - 1);
      Successor(n - 1 + CYCLE);
      NextDayLater(DateOf(n - 1));
    } else {
      CycleOfDates(n + 1);
      Successor(n);
      Successor(n + CYCLE);
      NextDayLater(DateOf(n));
      NextDayUnique(DateOf(n + CYCLE), Later(DateOf(n)));
    }
  }

  lemma {:induction false} CyclesOfDates(n: int, q: int)
    ensures DateOf(n + q * CYCLE).month == DateOf(n).month && DateOf(n + q * CYCLE).day == DateOf(n).day
    ensures Weekday(n + q * CYCLE) == Weekday(n)
    decreases if q < 0 then -q else q
  {
    hide DateOf, Weekday;
    if q > 0 {
      CyclesOfDates(n, q - 1);
      CycleOfDates(n + (q - 1) * CYCLE);
    } else if q < 0 {
      CyclesOfDates(n, q + 1);
      CycleOfDates(n + q * CYCLE);
    }
  }
}
