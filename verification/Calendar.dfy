/** Calendar dates and months as ontology_core/temporal.py and ontology_core/authored_sql.py use them. */
module Calendar {
  predicate IsLeap(year: nat) {
    (year % 4 == 0 && year % 100 != 0) || year % 400 == 0
  }

  function DaysIn(year: nat, month: nat): nat {
    if month == 2 then (if IsLeap(year) then 29 else 28)
    else if month in {4, 6, 9, 11} then 30 else 31
  }

  datatype Month = Month(year: int, month: int)
  datatype Day = Day(year: int, month: int, day: int)

  predicate ValidMonth(m: Month) {
    1 <= m.year <= 9999 && 1 <= m.month <= 12
  }

  predicate ValidDay(d: Day) {
    1 <= d.year <= 9999 && 1 <= d.month <= 12 && 1 <= d.day <= DaysIn(d.year, d.month)
  }

  function MonthOf(d: Day): Month {
    Month(d.year, d.month)
  }

  /** Position in an unbroken sequence of months. */
  function Index(m: Month): int {
    m.year * 12 + m.month - 1
  }

  /** The order of the eight-digit texts. */
  function Rank(d: Day): int {
    (d.year * 100 + d.month) * 100 + d.day
  }

  predicate MonthLeq(a: Month, b: Month) {
    Index(a) <= Index(b)
  }

  predicate DayLeq(a: Day, b: Day) {
    Rank(a) <= Rank(b)
  }

  /** `_shift_month`: floor division by twelve. */
  function Shift(m: Month, offset: int): (r: Month)
    requires 1 <= m.month <= 12
    ensures 1 <= r.month <= 12 && Index(r) == Index(m) + offset
  {
    var index := m.year * 12 + m.month - 1 + offset;
    Month(index / 12, index % 12 + 1)
  }

  function FirstDay(m: Month): Day {
    Day(m.year, m.month, 1)
  }

  function LastDay(m: Month): Day
    requires ValidMonth(m)
  {
    Day(m.year, m.month, DaysIn(m.year, m.month))
  }

  /** A range of months is exactly its days. */
  lemma MonthsAreTheirDays(first: Month, last: Month, d: Day)
    requires ValidMonth(first) && ValidMonth(last) && ValidDay(d)
    ensures DayLeq(FirstDay(first), d) && DayLeq(d, LastDay(last)) <==>
            MonthLeq(first, MonthOf(d)) && MonthLeq(MonthOf(d), last)
  {
    assert d.day <= 31 && DaysIn(last.year, last.month) <= 31;
    assert DayLeq(FirstDay(first), d) <==> first.year * 100 + first.month <= d.year * 100 + d.month;
    assert first.year * 100 + first.month <= d.year * 100 + d.month <==> MonthLeq(first, MonthOf(d));
    if d.year * 100 + d.month == last.year * 100 + last.month {
      assert d.year == last.year && d.month == last.month;
    }
    assert DayLeq(d, LastDay(last)) <==> d.year * 100 + d.month <= last.year * 100 + last.month;
    assert d.year * 100 + d.month <= last.year * 100 + last.month <==> MonthLeq(MonthOf(d), last);
  }

  predicate IsFirstEver(d: Day) {
    d == Day(1, 1, 1)
  }

  /** One day earlier. */
  function DayBefore(d: Day): (r: Day)
    requires ValidDay(d) && !IsFirstEver(d)
    ensures ValidDay(r)
  {
    if d.day > 1 then Day(d.year, d.month, d.day - 1)
    else if d.month > 1 then Day(d.year, d.month - 1, DaysIn(d.year, d.month - 1))
    else Day(d.year - 1, 12, 31)
  }

  /** Nothing lies between a day and the day before it. */
  lemma DayBeforeIsNext(d: Day, x: Day)
    requires ValidDay(d) && !IsFirstEver(d) && ValidDay(x)
    ensures DayLeq(x, DayBefore(d)) <==> DayLeq(x, d) && x != d
  {
    assert x.day <= 31 && d.day <= 31;
    var p := DayBefore(d);
    if x.year * 100 + x.month == d.year * 100 + d.month {
      assert x.year == d.year && x.month == d.month;
    }
    if x.year * 100 + x.month == p.year * 100 + p.month {
      assert x.year == p.year && x.month == p.month;
    }
  }
}
