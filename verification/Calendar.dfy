/** The proleptic Gregorian calendar: days counted from 0001-01-01, which is day 0. */
module Calendar {

  datatype Date = Date(year: int, month: int, day: int)

  predicate IsLeap(y: int) {
    y % 4 == 0 && (y % 100 != 0 || y % 400 == 0)
  }

  function DaysInMonth(y: int, m: int): (n: nat)
    requires 1 <= m <= 12
    ensures 28 <= n <= 31
  {
    if m == 2 then (if IsLeap(y) then 29 else 28)
    else if m == 4 || m == 6 || m == 9 || m == 11 then 30
    else 31
  }

  function DaysInYear(y: int): (n: nat) {
    if IsLeap(y) then 366 else 365
  }

  function DaysBeforeYear(y: int): (n: nat)
    requires 1 <= y
  {
    var p := y - 1;
    365 * p + p / 4 - p / 100 + p / 400
  }

  function DaysBeforeMonth(y: int, m: int): (n: nat)
    requires 1 <= m <= 13
  {
    if m == 1 then 0 else DaysBeforeMonth(y, m - 1) + DaysInMonth(y, m - 1)
  }

  /** The days before each month, with the leap day before March and all later months. */
  lemma MonthTable(y: int)
    ensures var leap := if y % 4 == 0 && (y % 100 != 0 || y % 400 == 0) then 1 else 0;
            && DaysBeforeMonth(y, 1) == 0 && DaysBeforeMonth(y, 2) == 31
            && DaysBeforeMonth(y, 3) == 59 + leap && DaysBeforeMonth(y, 4) == 90 + leap
            && DaysBeforeMonth(y, 5) == 120 + leap && DaysBeforeMonth(y, 6) == 151 + leap
            && DaysBeforeMonth(y, 7) == 181 + leap && DaysBeforeMonth(y, 8) == 212 + leap
            && DaysBeforeMonth(y, 9) == 243 + leap && DaysBeforeMonth(y, 10) == 273 + leap
            && DaysBeforeMonth(y, 11) == 304 + leap && DaysBeforeMonth(y, 12) == 334 + leap
            && DaysBeforeMonth(y, 13) == 365 + leap
  {
    var m2 := DaysBeforeMonth(y, 3);
    assert DaysBeforeMonth(y, 2) == 31;
    assert m2 == 31 + DaysInMonth(y, 2);
    assert DaysBeforeMonth(y, 4) == m2 + 31 && DaysBeforeMonth(y, 5) == m2 + 61;
    assert DaysBeforeMonth(y, 6) == m2 + 92 && DaysBeforeMonth(y, 7) == m2 + 122;
    assert DaysBeforeMonth(y, 8) == m2 + 153 && DaysBeforeMonth(y, 9) == m2 + 184;
    assert DaysBeforeMonth(y, 10) == m2 + 214 && DaysBeforeMonth(y, 11) == m2 + 245;
    assert DaysBeforeMonth(y, 12) == m2 + 275 && DaysBeforeMonth(y, 13) == m2 + 306;
  }

  /** Day 0 is 0001-01-01, and every year follows the one before. */
  lemma YearTable(y: int)
    requires 1 <= y
    ensures DaysBeforeYear(1) == 0
    ensures DaysBeforeYear(y + 1)
         == DaysBeforeYear(y) + if y % 4 == 0 && (y % 100 != 0 || y % 400 == 0) then 366 else 365
  {
    NextYear(y);
  }

  predicate IsDate(d: Date) {
    1 <= d.year && 1 <= d.month <= 12 && 1 <= d.day <= DaysInMonth(d.year, d.month)
  }

  function DayNumber(d: Date): (n: nat)
    requires IsDate(d)
  {
    DaysBeforeYear(d.year) + DaysBeforeMonth(d.year, d.month) + d.day - 1
  }

  lemma NextYear(y: int)
    requires 1 <= y
    ensures DaysBeforeYear(y + 1) == DaysBeforeYear(y) + DaysInYear(y)
  {
    var p := y - 1;
    assert DaysBeforeYear(y + 1) == 365 * y + y / 4 - y / 100 + y / 400;
    Multiples(y);
    if y % 4 != 0 {
      assert y / 4 == p / 4 && y / 100 == p / 100 && y / 400 == p / 400 by {
        NotAMultiple(y, 4);
        NotAMultiple(y, 100);
        NotAMultiple(y, 400);
      }
    } else if y % 100 != 0 {
      assert y / 4 == p / 4 + 1 && y / 100 == p / 100 && y / 400 == p / 400 by {
        AMultiple(y, 4);
        NotAMultiple(y, 100);
        NotAMultiple(y, 400);
      }
    } else if y % 400 != 0 {
      assert y / 4 == p / 4 + 1 && y / 100 == p / 100 + 1 && y / 400 == p / 400 by {
        AMultiple(y, 4);
        AMultiple(y, 100);
        NotAMultiple(y, 400);
      }
    } else {
      assert y / 4 == p / 4 + 1 && y / 100 == p / 100 + 1 && y / 400 == p / 400 + 1 by {
        AMultiple(y, 4);
        AMultiple(y, 100);
        AMultiple(y, 400);
      }
    }
  }

  lemma AMultiple(y: int, k: int)
    requires 1 <= y && (k == 4 || k == 100 || k == 400) && y % k == 0
    ensures y / k == (y - 1) / k + 1
  {
  }

  lemma NotAMultiple(y: int, k: int)
    requires 1 <= y && (k == 4 || k == 100 || k == 400) && y % k != 0
    ensures y / k == (y - 1) / k
  {
  }

  lemma Multiples(y: int)
    ensures y % 400 == 0 ==> y % 100 == 0
    ensures y % 100 == 0 ==> y % 4 == 0
  {
    Divides(y, 100, 400);
    Divides(y, 4, 100);
  }

  lemma Divides(y: int, k: int, l: int)
    requires (k == 100 && l == 400) || (k == 4 && l == 100)
    ensures y % l == 0 ==> y % k == 0
  {
  }

  lemma WholeYear(y: int)
    ensures DaysBeforeMonth(y, 13) == DaysInYear(y)
  {
    var m2 := DaysBeforeMonth(y, 3);
    assert DaysBeforeMonth(y, 2) == 31;
    assert m2 == 31 + DaysInMonth(y, 2);
    assert DaysBeforeMonth(y, 5) == m2 + 61;
    assert DaysBeforeMonth(y, 7) == m2 + 122;
    assert DaysBeforeMonth(y, 9) == m2 + 184;
    assert DaysBeforeMonth(y, 11) == m2 + 245;
    assert DaysBeforeMonth(y, 13) == m2 + 306;
  }

  lemma {:induction false} YearsGrow(y: int, z: int)
    requires 1 <= y <= z
    ensures DaysBeforeYear(y) + (z - y) <= DaysBeforeYear(z)
    decreases z - y
  {
    if y == z {
    } else {
      NextYear(z - 1);
      YearsGrow(y, z - 1);
    }
  }

  lemma {:induction false} MonthsGrow(y: int, m: int, k: int)
    requires 1 <= m < k <= 13
    ensures DaysBeforeMonth(y, m) + DaysInMonth(y, m) <= DaysBeforeMonth(y, k)
    decreases k - m
  {
    if m + 1 < k {
      MonthsGrow(y, m, k - 1);
    }
  }

  /** The year of day n, searched for from year y on. */
  function YearOf(n: nat, y: int): (r: int)
    requires 1 <= y && DaysBeforeYear(y) <= n
    ensures y <= r && DaysBeforeYear(r) <= n < DaysBeforeYear(r + 1)
    decreases n - DaysBeforeYear(y)
  {
    NextYear(y);
    if n < DaysBeforeYear(y + 1) then y else YearOf(n, y + 1)
  }

  function MonthOf(n: nat, y: int, m: int): (r: int)
    requires 1 <= m <= 12 && DaysBeforeMonth(y, m) <= n < DaysBeforeMonth(y, 13)
    ensures 1 <= r <= 12 && DaysBeforeMonth(y, r) <= n < DaysBeforeMonth(y, r + 1)
    decreases 12 - m
  {
    if n < DaysBeforeMonth(y, m + 1) then m else MonthOf(n, y, m + 1)
  }

  /** The date of a day. */
  function DateOf(n: nat): (d: Date)
    ensures IsDate(d)
  {
    var y := YearOf(n, 1);
    NextYear(y);
    WholeYear(y);
    var k := n - DaysBeforeYear(y);
    var m := MonthOf(k, y, 1);
    Date(y, m, k - DaysBeforeMonth(y, m) + 1)
  }

  lemma NumberOfDate(n: nat)
    ensures DayNumber(DateOf(n)) == n
  {
  }

  /** Every date is the date of its day, and of no other. */
  lemma DateOfNumber(d: Date)
    requires IsDate(d)
    ensures DateOf(DayNumber(d)) == d
  {
    var e := DateOf(DayNumber(d));
    NumberOfDate(DayNumber(d));
    SameDate(d, e);
  }

  lemma SameDate(d: Date, e: Date)
    requires IsDate(d) && IsDate(e) && DayNumber(d) == DayNumber(e)
    ensures d == e
  {
    DayInYear(d);
    DayInYear(e);
    OneYear(DayNumber(d), d.year, e.year);
    OneMonth(DayNumber(d) - DaysBeforeYear(d.year), d.year, d.month, e.month);
  }

  /** A day lies in one year only. */
  lemma OneYear(n: nat, y: int, z: int)
    requires 1 <= y && DaysBeforeYear(y) <= n < DaysBeforeYear(y + 1)
    requires 1 <= z && DaysBeforeYear(z) <= n < DaysBeforeYear(z + 1)
    ensures y == z
  {
    if y < z {
      YearsGrow(y + 1, z);
    } else if z < y {
      YearsGrow(z + 1, y);
    }
  }

  /** A day of a year lies in one month only. */
  lemma OneMonth(n: nat, y: int, m: int, k: int)
    requires 1 <= m <= 12 && DaysBeforeMonth(y, m) <= n < DaysBeforeMonth(y, m) + DaysInMonth(y, m)
    requires 1 <= k <= 12 && DaysBeforeMonth(y, k) <= n < DaysBeforeMonth(y, k) + DaysInMonth(y, k)
    ensures m == k
  {
    if m < k {
      MonthsGrow(y, m, k);
    } else if k < m {
      MonthsGrow(y, k, m);
    }
  }

  lemma DayInYear(d: Date)
    requires IsDate(d)
    ensures DaysBeforeYear(d.year) <= DayNumber(d) < DaysBeforeYear(d.year + 1)
  {
    NextYear(d.year);
    WholeYear(d.year);
    MonthsGrow(d.year, d.month, 13);
  }
}
