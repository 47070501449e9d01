/** UTC time as whole seconds since 1 January 2000, with the Gregorian months that
    usage periods are made of.  Months are numbered from January 2000. */
module Calendar {

  const SECONDS_PER_DAY: nat := 86400

  predicate IsLeap(year: nat) {
    year % 4 == 0 && (year % 100 != 0 || year % 400 == 0)
  }

  function DaysIn(month: nat): (days: nat)
    ensures 28 <= days <= 31
  {
    var m := month % 12;
    if m == 1 then (if IsLeap(2000 + month / 12) then 29 else 28)
    else if m == 3 || m == 5 || m == 8 || m == 10 then 30
    else 31
  }

  /** The first instant of a month. */
  function MonthStart(month: nat): nat {
    if month == 0 then 0 else MonthStart(month - 1) + SECONDS_PER_DAY * DaysIn(month - 1)
  }

  function MonthFrom(month: nat, t: nat): (r: nat)
    requires MonthStart(month) <= t
    ensures month <= r
    ensures MonthStart(r) <= t < MonthStart(r + 1)
    decreases t - MonthStart(month)
  {
    if t < MonthStart(month + 1) then month else MonthFrom(month + 1, t)
  }

  /** The month an instant falls in. */
  function MonthOf(t: nat): (r: nat)
    ensures MonthStart(r) <= t < MonthStart(r + 1)
  {
    MonthFrom(0, t)
  }

  function FloorHour(t: nat): nat {
    t - t % 3600
  }

  lemma {:induction false} MonthStartIncreases(m: nat, n: nat)
    requires m < n
    ensures MonthStart(m) < MonthStart(n)
    decreases n - m
  {
    if m + 1 < n {
      MonthStartIncreases(m, n - 1);
    }
    assert SECONDS_PER_DAY * DaysIn(n - 1) >= SECONDS_PER_DAY * 28;
  }

  lemma MonthUnique(m: nat, t: nat)
    requires MonthStart(m) <= t < MonthStart(m + 1)
    ensures MonthOf(t) == m
  {
    var r := MonthOf(t);
    if r < m {
      if r + 1 < m { MonthStartIncreases(r + 1, m); }
    } else if m < r {
      if m + 1 < r { MonthStartIncreases(m + 1, r); }
    }
  }

  lemma MonthOfStart(m: nat)
    ensures MonthOf(MonthStart(m)) == m
  {
    MonthStartIncreases(m, m + 1);
    MonthUnique(m, MonthStart(m));
  }

  /** Later instants fall in later or equal months. */
  lemma MonthOfMonotone(s: nat, t: nat)
    requires s <= t
    ensures MonthOf(s) <= MonthOf(t)
  {
    var a, b := MonthOf(s), MonthOf(t);
    if b < a && b + 1 < a {
      MonthStartIncreases(b + 1, a);
    }
  }

  /** The leap days of the first `years` years from 2000, by the Gregorian rule counted out. */
  function LeapDays(years: nat): nat {
    (years + 3) / 4 - (years + 99) / 100 + (years + 399) / 400
  }

  /** Every year starts where it should: 365 days for each before it and its leap days. */
  lemma {:induction false} YearStart(years: nat)
    ensures MonthStart(12 * years) == 86400 * (365 * years + LeapDays(years))
  {
    if years > 0 {
      YearStart(years - 1);
      OneYear(years - 1);
      LeapDaysGrow(years - 1);
    }
  }

  lemma LeapDaysGrow(years: nat)
    ensures LeapDays(years + 1) == LeapDays(years)
            + if (2000 + years) % 4 == 0 && ((2000 + years) % 100 != 0 || (2000 + years) % 400 == 0) then 1 else 0
  {
    Fourth(years);
    Hundredth(years);
    FourHundredth(years);
    Multiples(2000 + years);
  }

  lemma Fourth(n: nat)
    ensures (n + 1 + 3) / 4 == (n + 3) / 4 + if (2000 + n) % 4 == 0 then 1 else 0
  {}

  lemma Hundredth(n: nat)
    ensures (n + 1 + 99) / 100 == (n + 99) / 100 + if (2000 + n) % 100 == 0 then 1 else 0
  {}

  lemma FourHundredth(n: nat)
    ensures (n + 1 + 399) / 400 == (n + 399) / 400 + if (2000 + n) % 400 == 0 then 1 else 0
  {}

  lemma Multiples(year: nat)
    ensures year % 400 == 0 ==> year % 100 == 0
    ensures year % 100 == 0 ==> year % 4 == 0
  {
    if year % 400 == 0 { Hundreds(year / 400 * 4); }
    if year % 100 == 0 { Fours(year / 100 * 25); }
  }

  lemma Hundreds(n: nat)
    ensures 100 * n % 100 == 0
  {}

  lemma Fours(n: nat)
    ensures 4 * n % 4 == 0
  {}

  /** The days of a common year before each of its months. */
  const DAYS_BEFORE: seq<nat> := [0, 31, 59, 90, 120, 151, 181, 212, 243, 273, 304, 334, 365]

  lemma DaysWithin(years: nat, m: nat)
    requires m < 12
    ensures DaysIn(12 * years + m)
            == DAYS_BEFORE[m + 1] - DAYS_BEFORE[m] + if m == 1 && IsLeap(2000 + years) then 1 else 0
  {
    assert (12 * years + m) % 12 == m && (12 * years + m) / 12 == years;
    assert DAYS_BEFORE[m + 1] - DAYS_BEFORE[m] == [31, 28, 31, 30, 31, 30, 31, 31, 30, 31, 30, 31][m];
  }

  /** Every month starts where it should within its year; from March on, a leap day later. */
  lemma {:induction false} MonthWithinYear(years: nat, m: nat)
    requires m <= 12
    ensures MonthStart(12 * years + m)
            == MonthStart(12 * years)
               + 86400 * (DAYS_BEFORE[m] + if m > 1 && IsLeap(2000 + years) then 1 else 0)
  {
    if m > 0 {
      MonthWithinYear(years, m - 1);
      DaysWithin(years, m - 1);
      var days := DaysIn(12 * years + (m - 1));
      assert MonthStart(12 * years + m) == MonthStart(12 * years + (m - 1)) + 86400 * days;
    }
  }

  lemma OneYear(years: nat)
    ensures MonthStart(12 * (years + 1))
            == MonthStart(12 * years) + 86400 * (365 + if IsLeap(2000 + years) then 1 else 0)
  {
    MonthWithinYear(years, 12);
    assert 12 * (years + 1) == 12 * years + 12;
  }

  /** An hour floor is the last whole hour. */
  lemma HourFloor(t: nat)
    ensures FloorHour(t) <= t < FloorHour(t) + 3600
    ensures exists hour: nat :: FloorHour(t) == 3600 * hour
  {
    assert FloorHour(t) == 3600 * (t / 3600);
  }
}
