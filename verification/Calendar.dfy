/** The proleptic Gregorian calendar in UTC, as Go's time package computes it. Days are counted from
    0000-01-01; month m is the m-th month after January of year 0. */
module Calendar {
  import opened Decimal

  predicate IsLeap(year: int) {
    year % 4 == 0 && (year % 100 != 0 || year % 400 == 0)
  }

  function DaysIn(m: int): (days: int)
    ensures 28 <= days <= 31
  {
    var k := m % 12;
    if k == 1 then (if IsLeap(m / 12) then 29 else 28)
    else if k == 3 || k == 5 || k == 8 || k == 10 then 30
    else 31
  }

  /** The day number of a month's first day. */
  function MonthStart(m: int): int
    decreases if m < 0 then -m else m
  {
    if m == 0 then 0
    else if m > 0 then MonthStart(m - 1) + DaysIn(m - 1)
    else MonthStart(m + 1) - DaysIn(m)
  }

  lemma MonthLength(m: int)
    ensures MonthStart(m + 1) == MonthStart(m) + DaysIn(m)
  {
  }

  lemma {:induction false} MonthsGrow(m: int, n: int)
    requires m <= n
    ensures MonthStart(m) + 28 * (n - m) <= MonthStart(n)
    decreases n - m
  {
    if m == n {
    } else {
      MonthsGrow(m, n - 1);
      MonthLength(n - 1);
    }
  }

  ghost predicate InMonth(m: int, day: int) {
    MonthStart(m) <= day < MonthStart(m + 1)
  }

  function MonthFrom(day: int, m: int): int
    requires MonthStart(m) <= day
    decreases day - MonthStart(m)
  {
    MonthLength(m);
    if day < MonthStart(m + 1) then m else MonthFrom(day, m + 1)
  }

  lemma {:induction false} MonthFromContains(day: int, m: int)
    requires MonthStart(m) <= day
    ensures InMonth(MonthFrom(day, m), day)
    decreases day - MonthStart(m)
  {
    MonthLength(m);
    if day >= MonthStart(m + 1) {
      MonthFromContains(day, m + 1);
    }
  }

  /** The month a day falls in. */
  function MonthOf(day: int): int {
    if day >= 0 then MonthFrom(day, 0)
    else
      MonthsGrow(day, 0);
      MonthFrom(day, day)
  }

  lemma MonthOfContains(day: int)
    ensures InMonth(MonthOf(day), day)
  {
    if day < 0 {
      MonthsGrow(day, 0);
    }
    MonthFromContains(day, if day < 0 then day else 0);
  }

  /** t.AddDate(0, -1, 0) for an instant in days: same day of the month and time of day one month earlier, where a
      day past that month's end runs over into the next month. */
  function MonthEarlier(t: real): real {
    var day := t.Floor;
    var m := MonthOf(day);
    (MonthStart(m - 1) + (day - MonthStart(m))) as real + (t - day as real)
  }

  /** Going back one month moves by exactly the length of the previous calendar month, overflow included. */
  lemma MonthEarlierLength(t: real)
    ensures t - MonthEarlier(t) == DaysIn(MonthOf(t.Floor) - 1) as real
    ensures 28.0 <= t - MonthEarlier(t) <= 31.0
  {
    MonthLength(MonthOf(t.Floor) - 1);
  }

  // ---- civil dates ----

  const DAYS_BEFORE := [0, 31, 59, 90, 120, 151, 181, 212, 243, 273, 304, 334]

  /** The number of a civil date, in closed form: k is the month of the year from 0, d the day of the month from 1. */
  function DayNumber(y: nat, k: nat, d: int): int
    requires k < 12
  {
    365 * y + (y + 3) / 4 - (y + 99) / 100 + (y + 399) / 400 + DAYS_BEFORE[k]
    + (if k >= 2 && y % 4 == 0 && (y % 100 != 0 || y % 400 == 0) then 1 else 0) + d - 1
  }

  /** How many days a month has: the distance of its first day from that of the next one. */
  function MonthDays(y: nat, k: nat): int
    requires k < 12
  {
    if k < 11 then DayNumber(y, k + 1, 1) - DayNumber(y, k, 1) else DayNumber(y + 1, 0, 1) - DayNumber(y, 11, 1)
  }

  lemma MonthOfYear(y: nat, k: nat)
    requires k < 12
    ensures (12 * y + k) % 12 == k && (12 * y + k) / 12 == y
  {
  }

  lemma MultipleWithin(n: nat, z: int)
    requires 0 - n < n * z < n
    ensures z == 0
  {
  }

  lemma QuotientIs(q: int, r: nat, n: nat)
    requires r < n
    ensures (n * q + r) / n == q
  {
    var x := (n * q + r) / n;
    assert n * (x - q) == n * x - n * q == r - (n * q + r) % n;
    MultipleWithin(n, x - q);
  }

  lemma QuotientStep(y: nat, n: nat)
    requires n > 0
    ensures (y + n) / n == (y + n - 1) / n + if y % n == 0 then 1 else 0
  {
    var q, r := y / n, y % n;
    assert y == n * q + r;
    assert n * (q + 1) == n * q + n;
    QuotientIs(q + 1, r, n);
    if r == 0 {
      QuotientIs(q, n - 1, n);
    } else {
      QuotientIs(q + 1, r - 1, n);
    }
  }

  /** What divides by a multiple divides by the number. */
  lemma Divides(y: nat, n: nat, k: nat)
    requires n > 0 && k > 0 && y % (n * k) == 0
    ensures y % n == 0
  {
    var q := y / (n * k);
    assert y == (n * k) * q == n * (k * q) + 0;
    QuotientIs(k * q, 0, n);
  }

  /** A year is as long as its twelve months. */
  lemma NewYear(y: nat)
    ensures DayNumber(y + 1, 0, 1) == DayNumber(y, 11, 1) + 31
  {
    QuotientStep(y, 4);
    QuotientStep(y, 100);
    QuotientStep(y, 400);
    if y % 100 == 0 { Divides(y, 4, 25); }
    if y % 400 == 0 { Divides(y, 100, 4); }
  }

  lemma NextMonth(y: nat, k: nat)
    requires k < 11
    ensures DayNumber(y, k + 1, 1) == DayNumber(y, k, 1) + DaysIn(12 * y + k)
  {
    MonthOfYear(y, k);
  }

  lemma MonthDaysIs(y: nat, k: nat)
    requires k < 12
    ensures MonthDays(y, k) == DaysIn(12 * y + k)
  {
    if k < 11 {
      NextMonth(y, k);
    } else {
      NewYear(y);
      MonthOfYear(y, k);
    }
  }

  /** Counting month by month gives the closed form. */
  lemma {:induction false} MonthStartIs(y: nat, k: nat)
    requires k < 12
    ensures MonthStart(12 * y + k) == DayNumber(y, k, 1)
    decreases y, k
  {
    if k > 0 {
      MonthStartIs(y, k - 1);
      MonthLength(12 * y + k - 1);
      NextMonth(y, k - 1);
    } else if y > 0 {
      MonthStartIs(y - 1, 11);
      MonthLength(12 * (y - 1) + 11);
      MonthDaysIs(y - 1, 11);
    }
  }

  /** Thirty days has September, and so on. */
  lemma MonthTable(y: nat, k: nat)
    requires k < 12
    ensures MonthDays(y, k) == [31, if y % 4 == 0 && (y % 100 != 0 || y % 400 == 0) then 29 else 28,
                                31, 30, 31, 30, 31, 31, 30, 31, 30, 31][k]
  {
    MonthDaysIs(y, k);
    MonthOfYear(y, k);
  }

  lemma MonthUnique(m: int, n: int, day: int)
    requires InMonth(m, day) && InMonth(n, day)
    ensures m == n
  {
    if m < n { MonthsGrow(m + 1, n); }
    if n < m { MonthsGrow(n + 1, m); }
  }

  lemma MonthOfDate(y: nat, k: nat, d: int)
    requires k < 12 && 1 <= d <= MonthDays(y, k)
    ensures MonthOf(DayNumber(y, k, d)) == 12 * y + k && MonthStart(12 * y + k) == DayNumber(y, k, d) - d + 1
  {
    var day := DayNumber(y, k, d);
    MonthStartIs(y, k);
    MonthDaysIs(y, k);
    MonthLength(12 * y + k);
    MonthOfContains(day);
    MonthUnique(MonthOf(day), 12 * y + k, day);
  }

  lemma DayOfMonth(y: nat, k: nat, d: int)
    requires k < 12
    ensures DayNumber(y, k, d) == MonthStart(12 * y + k) + d - 1
  {
    MonthStartIs(y, k);
  }

  /** One month before the d-th of a month, at the same time of day, is the d-th of the month before if there is one;
      otherwise the days that are missing there are counted on into the month itself. */
  lemma MonthEarlierIs(t: real, y: nat, k: nat, d: int)
    requires k < 12 && 1 <= d <= MonthDays(y, k) && t.Floor == DayNumber(y, k, d) && (y > 0 || k > 0)
    ensures var (py, pk) := if k > 0 then (y, k - 1) else (y - 1, 11);
            MonthEarlier(t)
            == (if d <= MonthDays(py, pk) then DayNumber(py, pk, d)
                else DayNumber(y, k, d - MonthDays(py, pk))) as real + (t - t.Floor as real)
            && MonthEarlier(t) == t - MonthDays(py, pk) as real
  {
    var (py, pk) := if k > 0 then (y, k - 1) else (y - 1, 11);
    MonthOfDate(y, k, d);
    MonthEarlierLength(t);
    MonthDaysIs(py, pk);
    DayOfMonth(py, pk, d);
    DayOfMonth(y, k, d - MonthDays(py, pk));
  }

  // ---- hour stamps ----

  function Two(n: nat): string
    requires n < 100
  {
    [DigitChar(n / 10), DigitChar(n % 10)]
  }

  /** Format "20060102T15" of a whole UTC hour, counted from 0000-01-01. */
  function HourStamp(hour: nat): string {
    var day := hour / 24;
    var m := MonthOf(day);
    MonthOfContains(day);
    MonthNonNegative(day);
    MonthLength(m);
    Pad(Itoa(m / 12), 4) + (Two(m % 12 + 1) + (Two(day - MonthStart(m) + 1) + ("T" + Two(hour % 24))))
  }

  lemma MonthNonNegative(day: nat)
    ensures MonthOf(day) >= 0
  {
    MonthOfContains(day);
    if MonthOf(day) < 0 { MonthsGrow(MonthOf(day) + 1, 0); }
  }

  lemma TwoInjective(a: nat, b: nat)
    requires a < 100 && b < 100 && Two(a) == Two(b)
    ensures a == b
  {
    assert Two(a)[0] == Two(b)[0] && Two(a)[1] == Two(b)[1];
  }

  lemma YearDigits(y: nat)
    ensures AllDigits(Pad(Itoa(y), 4)) && Value(Pad(Itoa(y), 4)) == y
  {
    ValueOfItoa(y);
    ValueOfPad(Itoa(y), 4);
  }

  /** A stamp contains no dash. */
  lemma StampHasNoDash(hour: nat)
    ensures '-' !in HourStamp(hour)
  {
    var m := MonthOf(hour / 24);
    MonthOfContains(hour / 24);
    MonthLength(m);
    MonthNonNegative(hour / 24);
    YearDigits(m / 12);
  }

  lemma SplitAt(a: string, b: string, c: string, d: string)
    requires a + b == c + d && (|a| == |c| || |b| == |d|)
    ensures a == c && b == d
  {
    assert a == (a + b)[..|a|] && c == (c + d)[..|c|];
    assert b == (a + b)[|a|..] && d == (c + d)[|c|..];
  }

  /** The year and month, the day of the month, and the hour that a stamp prints. */
  function Parts(hour: nat): (r: (nat, nat, nat))
    ensures 1 <= r.1 <= 31
  {
    var day := hour / 24;
    MonthOfContains(day);
    MonthNonNegative(day);
    MonthLength(MonthOf(day));
    (MonthOf(day), day - MonthStart(MonthOf(day)) + 1, hour % 24)
  }

  lemma StampOfParts(hour: nat)
    ensures var (m, d, h) := Parts(hour);
            && h < 24 && hour == 24 * (MonthStart(m) + d - 1) + h
            && HourStamp(hour) == Pad(Itoa(m / 12), 4) + (Two(m % 12 + 1) + (Two(d) + ("T" + Two(h))))
  {
  }

  lemma DateNumbered(y: nat, k: nat, d: nat)
    requires k < 12 && 1 <= d <= MonthDays(y, k)
    ensures d <= 31 && DayNumber(y, k, d) >= 0
  {
    MonthDaysIs(y, k);
    MonthOfDate(y, k, d);
    MonthsGrow(0, 12 * y + k);
  }

  lemma StampFromParts(hour: nat, m: nat, y: nat, k: nat, d: nat, h: nat)
    requires h < 24 && hour == 24 * (MonthStart(m) + d - 1) + h
    requires MonthOf(MonthStart(m) + d - 1) == m && d < 100 && m / 12 == y && m % 12 == k
    ensures HourStamp(hour) == Pad(Itoa(y), 4) + (Two(k + 1) + (Two(d) + ("T" + Two(h))))
  {
    assert hour / 24 == MonthStart(m) + d - 1 && hour % 24 == h;
    StampOfParts(hour);
  }

  /** The stamp of an hour prints its civil date. */
  lemma StampOfCivil(y: nat, k: nat, d: nat, h: nat)
    requires k < 12 && 1 <= d <= MonthDays(y, k) && h < 24
    ensures d < 100 && DayNumber(y, k, d) >= 0
    ensures HourStamp(24 * DayNumber(y, k, d) + h)
            == Pad(Itoa(y), 4) + (Two(k + 1) + (Two(d) + ("T" + Two(h))))
  {
    DateNumbered(y, k, d);
    var hour := 24 * DayNumber(y, k, d) + h;
    MonthOfDate(y, k, d);
    MonthOfYear(y, k);
    StampFromParts(hour, 12 * y + k, y, k, d, h);
  }

  lemma PartsInjective(m1: nat, d1: nat, h1: nat, m2: nat, d2: nat, h2: nat)
    requires d1 < 100 && d2 < 100 && h1 < 24 && h2 < 24
    requires Pad(Itoa(m1 / 12), 4) + (Two(m1 % 12 + 1) + (Two(d1) + ("T" + Two(h1))))
             == Pad(Itoa(m2 / 12), 4) + (Two(m2 % 12 + 1) + (Two(d2) + ("T" + Two(h2))))
    ensures m1 == m2 && d1 == d2 && h1 == h2
  {
    var y1, y2 := Pad(Itoa(m1 / 12), 4), Pad(Itoa(m2 / 12), 4);
    var t1, t2 := "T" + Two(h1), "T" + Two(h2);
    SplitAt(y1, Two(m1 % 12 + 1) + (Two(d1) + t1), y2, Two(m2 % 12 + 1) + (Two(d2) + t2));
    SplitAt(Two(m1 % 12 + 1), Two(d1) + t1, Two(m2 % 12 + 1), Two(d2) + t2);
    SplitAt(Two(d1), t1, Two(d2), t2);
    SplitAt("T", Two(h1), "T", Two(h2));
    YearDigits(m1 / 12);
    YearDigits(m2 / 12);
    TwoInjective(m1 % 12 + 1, m2 % 12 + 1);
    TwoInjective(d1, d2);
    TwoInjective(h1, h2);
  }

  /** Distinct hours have distinct stamps. */
  lemma StampInjective(hour1: nat, hour2: nat)
    requires HourStamp(hour1) == HourStamp(hour2)
    ensures hour1 == hour2
  {
    StampOfParts(hour1);
    StampOfParts(hour2);
    var (m1, d1, h1) := Parts(hour1);
    var (m2, d2, h2) := Parts(hour2);
    PartsInjective(m1, d1, h1, m2, d2, h2);
  }
}
