/** The civil calendar in a zone with a fixed offset. Days are numbered from 1 January of year 1,
    minutes from midnight of that day. */
module Calendar {
  datatype Date = Date(y: nat, m: nat, d: nat)

  predicate Leap(y: nat) {
    y % 4 == 0 && (y % 100 != 0 || y % 400 == 0)
  }

  function MonthLen(y: nat, m: nat): nat
    requires 1 <= m <= 12
  {
    if m == 2 then (if Leap(y) then 29 else 28)
    else if m == 4 || m == 6 || m == 9 || m == 11 then 30
    else 31
  }

  function YearLen(y: nat): nat {
    if Leap(y) then 366 else 365
  }

  predicate Valid(c: Date) {
    c.y >= 1 && 1 <= c.m <= 12 && 1 <= c.d <= MonthLen(c.y, c.m)
  }

  /** The day after, as a calendar on a wall has it. */
  function NextDate(c: Date): Date
    requires Valid(c)
  {
    if c.d < MonthLen(c.y, c.m) then Date(c.y, c.m, c.d + 1)
    else if c.m < 12 then Date(c.y, c.m + 1, 1)
    else Date(c.y + 1, 1, 1)
  }

  /** The date of a day, counted out one day at a time. */
  function DateOf(n: nat): (c: Date)
    ensures Valid(c)
  {
    if n == 0 then Date(1, 1, 1) else NextDate(DateOf(n - 1))
  }

  function DaysBeforeYear(y: nat): nat
    requires y >= 1
  {
    if y == 1 then 0 else DaysBeforeYear(y - 1) + YearLen(y - 1)
  }

  function DaysBeforeMonth(y: nat, m: nat): nat
    requires 1 <= m <= 13
  {
    (if m == 1 then 0 else if m == 2 then 31 else if m == 3 then 59 else if m == 4 then 90
     else if m == 5 then 120 else if m == 6 then 151 else if m == 7 then 181 else if m == 8 then 212
     else if m == 9 then 243 else if m == 10 then 273 else if m == 11 then 304 else if m == 12 then 334 else 365)
    + (if m > 2 && Leap(y) then 1 else 0)
  }

  /** The day of a year, month and day of month; the day may run past the end of its month. */
  function Serial(y: nat, m: nat, d: nat): nat
    requires y >= 1 && 1 <= m <= 12 && d >= 1
  {
    DaysBeforeYear(y) + DaysBeforeMonth(y, m) + d - 1
  }

  /** time.Date's normalisation of a month one past December, and of a day past the month's end. */
  function Normal(y: nat, m: nat, d: nat): nat
    requires y >= 1 && 1 <= m <= 13 && d >= 1
  {
    if m > 12 then Serial(y + 1, m - 12, d) else Serial(y, m, d)
  }

  function DayOf(c: Date): nat
    requires Valid(c)
  {
    Serial(c.y, c.m, c.d)
  }

  lemma MonthStep(y: nat, m: nat)
    requires y >= 1 && 1 <= m <= 12
    ensures Normal(y, m + 1, 1) == Serial(y, m, 1) + MonthLen(y, m)
  {
  }

  lemma NextDay(c: Date)
    requires Valid(c)
    ensures DayOf(NextDate(c)) == DayOf(c) + 1
  {
    MonthStep(c.y, c.m);
  }

  lemma DayOne()
    ensures Valid(Date(1, 1, 1)) && DayOf(Date(1, 1, 1)) == 0
  {
  }

  lemma {:induction false} DayOfDate(n: nat)
    ensures DayOf(DateOf(n)) == n
  {
    hide DayOf, NextDate, Valid;
    if n == 0 {
      DayOne();
    } else {
      DayOfDate(n - 1);
      NextDay(DateOf(n - 1));
    }
  }

  lemma {:induction false} YearsGrow(y: nat, z: nat)
    requires 1 <= y < z
    ensures DaysBeforeYear(y) + YearLen(y) <= DaysBeforeYear(z)
    decreases z - y
  {
    if y + 1 < z {
      YearsGrow(y + 1, z);
    }
  }

  predicate Earlier(a: Date, b: Date) {
    a.y < b.y || (a.y == b.y && (a.m < b.m || (a.m == b.m && a.d < b.d)))
  }

  /** Within a year; the later day may run past the end of its month. */
  lemma LaterInYear(y: nat, m: nat, d: nat, m': nat, d': nat)
    requires y >= 1 && 1 <= m <= m' <= 12 && 1 <= d <= MonthLen(y, m) && d' >= 1
    requires m < m' || d < d'
    ensures Serial(y, m, d) < Serial(y, m', d')
  {
  }

  lemma EarlierIsLess(a: Date, b: Date)
    requires Valid(a) && Valid(b) && Earlier(a, b)
    ensures DayOf(a) < DayOf(b)
  {
    if a.y < b.y {
      YearsGrow(a.y, b.y);
    }
  }

  /** Counting out the days and the closed form are inverse to each other. */
  lemma DateOfDay(c: Date)
    requires Valid(c)
    ensures DateOf(DayOf(c)) == c
  {
    var e := DateOf(DayOf(c));
    DayOfDate(DayOf(c));
    if Earlier(e, c) {
      EarlierIsLess(e, c);
    } else if Earlier(c, e) {
      EarlierIsLess(c, e);
    }
  }

  /** The days of a month are consecutive. */
  lemma DayInMonth(y: nat, m: nat, n: nat)
    requires y >= 1 && 1 <= m <= 12 && Serial(y, m, 1) <= n < Serial(y, m, 1) + MonthLen(y, m)
    ensures DateOf(n) == Date(y, m, n - Serial(y, m, 1) + 1)
  {
    DateOfDay(Date(y, m, n - Serial(y, m, 1) + 1));
  }

  /** 1 January of year 1 was a Monday; Sunday is 0. */
  function Weekday(n: nat): nat {
    (n + 1) % 7
  }

  /* ----- the Gregorian calendar ----- */

  /** A leap year every four years but not every hundred, and again every four hundred. */
  lemma {:induction false} YearsAreGregorian(y: nat)
    requires y >= 1
    ensures DaysBeforeYear(y) == 365 * (y - 1) + (y - 1) / 4 - (y - 1) / 100 + (y - 1) / 400
  {
    if y > 1 {
      YearsAreGregorian(y - 1);
      OneMoreYear(y - 1);
    }
  }

  lemma OneMoreYear(y: nat)
    requires y >= 1
    ensures YearLen(y) == 365 + (y / 4 - (y - 1) / 4) - (y / 100 - (y - 1) / 100) + (y / 400 - (y - 1) / 400)
  {
    QuotientSteps(y, 4);
    QuotientSteps(y, 100);
    QuotientSteps(y, 400);
  }

  lemma QuotientSteps(y: nat, k: nat)
    requires y >= 1 && k > 1
    ensures y / k - (y - 1) / k == if y % k == 0 then 1 else 0
  {
    var q, r := y / k, y % k;
    assert y == q * k + r;
    if r == 0 {
      assert y - 1 == (q - 1) * k + (k - 1);
      QuotientIs(y - 1, k, q - 1, k - 1);
    } else {
      assert y - 1 == q * k + (r - 1);
      QuotientIs(y - 1, k, q, r - 1);
    }
  }

  lemma QuotientIs(n: nat, k: nat, q: int, r: nat)
    requires r < k && n == q * k + r
    ensures n / k == q
  {
    assert n == n / k * k + n % k;
    assert (n / k - q) * k == r - n % k;
    if n / k != q {
      FarFromZero(n / k - q, k);
    }
  }

  lemma FarFromZero(x: int, k: nat)
    requires x != 0
    ensures x * k >= k || -(x * k) >= k
  {
    if x > 0 {
      assert x * k == k + (x - 1) * k;
    } else {
      assert -(x * k) == k + (-x - 1) * k;
    }
  }

  /** The week goes on from day to day, and this is the weekday of New Year. */
  lemma NewYearsWeekday(y: nat, n: nat)
    requires y >= 1
    ensures Weekday(n + 1) == if Weekday(n) == 6 then 0 else Weekday(n) + 1
    ensures Weekday(Serial(y, 1, 1)) == (y + (y - 1) / 4 - (y - 1) / 100 + (y - 1) / 400) % 7
  {
    hide DaysBeforeYear;
    YearsAreGregorian(y);
    var q := (y - 1) / 4 - (y - 1) / 100 + (y - 1) / 400;
    assert Serial(y, 1, 1) + 1 == 7 * (52 * (y - 1)) + (y + q);
    Sevens(52 * (y - 1), y + q);
  }

  lemma Sevens(a: nat, b: int)
    ensures (7 * a + b) % 7 == b % 7
  {
  }

  /** It was a Thursday in 1970, a Saturday in 2000, and a Monday in 2024. */
  lemma KnownNewYears(y: nat)
    requires y in {1970, 2000, 2024}
    ensures Weekday(Serial(y, 1, 1)) == if y == 1970 then 4 else if y == 2000 then 6 else 1
  {
    hide DaysBeforeYear, Weekday;
    NewYearsWeekday(y, 0);
  }

  function Day(t: nat): nat {
    t / 1440
  }

  function Hour(t: nat): nat {
    t % 1440 / 60
  }

  function Minute(t: nat): nat {
    t % 60
  }

  lemma Clock(t: nat)
    ensures t == Day(t) * 1440 + Hour(t) * 60 + Minute(t) && Hour(t) < 24 && Minute(t) < 60
  {
  }

  lemma ClockUnique(t: nat, n: nat, h: nat, i: nat)
    requires t == n * 1440 + h * 60 + i && h < 24 && i < 60
    ensures Day(t) == n && Hour(t) == h && Minute(t) == i
  {
  }
}
