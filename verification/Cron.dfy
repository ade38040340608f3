/** The cron matcher: which minutes an expression names, and the next one. */
module Cron {
  import opened Wrappers
  import opened Calendar

  /** Each field is the set of its set bits. `anyDom` and `anyDow` record a bare `*`. */
  datatype Cron = Cron(min: set<nat>, hour: set<nat>, dom: set<nat>, month: set<nat>, dow: set<nat>,
                       anyDom: bool, anyDow: bool)

  predicate DayMatches(c: Cron, n: nat) {
    var dom, dow := DateOf(n).d in c.dom, Weekday(n) in c.dow;
    if c.anyDom && c.anyDow then true
    else if c.anyDom then dow
    else if c.anyDow then dom
    else dom || dow
  }

  predicate Matches(c: Cron, t: nat) {
    Minute(t) in c.min && Hour(t) in c.hour && DateOf(Day(t)).m in c.month && DayMatches(c, Day(t))
  }

  /** What a match is, in the terms of a date and a weekday. Where a day field says any, both fields have to hold
      the day, and that field does; where neither does, one of the two is enough. */
  lemma MatchesExactly(c: Cron, t: nat)
    requires WellFormed(c)
    ensures var e, w := DateOf(t / 1440), Weekday(t / 1440);
      Matches(c, t) <==>
        && t % 60 in c.min && t / 60 % 24 in c.hour && e.m in c.month
        && (if c.anyDom || c.anyDow then e.d in c.dom && w in c.dow else e.d in c.dom || w in c.dow)
  {
    HourOfDay(t);
  }

  lemma HourOfDay(t: nat)
    ensures Hour(t) == t / 60 % 24
  {
    Clock(t);
    var n, h, i := Day(t), Hour(t), Minute(t);
    assert t == (n * 24 + h) * 60 + i;
  }

  function YearAndDayOn(c: Date): nat
    requires Valid(c)
  {
    Serial(c.y + 1, c.m, c.d + 1)
  }

  /** It is the day after the same date of the next year; after 29 February, which the next year lacks, 2 March. */
  lemma YearAndDayIs(c: Date)
    requires Valid(c)
    ensures DateOf(YearAndDayOn(c)) ==
      if c.m == 2 && c.d == 29 then Date(c.y + 1, 3, 2) else NextDate(Date(c.y + 1, c.m, c.d))
  {
    hide DateOf, DaysBeforeYear;
    if c.m == 2 && c.d == 29 {
      assert !Leap(c.y + 1);
      DateOfDay(Date(c.y + 1, 3, 2));
    } else {
      NextDay(Date(c.y + 1, c.m, c.d));
      DateOfDay(NextDate(Date(c.y + 1, c.m, c.d)));
    }
  }

  /** time.AddDate(1, 0, 1): a year and a day on, at the same time of day. */
  function YearAndDay(n: nat): nat {
    YearAndDayOn(DateOf(Day(n))) * 1440 + n % 1440
  }

  /** The search that looks at every minute. */
  function Scan(c: Cron, from: nat, to: nat): Option<nat>
    decreases if from < to then to - from else 0
  {
    if from >= to then None
    else if Matches(c, from) then Some(from)
    else Scan(c, from + 1, to)
  }

  /** The scan finds the least match before its bound, and nothing just when there is none. */
  lemma {:induction false} ScanIsLeast(c: Cron, from: nat, to: nat)
    ensures (var r := Scan(c, from, to);
      && (r.Some? ==> from <= r.value < to && Matches(c, r.value) && forall u :: from <= u < r.value ==> !Matches(c, u))
      && (r.None? ==> forall u :: from <= u < to ==> !Matches(c, u)))
    decreases if from < to then to - from else 0
  {
    if from < to && !Matches(c, from) {
      ScanIsLeast(c, from + 1, to);
    }
  }

  lemma {:induction false} ScanSkips(c: Cron, from: nat, mid: nat, to: nat)
    requires from <= mid && forall u :: from <= u < mid ==> !Matches(c, u)
    ensures Scan(c, from, to) == Scan(c, mid, to)
    decreases mid - from
  {
    if from < mid {
      ScanSkips(c, from + 1, mid, to);
    }
  }

  /* ----- what the skips pass over ----- */

  /** The rest of a month outside the month set. */
  lemma MonthSkips(c: Cron, n: nat)
    requires DateOf(Day(n)).m !in c.month
    ensures var s := DateOf(Day(n)); var next := Normal(s.y, s.m + 1, 1) * 1440;
      n < next && forall u :: n <= u < next ==> !Matches(c, u)
  {
    var s := DateOf(Day(n));
    MonthStep(s.y, s.m);
    DayOfDate(Day(n));
    var next := Normal(s.y, s.m + 1, 1);
    forall u | n <= u < next * 1440
      ensures !Matches(c, u)
    {
      DayInMonth(s.y, s.m, Day(u));
    }
  }

  lemma SameDay(n: nat, u: nat)
    requires n <= u < (Day(n) + 1) * 1440
    ensures Day(u) == Day(n)
  {
  }

  /** The rest of a day that does not match. */
  lemma DaySkips(c: Cron, n: nat)
    requires !DayMatches(c, Day(n))
    ensures var s := DateOf(Day(n)); var next := Normal(s.y, s.m, s.d + 1) * 1440;
      n < next && forall u :: n <= u < next ==> !Matches(c, u)
  {
    var s := DateOf(Day(n));
    DayOfDate(Day(n));
    assert Normal(s.y, s.m, s.d + 1) == Day(n) + 1;
    forall u | n <= u < (Day(n) + 1) * 1440
      ensures !Matches(c, u)
    {
      SameDay(n, u);
    }
  }

  /** The rest of an hour outside the hour set. */
  lemma HourSkips(c: Cron, n: nat)
    requires Hour(n) !in c.hour
    ensures var s := DateOf(Day(n)); var next := DayOf(s) * 1440 + (Hour(n) + 1) * 60;
      n < next && forall u :: n <= u < next ==> !Matches(c, u)
  {
    DayOfDate(Day(n));
    forall u | n <= u < Day(n) * 1440 + (Hour(n) + 1) * 60
      ensures !Matches(c, u)
    {
      Clock(n);
      ClockUnique(u, Day(n), Hour(n), u - Day(n) * 1440 - Hour(n) * 60);
    }
  }

  /** The first matching minute strictly after second `t`: the skipping search finds what looking at
      every minute up to a year and a day on would find. */
  method Next(c: Cron, t: nat) returns (r: Option<nat>)
    ensures r == Scan(c, t / 60 + 1, YearAndDay(t / 60 + 1))
  {
    var n := t / 60 + 1;
    ghost var start := n;
    var end := YearAndDay(n);
    while n < end
      invariant start <= n
      invariant forall u :: start <= u < n ==> !Matches(c, u)
      decreases end - n
    {
      var s := DateOf(Day(n));
      if s.m !in c.month {
        MonthSkips(c, n);
        n := Normal(s.y, s.m + 1, 1) * 1440;
      } else if !DayMatches(c, Day(n)) {
        DaySkips(c, n);
        n := Normal(s.y, s.m, s.d + 1) * 1440;
      } else if Hour(n) !in c.hour {
        HourSkips(c, n);
        n := DayOf(s) * 1440 + (Hour(n) + 1) * 60;
      } else if Minute(n) !in c.min {
        n := n + 1;
      } else {
        ScanSkips(c, start, n, end);
        return Some(n);
      }
    }
    ScanSkips(c, start, n, end);
    return None;
  }

  /* ----- which expressions always have a next firing ----- */

  /** What Parse guarantees of its result. Day and month 0 may be set, but never alone. */
  ghost predicate WellFormed(c: Cron) {
    && c.min != {} && c.hour != {} && c.dow != {}
    && (exists m :: m in c.month && m >= 1) && (exists d :: d in c.dom && d >= 1)
    && (forall i :: i in c.min ==> i < 60) && (forall h :: h in c.hour ==> h < 24)
    && (forall m :: m in c.month ==> m <= 12) && (forall d :: d in c.dom ==> d <= 31)
    && (forall w :: w in c.dow ==> w <= 7) && (7 in c.dow ==> 0 in c.dow)
    && (c.anyDom ==> forall d :: 1 <= d <= 31 ==> d in c.dom)
    && (c.anyDow ==> forall w :: 0 <= w <= 7 ==> w in c.dow)
  }

  /** The days of a month that it has in every year. */
  function ShortLen(m: nat): nat
    requires 1 <= m <= 12
  {
    MonthLen(1, m)
  }

  /** A listed month that has this listed day in every year. */
  predicate EveryYear(c: Cron, m: nat, d: nat) {
    m in c.month && d in c.dom && 1 <= m <= 12 && 1 <= d <= ShortLen(m)
  }

  /** Only days of the month are restricted, and each day listed is missing in some years. */
  ghost predicate SomeYearsOnly(c: Cron)
    requires WellFormed(c)
  {
    !c.anyDom && c.anyDow && !exists m, d :: EveryYear(c, m, d)
  }

  ghost predicate FiresFrom(c: Cron, n: nat) {
    exists u :: n <= u < YearAndDay(n) && Matches(c, u)
  }

  lemma FiresOnDay(c: Cron, k: nat) returns (u: nat)
    requires WellFormed(c) && DateOf(k).m in c.month && DayMatches(c, k)
    ensures Day(u) == k && Matches(c, u)
  {
    var h :| h in c.hour;
    var i :| i in c.min;
    u := k * 1440 + h * 60 + i;
    ClockUnique(u, k, h, i);
  }

  ghost predicate Ahead(today: Date, e: Date) {
    Valid(today) && Valid(e) && DayOf(today) < DayOf(e) < YearAndDayOn(today)
  }

  /** A matching day after today and before the bound is enough. */
  lemma FiresAfterToday(c: Cron, n: nat, e: Date)
    requires WellFormed(c) && Ahead(DateOf(Day(n)), e) && e.m in c.month && DayMatches(c, DayOf(e))
    ensures FiresFrom(c, n)
  {
    DateOfDay(e);
    DayOfDate(Day(n));
    var u := FiresOnDay(c, DayOf(e));
    DaysBetween(n, u, YearAndDayOn(DateOf(Day(n))));
  }

  lemma DaysBetween(n: nat, u: nat, k: nat)
    requires Day(n) < Day(u) < k
    ensures n <= u < k * 1440 + n % 1440
  {
  }

  /** A date later this year. */
  lemma ThisYear(c: Date, e: Date)
    requires Valid(c) && Valid(e) && e.y == c.y && Earlier(c, e)
    ensures Ahead(c, e)
  {
    EarlierIsLess(c, e);
    EarlierIsLess(e, Date(c.y + 1, 1, 1));
  }

  /** A date next year that is no later in its year than today in this one. */
  lemma NextYear(c: Date, e: Date)
    requires Valid(c) && Valid(e) && e.y == c.y + 1 && (e.m < c.m || (e.m == c.m && e.d <= c.d))
    ensures Ahead(c, e)
  {
    EarlierIsLess(c, e);
    LaterInYear(e.y, e.m, e.d, c.m, c.d + 1);
  }

  /** A date with a day and month that exist every year comes up between tomorrow and the bound; if it is
      today, it comes up again a year on. */
  lemma DateRecurs(c: Date, m: nat, d: nat) returns (e: Date)
    requires Valid(c) && 1 <= m <= 12 && 1 <= d <= ShortLen(m)
    ensures Ahead(c, e) && e.m == m && e.d == d
  {
    e := Date(c.y, m, d);
    if Earlier(c, e) {
      ThisYear(c, e);
    } else {
      e := Date(c.y + 1, m, d);
      NextYear(c, e);
    }
  }

  /** The days from day f to the next weekday w. */
  function Until(f: nat, w: nat): (k: nat)
    requires w < 7
    ensures k < 7 && Weekday(f + k) == w
  {
    var k := (w + 7 - Weekday(f)) % 7;
    assert k == w - Weekday(f) || k == w + 7 - Weekday(f);
    k
  }

  /** Any seven days in a row hold every weekday. */
  lemma WeekdayInMonth(y: nat, m: nat, first: nat, w: nat) returns (d: nat)
    requires y >= 1 && 1 <= m <= 12 && 1 <= first && w < 7
    ensures first <= d < first + 7 && Weekday(Serial(y, m, d)) == w
  {
    hide Weekday;
    var f := Serial(y, m, first);
    d := first + Until(f, w);
    assert Serial(y, m, d) == f + (d - first);
  }

  /** Every month has every weekday, after today if the month is this one and not nearly over. */
  lemma WeekdayRecurs(c: Date, m: nat, w: nat) returns (e: Date)
    requires Valid(c) && 1 <= m <= 12 && w < 7
    ensures Ahead(c, e) && e.m == m && Weekday(DayOf(e)) == w
  {
    if m > c.m || (m == c.m && c.d <= 21) {
      var d := WeekdayInMonth(c.y, m, if m == c.m then c.d + 1 else 1, w);
      e := Date(c.y, m, d);
      ThisYear(c, e);
    } else {
      var d := WeekdayInMonth(c.y + 1, m, 1, w);
      e := Date(c.y + 1, m, d);
      NextYear(c, e);
    }
  }

  /** An expression that is not confined to days missing in some years always fires within the bound. */
  lemma AlwaysFires(c: Cron, n: nat)
    requires WellFormed(c) && !SomeYearsOnly(c)
    ensures FiresFrom(c, n)
  {
    var m :| m in c.month && m >= 1;
    var e;
    if c.anyDow && (c.anyDom || exists m, d :: EveryYear(c, m, d)) {
      var d: nat := 1;
      if !c.anyDom {
        m, d :| EveryYear(c, m, d);
      }
      e := DateRecurs(DateOf(Day(n)), m, d);
    } else {
      var w :| w in c.dow;
      w := if w == 7 then 0 else w;
      e := WeekdayRecurs(DateOf(Day(n)), m, w);
    }
    DateOfDay(e);
    FiresAfterToday(c, n, e);
  }

  lemma FirstDays(y: nat)
    requires y >= 1
    ensures Valid(Date(y, 1, 1)) && Valid(Date(y + 1, 1, 2))
  {
  }

  /** The days from New Year up to the second day of the next year lie in those two years. */
  lemma TwoYears(y: nat, k: nat)
    requires y >= 1 && Serial(y, 1, 1) <= k <= Serial(y + 1, 1, 2)
    ensures y <= DateOf(k).y <= y + 1
  {
    hide DateOf, DaysBeforeYear, DaysBeforeMonth, MonthLen, Leap;
    DayOfDate(k);
    var c := DateOf(k);
    FirstDays(y);
    if c.y < y {
      EarlierIsLess(c, Date(y, 1, 1));
    } else if c.y > y + 1 {
      EarlierIsLess(Date(y + 1, 1, 2), c);
    }
  }

  lemma NewYearsBound(y: nat)
    requires y >= 1
    ensures YearAndDay(Serial(y, 1, 1) * 1440) == Serial(y + 1, 1, 2) * 1440
  {
    ClockUnique(Serial(y, 1, 1) * 1440, Serial(y, 1, 1), 0, 0);
    DateOfDay(Date(y, 1, 1));
  }

  lemma CommonYearHasNone(c: Cron, k: nat)
    requires WellFormed(c) && SomeYearsOnly(c) && !Leap(DateOf(k).y)
    ensures !(DateOf(k).m in c.month && DayMatches(c, k))
  {
    var e := DateOf(k);
    assert MonthLen(e.y, e.m) == ShortLen(e.m);
    assert !EveryYear(c, e.m, e.d);
  }

  /** From New Year the search ends within the second day of the next year. */
  lemma NewYearSearch(y: nat, u: nat)
    requires y >= 1
    requires Serial(y, 1, 1) * 1440 <= u < YearAndDay(Serial(y, 1, 1) * 1440)
    ensures y <= DateOf(Day(u)).y <= y + 1
  {
    NewYearsBound(y);
    DaysOrdered(Serial(y, 1, 1), u, Serial(y + 1, 1, 2));
    TwoYears(y, Day(u));
  }

  lemma DaysOrdered(j: nat, u: nat, k: nat)
    requires j * 1440 <= u <= k * 1440
    ensures j <= Day(u) <= k
  {
  }

  /** An expression confined to days missing in some years fails from New Year of any two years that are
      not leap years. */
  lemma SomeYearsFail(c: Cron, y: nat)
    requires WellFormed(c) && SomeYearsOnly(c) && y >= 1 && !Leap(y) && !Leap(y + 1)
    ensures !FiresFrom(c, Serial(y, 1, 1) * 1440)
  {
    hide DayMatches, Serial, YearAndDay, WellFormed;
    var n := Serial(y, 1, 1) * 1440;
    forall u | n <= u < YearAndDay(n)
      ensures !Matches(c, u)
    {
      NewYearSearch(y, u);
      CommonYearHasNone(c, Day(u));
    }
  }

  /** Exactly which expressions fire within the bound from every starting minute. */
  lemma NeverFalseExactly(c: Cron)
    requires WellFormed(c)
    ensures (forall n :: FiresFrom(c, n)) <==> !SomeYearsOnly(c)
  {
    if SomeYearsOnly(c) {
      SomeYearsFail(c, 2001);
    } else {
      forall n
        ensures FiresFrom(c, n)
      {
        AlwaysFires(c, n);
      }
    }
  }

  /** Next answers, for such an expression, from any second at all; in general it answers just when some
      minute within the bound matches. */
  method NextOf(c: Cron, t: nat) returns (r: Option<nat>)
    requires WellFormed(c)
    ensures r.Some? <==> FiresFrom(c, t / 60 + 1)
    ensures !SomeYearsOnly(c) ==> r.Some?
    ensures r.Some? ==> Matches(c, r.value) && r.value * 60 > t
    ensures r.Some? ==> var e, w := DateOf(r.value / 1440), Weekday(r.value / 1440);
      && r.value % 60 in c.min && r.value / 60 % 24 in c.hour && e.m in c.month
      && (if c.anyDom || c.anyDow then e.d in c.dom && w in c.dow else e.d in c.dom || w in c.dow)
    ensures r.Some? ==> forall u :: t < u * 60 < r.value * 60 ==> !Matches(c, u)
  {
    hide WellFormed, YearAndDay, SomeYearsOnly;
    r := Next(c, t);
    ScanIsLeast(c, t / 60 + 1, YearAndDay(t / 60 + 1));
    if r.Some? {
      MatchesExactly(c, r.value);
    }
    if !SomeYearsOnly(c) {
      AlwaysFires(c, t / 60 + 1);
    }
  }
}
