/** Calendar months over time counted in seconds (backend/app/domain/plans.py:53-60). Months are
    numbered from January 1970; time is not negative and not rounded. */
module Calendar {

  const DAY: real := 86400.0

  predicate IsLeap(year: nat) {
    year % 4 == 0 && (year % 100 != 0 || year % 400 == 0)
  }

  /** Days of month `k`. */
  function Length(k: nat): (d: nat)
    ensures 28 <= d <= 31
  {
    var month := k % 12;
    if month == 1 then if IsLeap(1970 + k / 12) then 29 else 28
    else if month == 3 || month == 5 || month == 8 || month == 10 then 30
    else 31
  }

  /** Days before month `k`. */
  function Start(k: nat): nat {
    if k == 0 then 0 else Start(k - 1) + Length(k - 1)
  }

  /** A moment taken apart: month, day of the month from 1, and time of day. */
  datatype Moment = Moment(month: nat, day: nat, clock: real)

  predicate IsMoment(m: Moment) {
    1 <= m.day <= Length(m.month) && 0.0 <= m.clock < DAY
  }

  function Timestamp(m: Moment): (t: real)
    requires IsMoment(m)
    ensures t >= 0.0
  {
    (Start(m.month) + m.day - 1) as real * DAY + m.clock
  }

  /** The month that lies `days` days after the start of month `k`, and the day in it. */
  function MonthOf(days: nat, k: nat): (nat, nat)
    decreases days
  {
    if days < Length(k) then (k, days + 1) else MonthOf(days - Length(k), k + 1)
  }

  function Days(t: real): nat
    requires t >= 0.0
  {
    (t / DAY).Floor
  }

  function FromTimestamp(t: real): Moment
    requires t >= 0.0
  {
    var (month, day) := MonthOf(Days(t), 0);
    Moment(month, day, t - Days(t) as real * DAY)
  }

  lemma {:induction false} MonthOfIs(days: nat, k: nat)
    ensures
      var (month, day) := MonthOf(days, k);
      month >= k && 1 <= day <= Length(month) && Start(month) + day - 1 == Start(k) + days
    decreases days
  {
    if days >= Length(k) {
      MonthOfIs(days - Length(k), k + 1);
    }
  }

  lemma {:induction false} StartsGrow(k: nat, m: nat)
    ensures Start(k) + 28 * m <= Start(k + m) <= Start(k) + 31 * m
    decreases m
  {
    if m > 0 {
      StartsGrow(k, m - 1);
    }
  }

  /** A month ends before any later one starts. */
  lemma {:induction false} MonthsAreApart(k: nat, k': nat)
    requires k < k'
    ensures Start(k) + Length(k) <= Start(k')
  {
    if k < k' - 1 {
      MonthsAreApart(k, k' - 1);
    }
  }

  /** Only one month and day have a given distance from the first of January 1970. */
  lemma DaysTell(k: nat, day: nat, k': nat, day': nat)
    requires 1 <= day <= Length(k) && 1 <= day' <= Length(k') && Start(k) + day == Start(k') + day'
    ensures k == k' && day == day'
  {
    if k < k' {
      MonthsAreApart(k, k');
    } else if k' < k {
      MonthsAreApart(k', k);
    }
  }

  lemma FloorOfDays(days: nat, clock: real)
    requires 0.0 <= clock < DAY
    ensures Days(days as real * DAY + clock) == days
  {
    var t := days as real * DAY + clock;
    assert t / DAY == days as real + clock / DAY;
    assert 0.0 <= clock / DAY < 1.0;
  }

  lemma ClockOf(t: real)
    requires t >= 0.0
    ensures 0.0 <= t - Days(t) as real * DAY < DAY
  {
    var f := t / DAY;
    assert f.Floor as real <= f < f.Floor as real + 1.0;
    assert f * DAY == t;
  }

  /** Taking a timestamp apart and putting it together again, both ways. */
  lemma TimestampsRoundTrip(t: real)
    requires t >= 0.0
    ensures IsMoment(FromTimestamp(t)) && Timestamp(FromTimestamp(t)) == t
  {
    MonthOfIs(Days(t), 0);
    ClockOf(t);
  }

  lemma MomentsRoundTrip(m: Moment)
    requires IsMoment(m)
    ensures FromTimestamp(Timestamp(m)) == m
  {
    var days: nat := Start(m.month) + m.day - 1;
    FloorOfDays(days, m.clock);
    MonthOfIs(days, 0);
    var (month, day) := MonthOf(days, 0);
    DaysTell(month, day, m.month, m.day);
  }

  function Min(a: nat, b: nat): nat {
    if a < b then a else b
  }

  /** The same day and time of day some months later, the day clamped to that month's length. */
  function Later(m: Moment, months: nat): Moment {
    Moment(m.month + months, Min(m.day, Length(m.month + months)), m.clock)
  }

  function AddMonths(t: real, months: nat): (r: real)
    requires t >= 0.0
    ensures r >= 0.0
  {
    TimestampsRoundTrip(t);
    Timestamp(Later(FromTimestamp(t), months))
  }

  /** The days from a day of a month to the same day, clamped, some months later. */
  lemma DaysLater(k: nat, day: nat, months: nat) returns (days: nat)
    requires 1 <= day <= Length(k)
    ensures Start(k + months) + Min(day, Length(k + months)) == Start(k) + day + days
    ensures 28 * months <= days <= 31 * months
  {
    var day' := Min(day, Length(k + months));
    StartsGrow(k, months);
    if months > 0 {
      StartsGrow(k + 1, months - 1);
      assert Start(k + 1) == Start(k) + Length(k);
    }
    days := Start(k + months) + day' - (Start(k) + day);
  }

  /** What the months add: whole days, between 28 and 31 for each month. */
  lemma AddMonthsTakesDays(t: real, months: nat) returns (days: nat)
    requires t >= 0.0
    ensures AddMonths(t, months) == t + days as real * DAY
    ensures 28 * months <= days <= 31 * months
  {
    TimestampsRoundTrip(t);
    var m := FromTimestamp(t);
    days := DaysLater(m.month, m.day, months);
    DaysApart(Start(m.month) + m.day - 1, days, m.clock);
  }

  lemma DaysApart(x: nat, days: nat, clock: real)
    ensures (x + days) as real * DAY + clock == (x as real * DAY + clock) + days as real * DAY
  {
    assert (x + days) as real == x as real + days as real;
  }

  /** A period of a positive number of months lasts at least 28 days a month, and has not ended when
      it starts. */
  lemma PeriodsLast(t: real, months: nat)
    requires t >= 0.0
    ensures AddMonths(t, months) >= t + (28 * months) as real * DAY
    ensures AddMonths(t, months) <= t + (31 * months) as real * DAY
  {
    var days := AddMonthsTakesDays(t, months);
    assert (28 * months) as real <= days as real <= (31 * months) as real;
  }

  // --- order ---

  /** Two moments of one month whose days are clamped to the same day while the later one has the
      earlier time of day. */
  predicate Swaps(a: Moment, b: Moment, months: nat) {
    && a.month == b.month && a.day < b.day && a.clock > b.clock
    && Later(a, months).day == Later(b, months).day
  }

  lemma InOrder(a: Moment, b: Moment)
    requires IsMoment(a) && IsMoment(b)
    ensures Timestamp(a) <= Timestamp(b) <==>
              a.month < b.month
              || (a.month == b.month && (a.day < b.day || (a.day == b.day && a.clock <= b.clock)))
  {
    if a.month < b.month {
      MonthsAreApart(a.month, b.month);
    } else if b.month < a.month {
      MonthsAreApart(b.month, a.month);
    }
    WholeDays(Start(a.month) + a.day - 1, a.clock, Start(b.month) + b.day - 1, b.clock);
  }

  lemma WholeDays(x: nat, c: real, y: nat, d: real)
    requires 0.0 <= c < DAY && 0.0 <= d < DAY
    ensures x as real * DAY + c <= y as real * DAY + d <==> x < y || (x == y && c <= d)
  {
    if x < y {
      assert x as real + 1.0 <= y as real;
    } else if y < x {
      assert y as real + 1.0 <= x as real;
    }
  }

  /** Adding months keeps the order of two times except when both days are clamped to the same one and
      the time of day decides the other way. */
  lemma OrderIsKeptUnlessClamped(s: real, t: real, months: nat)
    requires 0.0 <= s <= t
    ensures AddMonths(s, months) <= AddMonths(t, months) <==> !Swaps(FromTimestamp(s), FromTimestamp(t), months)
  {
    TimestampsRoundTrip(s);
    TimestampsRoundTrip(t);
    var a, b := FromTimestamp(s), FromTimestamp(t);
    InOrder(a, b);
    InOrder(Later(a, months), Later(b, months));
  }

  /** 30 January 23:00 and 31 January 1:00 of 1970, one month later: the order is reversed. */
  lemma AddMonthsReversesOrder() returns (s: real, t: real)
    ensures 0.0 <= s < t && AddMonths(s, 1) > AddMonths(t, 1)
  {
    var a, b := Moment(0, 30, 82800.0), Moment(0, 31, 3600.0);
    s, t := Timestamp(a), Timestamp(b);
    MomentsRoundTrip(a);
    MomentsRoundTrip(b);
    assert Length(1) == 28;
    assert Swaps(a, b, 1);
    InOrder(b, a);
    InOrder(Later(a, 1), Later(b, 1));
  }
}
