/**
 * Go's time values as the poller uses them: an instant is a count of
 * nanoseconds since Go's zero time (January 1, year 1, 00:00:00 UTC) and a
 * duration is a count of nanoseconds. Covers Time.Round and the UTC
 * calendar breakdown behind Year(), Month(), Day(), Hour(), Minute() and
 * Second() in the proleptic Gregorian calendar.
 */
module Clock {
  import opened GoText

  const Second: int := 1_000_000_000
  const Minute: int := 60 * Second
  const Hour: int := 60 * Minute
  const Day: int := 24 * Hour

  /**
   * Time.Round(d): the multiple of d (counted from the zero time) nearest
   * to t, halfway values rounding up; for d <= 0 the instant is unchanged.
   */
  function Round(t: int, d: int): (r: int)
    ensures d <= 0 ==> r == t
    ensures d > 0 ==> r % d == 0 && -d < 2 * (r - t) <= d
  {
    if d <= 0 then t
    else
      var rem := t % d;
      RoundCandidates(t, d);
      if rem + rem < d then t - rem else t + (d - rem)
  }

  /** The two multiples of d on either side of t, as Round computes them. */
  lemma RoundCandidates(t: int, d: int)
    requires d > 0
    ensures 0 <= t % d < d && (t - t % d) % d == 0 && (t + (d - t % d)) % d == 0
  {
    var q := t / d;
    assert t - t % d == d * q;
    assert t + (d - t % d) == d * (q + 1);
    MultipleMod(q, d);
    MultipleMod(q + 1, d);
  }

  lemma MultipleMod(q: int, d: int)
    requires d > 0
    ensures (d * q) % d == 0
  {
    var r := (d * q) % d;
    var k := (d * q) / d;
    assert d * q == d * k + r;
    assert d * (q - k) == r;
    if q - k >= 1 {
      MulAtLeast(d, q - k);
      assert false;
    }
    if q - k <= -1 {
      assert d * (k - q) == -r;
      MulAtLeast(d, k - q);
      assert false;
    }
  }

  /** A positive multiple of d is at least d. */
  lemma {:induction false} MulAtLeast(d: int, x: int)
    requires d > 0 && x >= 1
    ensures d * x >= d
  {
    if x > 1 {
      MulAtLeast(d, x - 1);
      assert d * x == d * (x - 1) + d;
    }
  }

  /** Two multiples of d less than d apart are the same number. */
  lemma MultiplesClose(x: int, y: int, d: int)
    requires d > 0 && x % d == 0 && y % d == 0 && -d < x - y < d
    ensures x == y
  {
    var a, b := x / d, y / d;
    assert x == d * a && y == d * b;
    assert d * (a - b) == x - y;
    if a - b >= 1 {
      MulAtLeast(d, a - b);
      assert false;
    }
    if a - b <= -1 {
      assert d * (b - a) == y - x;
      MulAtLeast(d, b - a);
      assert false;
    }
  }

  /** Round picks the only multiple of d in the window (t - d/2, t + d/2]. */
  lemma RoundUnique(t: int, d: int, m: int)
    requires d > 0 && m % d == 0 && -d < 2 * (m - t) <= d
    ensures m == Round(t, d)
  {
    MultiplesClose(m, Round(t, d), d);
  }

  /** Rounding a multiple of d leaves it where it is. */
  lemma RoundOfMultiple(t: int, d: int)
    requires d > 0 && t % d == 0
    ensures Round(t, d) == t
  {
    RoundUnique(t, d, t);
  }

  /** Go's integer division on durations, which truncates toward zero. */
  function Quo(a: int, b: int): (q: int)
    requires b > 0
    ensures a >= 0 ==> 0 <= a - q * b < b
    ensures a < 0 ==> -b < a - q * b <= 0
  {
    if a >= 0 then a / b else -((-a) / b)
  }

  // ---- the calendar ----

  predicate IsLeap(y: int)
  {
    y % 4 == 0 && (y % 100 != 0 || y % 400 == 0)
  }

  function YearLength(y: int): nat
  {
    if IsLeap(y) then 366 else 365
  }

  /** Days from January 1 of year 1 to January 1 of year y. */
  function YearStart(y: int): int
  {
    365 * (y - 1) + (y - 1) / 4 - (y - 1) / 100 + (y - 1) / 400
  }

  lemma YearStartNext(y: int)
    ensures YearStart(y + 1) == YearStart(y) + YearLength(y)
  {
    QuarterStep(y);
    CenturyStep(y);
    QuadCenturyStep(y);
    DivisorsNest(y);
  }

  lemma QuarterStep(y: int)
    ensures y / 4 - (y - 1) / 4 == if y % 4 == 0 then 1 else 0
  {
  }

  lemma CenturyStep(y: int)
    ensures y / 100 - (y - 1) / 100 == if y % 100 == 0 then 1 else 0
  {
  }

  lemma QuadCenturyStep(y: int)
    ensures y / 400 - (y - 1) / 400 == if y % 400 == 0 then 1 else 0
  {
  }

  lemma DivisorsNest(y: int)
    ensures y % 400 == 0 ==> y % 100 == 0 && y % 4 == 0
    ensures y % 100 == 0 ==> y % 4 == 0
  {
    if y % 400 == 0 {
      var q := y / 400;
      assert y == 100 * (4 * q) && y == 4 * (100 * q);
      MultipleMod(4 * q, 100);
      MultipleMod(100 * q, 4);
    }
    if y % 100 == 0 {
      var q := y / 100;
      assert y == 4 * (25 * q);
      MultipleMod(25 * q, 4);
    }
  }

  /** The year holding day `days` counted from January 1 of y, and the day's index within it. */
  function YearOf(days: int, y: int): (r: (int, nat))
    ensures r.1 < YearLength(r.0)
    ensures YearStart(r.0) + r.1 == YearStart(y) + days
    decreases if days < 0 then 1 else 0, if days < 0 then -days else days
  {
    if days < 0 then
      YearStartNext(y - 1);
      YearOf(days + YearLength(y - 1), y - 1)
    else if days >= YearLength(y) then
      YearStartNext(y);
      YearOf(days - YearLength(y), y + 1)
    else (y, days)
  }

  function MonthLength(y: int, m: int): nat
    requires 1 <= m <= 12
  {
    if m == 2 then (if IsLeap(y) then 29 else 28)
    else if m == 4 || m == 6 || m == 9 || m == 11 then 30
    else 31
  }

  /** Days in year y before the first of month m (m == 13 counts the whole year). */
  function DaysBeforeMonth(y: int, m: int): nat
    requires 1 <= m <= 13
  {
    if m == 1 then 0 else DaysBeforeMonth(y, m - 1) + MonthLength(y, m - 1)
  }

  lemma MonthsFillYear(y: int)
    ensures DaysBeforeMonth(y, 13) == YearLength(y)
  {
    assert DaysBeforeMonth(y, 2) == 31;
    assert DaysBeforeMonth(y, 3) == 31 + MonthLength(y, 2);
    assert DaysBeforeMonth(y, 5) == DaysBeforeMonth(y, 3) + 61;
    assert DaysBeforeMonth(y, 7) == DaysBeforeMonth(y, 5) + 61;
    assert DaysBeforeMonth(y, 9) == DaysBeforeMonth(y, 7) + 62;
    assert DaysBeforeMonth(y, 11) == DaysBeforeMonth(y, 9) + 61;
    assert DaysBeforeMonth(y, 13) == DaysBeforeMonth(y, 11) + 61;
  }

  /** Month and day of month of the day-of-year doy, counted from the first of month m. */
  function MonthOf(y: int, doy: nat, m: int): (r: (int, nat))
    requires 1 <= m <= 12 && DaysBeforeMonth(y, m) + doy < YearLength(y)
    ensures 1 <= r.0 <= 12 && 1 <= r.1 <= MonthLength(y, r.0)
    ensures DaysBeforeMonth(y, r.0) + r.1 - 1 == DaysBeforeMonth(y, m) + doy
    decreases 12 - m
  {
    MonthsFillYear(y);
    if doy < MonthLength(y, m) then (m, doy + 1)
    else MonthOf(y, doy - MonthLength(y, m), m + 1)
  }

  /** A UTC calendar breakdown, as Year(), Month(), Day(), Hour(), Minute() and Second() report it. */
  datatype Civil = Civil(year: int, month: int, day: int, hour: int, minute: int, second: int)
  {
    ghost predicate Valid()
    {
      && 1 <= month <= 12 && 1 <= day <= MonthLength(year, month)
      && 0 <= hour < 24 && 0 <= minute < 60 && 0 <= second < 60
    }
  }

  /** The calendar fields of instant t in UTC. */
  function CivilOf(t: int): (c: Civil)
    ensures c.Valid()
  {
    var days, ns := t / Day, t % Day;
    var (y, doy) := YearOf(days, 1);
    var (m, dd) := MonthOf(y, doy, 1);
    Civil(y, m, dd, ns / Hour, ns % Hour / Minute, ns % Minute / Second)
  }

  /** The first nanosecond of the second that c names. */
  function InstantOf(c: Civil): int
    requires 1 <= c.month <= 12
  {
    ((YearStart(c.year) + DaysBeforeMonth(c.year, c.month) + c.day - 1) * 86400
      + c.hour * 3600 + c.minute * 60 + c.second) * Second
  }

  /** The printed fields determine the instant to the second. */
  lemma CivilRoundTrip(t: int)
    ensures InstantOf(CivilOf(t)) <= t < InstantOf(CivilOf(t)) + Second
  {
    var days, ns := t / Day, t % Day;
    var (y, doy) := YearOf(days, 1);
    var (m, dd) := MonthOf(y, doy, 1);
    assert YearStart(1) == 0;
    assert YearStart(y) + DaysBeforeMonth(y, m) + dd - 1 == days;
    TimeOfDay(t);
  }

  lemma TimeOfDay(t: int)
    ensures var ns := t % Day;
      var base := (t / Day * 86400 + ns / Hour * 3600 + ns % Hour / Minute * 60 + ns % Minute / Second) * Second;
      base <= t < base + Second
  {
    var ns := t % Day;
    var h, r1 := ns / 3_600_000_000_000, ns % 3_600_000_000_000;
    var mi, r2 := r1 / 60_000_000_000, r1 % 60_000_000_000;
    var s, r3 := r2 / 1_000_000_000, r2 % 1_000_000_000;
    assert t == t / Day * 86_400_000_000_000 + ns;
    assert ns == h * 3_600_000_000_000 + r1;
    assert r1 == mi * 60_000_000_000 + r2;
    assert r2 == s * 1_000_000_000 + r3;
    assert ns % Minute == r2 by { ModChain(ns, h, r1, mi, r2); }
  }

  lemma ModChain(ns: int, h: int, r1: int, mi: int, r2: int)
    requires ns == h * 3_600_000_000_000 + r1 && r1 == mi * 60_000_000_000 + r2
    requires 0 <= r2 < 60_000_000_000
    ensures ns % 60_000_000_000 == r2
  {
    assert ns == (h * 60 + mi) * 60_000_000_000 + r2;
  }

  /** The "%04d %02d %02d %02d %02d %02d" rendering of an instant in UTC. */
  function DateText(t: int): string
  {
    var c := CivilOf(t);
    FmtInt(c.year, 4) + " " + FmtInt(c.month, 2) + " " + FmtInt(c.day, 2) + " "
      + FmtInt(c.hour, 2) + " " + FmtInt(c.minute, 2) + " " + FmtInt(c.second, 2)
  }
}
