/**
 * The proleptic Gregorian calendar over day numbers (day 0 is 1970-01-01, a
 * Thursday), and local time as a fixed offset from UTC. It stands in for the
 * JavaScript `Date` getters and the `Date(year, month, 1)` constructor that
 * the tick loops use.
 *
 * Months are numbered by a single index `k = 12 * year + (month - 1)`, so
 * that "the next month" is always `k + 1`, as `Date` normalises month 12 of
 * one year to month 0 of the next.
 */
module Calendar {

  const DayMs: int := 86_400_000
  const WeekMs: int := 7 * DayMs

  /** The month index of January 1970. */
  const EpochMonth: int := 12 * 1970

  predicate IsLeap(y: int)
  {
    y % 4 == 0 && (y % 100 != 0 || y % 400 == 0)
  }

  /** Days in month `m` (0 = January) of year `y`. */
  function MonthLength(y: int, m: int): (n: int)
    requires 0 <= m < 12
    ensures 28 <= n <= 31
  {
    if m == 1 then (if IsLeap(y) then 29 else 28)
    else if m == 3 || m == 5 || m == 8 || m == 10 then 30
    else 31
  }

  /**
   * The day number of the first day of month index `k`, counted month by
   * month from January 1970.
   */
  function MonthStartDay(k: int): int
    decreases if k >= EpochMonth then k - EpochMonth else EpochMonth - k
  {
    if k == EpochMonth then 0
    else if k > EpochMonth then MonthStartDay(k - 1) + MonthLength((k - 1) / 12, (k - 1) % 12)
    else MonthStartDay(k + 1) - MonthLength(k / 12, k % 12)
  }

  /** Consecutive month starts are one month length apart. */
  lemma MonthStartStep(k: int)
    ensures MonthStartDay(k + 1) == MonthStartDay(k) + MonthLength(k / 12, k % 12)
  {
  }

  /** Month starts strictly increase with the month index. */
  lemma {:induction false} MonthStartMonotone(a: int, b: int)
    requires a < b
    ensures MonthStartDay(a) + 28 * (b - a) <= MonthStartDay(b)
    decreases b - a
  {
    MonthStartStep(b - 1);
    if a < b - 1 {
      MonthStartMonotone(a, b - 1);
    }
  }

  /** Search upwards from a month that starts on or before `day`. */
  function MonthUp(day: int, k: int): (r: int)
    requires MonthStartDay(k) <= day
    ensures MonthStartDay(r) <= day < MonthStartDay(r + 1)
    decreases day - MonthStartDay(k)
  {
    MonthStartStep(k);
    if day < MonthStartDay(k + 1) then k else MonthUp(day, k + 1)
  }

  /** Search downwards from a month whose successor starts after `day`. */
  function MonthDown(day: int, k: int): (r: int)
    requires day < MonthStartDay(k + 1)
    ensures MonthStartDay(r) <= day < MonthStartDay(r + 1)
    decreases MonthStartDay(k + 1) - day
  {
    MonthStartStep(k);
    if MonthStartDay(k) <= day then k else MonthDown(day, k - 1)
  }

  /** The month index of the month that contains day number `day`. */
  function MonthOfDay(day: int): (k: int)
    ensures MonthStartDay(k) <= day < MonthStartDay(k + 1)
  {
    if day >= 0 then MonthUp(day, EpochMonth) else MonthDown(day, EpochMonth - 1)
  }

  /** Only one month contains a given day. */
  lemma MonthUnique(day: int, a: int, b: int)
    requires MonthStartDay(a) <= day < MonthStartDay(a + 1)
    requires MonthStartDay(b) <= day < MonthStartDay(b + 1)
    ensures a == b
  {
    if a < b {
      if a + 1 < b { MonthStartMonotone(a + 1, b); }
    } else if b < a {
      if b + 1 < a { MonthStartMonotone(b + 1, a); }
    }
  }

  /** Sunday is 0, as `Date.prototype.getDay` numbers days. */
  function Weekday(day: int): (w: int)
    ensures 0 <= w < 7
  {
    (day + 4) % 7
  }

  /** The local day number of an instant, for a zone `offset` ms ahead of UTC. */
  function LocalDay(t: int, offset: int): int
  {
    (t + offset) / DayMs
  }

  /** The instant of local midnight starting month `k`: `new Date(year, month, 1)`. */
  function MonthStartMs(k: int, offset: int): int
  {
    MonthStartDay(k) * DayMs - offset
  }

  /** The month index of the local date of `t`: `12 * t.getFullYear() + t.getMonth()`. */
  function MonthOf(t: int, offset: int): int
  {
    MonthOfDay(LocalDay(t, offset))
  }

  /** A (year, month 1..12, day 1..31) local date. */
  datatype Date = Date(year: int, month: int, day: int)

  /** The local calendar date of instant `t`. */
  function DateOf(t: int, offset: int): (d: Date)
    ensures 1 <= d.month <= 12 && 1 <= d.day <= 31
  {
    var day := LocalDay(t, offset);
    var k := MonthOfDay(day);
    MonthStartStep(k);
    Date(k / 12, k % 12 + 1, day - MonthStartDay(k) + 1)
  }

  /** Shifting an instant by whole days shifts its local day number by as many. */
  lemma LocalDayShift(t: int, n: int, offset: int)
    ensures LocalDay(t + n * DayMs, offset) == LocalDay(t, offset) + n
  {
    var q, r := (t + offset) / DayMs, (t + offset) % DayMs;
    assert t + offset == q * DayMs + r && 0 <= r < DayMs;
    assert t + n * DayMs + offset == (q + n) * DayMs + r;
  }

  /**
   * `t` lies in the month `MonthOf` names: on or after that month's first
   * local midnight and before the next month's.
   */
  lemma MonthOfBrackets(t: int, offset: int)
    ensures MonthStartMs(MonthOf(t, offset), offset) <= t < MonthStartMs(MonthOf(t, offset) + 1, offset)
  {
    var day := LocalDay(t, offset);
    var k := MonthOfDay(day);
    assert MonthStartDay(k) <= day < MonthStartDay(k + 1);
    assert day * DayMs <= t + offset < (day + 1) * DayMs;
    ScaleByDay(MonthStartDay(k), day);
    ScaleByDay(day + 1, MonthStartDay(k + 1));
  }

  lemma ScaleByDay(a: int, b: int)
    requires a <= b
    ensures a * DayMs <= b * DayMs
  {
  }

  /** The first local midnight of month `k` is the 1st of that month, in that month. */
  lemma MonthStartIsFirst(k: int, offset: int)
    ensures LocalDay(MonthStartMs(k, offset), offset) == MonthStartDay(k)
    ensures MonthOf(MonthStartMs(k, offset), offset) == k
    ensures DateOf(MonthStartMs(k, offset), offset) == Date(k / 12, k % 12 + 1, 1)
  {
    LocalDayShift(-offset, MonthStartDay(k), offset);
    assert LocalDay(-offset, offset) == 0;
    MonthStartStep(k);
    MonthUnique(MonthStartDay(k), k, MonthOfDay(MonthStartDay(k)));
  }
}
