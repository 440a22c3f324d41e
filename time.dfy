/** Local wall-clock time. A timestamp is an integer number of milliseconds
    in the device's local time zone (the zone offset already added), so the
    calendar day, the hour and the date arithmetic of the JavaScript `Date`
    object and of date-fns become integer division and addition. */
module Time {

  const MsPerSecond: int := 1000
  const MsPerMinute: int := 60_000
  const MsPerHour: int := 3_600_000
  const MsPerDay: int := 86_400_000

  /** The calendar day of `ts`, numbered from the epoch. It stands for the
      'yyyy-MM-dd' string date-fns formats, which names each day uniquely
      and sorts in the same order. */
  function DayKey(ts: int): int {
    ts / MsPerDay
  }

  /** Milliseconds elapsed since local midnight. */
  function TimeOfDay(ts: int): (r: int)
    ensures 0 <= r < MsPerDay
    ensures ts == DayKey(ts) * MsPerDay + r
  {
    ts % MsPerDay
  }

  /** `Date.getHours()`: the local hour of the day. */
  function HourOf(ts: int): (h: int)
    ensures 0 <= h < 24
    ensures h * MsPerHour <= TimeOfDay(ts) < (h + 1) * MsPerHour
  {
    TimeOfDay(ts) / MsPerHour
  }

  /** Quotient and remainder of a division by a positive unit are unique. */
  lemma DivModUnique(q: int, r: int, n: int)
    requires 0 <= r < n
    ensures (q * n + r) / n == q
    ensures (q * n + r) % n == r
  {
    var x := q * n + r;
    var q', r' := x / n, x % n;
    assert (q' - q) * n == r - r';
    if q' > q {
      MulMonotone(q' - q, n);
    } else if q' < q {
      MulMonotone(q - q', n);
    }
  }

  lemma MulMonotone(k: int, n: int)
    requires k >= 1 && n > 0
    ensures k * n >= n
  {
  }

  /** The day number and time of day determine a timestamp, and each is recovered from it. */
  lemma DayAndTime(d: int, t: int)
    requires 0 <= t < MsPerDay
    ensures DayKey(d * MsPerDay + t) == d
    ensures TimeOfDay(d * MsPerDay + t) == t
  {
    DivModUnique(d, t, MsPerDay);
  }

  /** date-fns `subDays(ts, n)`, and equally `setDate(getDate() - n)` on a
      `Date`: the same time of day, `n` calendar days earlier. */
  function SubDays(ts: int, n: int): (r: int)
    ensures DayKey(r) == DayKey(ts) - n
    ensures TimeOfDay(r) == TimeOfDay(ts)
  {
    DayAndTime(DayKey(ts) - n, TimeOfDay(ts));
    ts - n * MsPerDay
  }

  /** `Date.setHours(h, m, s, ms)` with in-range arguments: the same day at the given clock time. */
  function SetHours(ts: int, h: int, m: int, s: int, ms: int): (r: int)
    requires 0 <= h < 24 && 0 <= m < 60 && 0 <= s < 60 && 0 <= ms < 1000
    ensures DayKey(r) == DayKey(ts)
    ensures TimeOfDay(r) == h * MsPerHour + m * MsPerMinute + s * MsPerSecond + ms
    ensures HourOf(r) == h
  {
    var t := h * MsPerHour + m * MsPerMinute + s * MsPerSecond + ms;
    DayAndTime(DayKey(ts), t);
    DivModUnique(h, m * MsPerMinute + s * MsPerSecond + ms, MsPerHour);
    DayKey(ts) * MsPerDay + t
  }
}
