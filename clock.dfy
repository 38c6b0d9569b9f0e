/**
 * Wall-clock times as the components subtract them: an "HH:MM" string becomes
 * minutes since midnight, and `(new Date(end) - new Date(start)) / 3600000`
 * becomes a difference in hours.
 */
module Clock {

  /** An "HH:MM" wall-clock time, as minutes since midnight. */
  type Minute = m: int | 0 <= m < 1440

  function At(hh: int, mm: int): (m: Minute)
    requires 0 <= hh < 24 && 0 <= mm < 60
    ensures m / 60 == hh && m % 60 == mm
  {
    hh * 60 + mm
  }

  /** Same-day subtraction of two times on 2000-01-01, in hours. */
  function HoursBetween(start: Minute, end: Minute): (h: real)
    ensures h * 60.0 == (end - start) as real
    ensures -24.0 < h < 24.0
    ensures h < 0.0 <==> end < start
  {
    (end - start) as real / 60.0
  }
}
