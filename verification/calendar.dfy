/**
 Calendar bucketing: Monday-aligned weeks over local day numbers.

 An instant is a calendar year, a day number (days since 1970-01-01, local
 time) and the seconds elapsed since that day's midnight. The year is carried
 alongside the day because the ledger and the year roll-up group by it; the
 conversion between day numbers and calendar years is not modelled.
 */
module Calendar {

  datatype DateTime = DateTime(year: int, day: int, second: int)

  /** Seconds in one day; a valid instant has its time of day below this. */
  const SecondsPerDay: int := 86400

  predicate ValidDateTime(t: DateTime) {
    0 <= t.second < SecondsPerDay
  }

  /** Day of the week, Monday = 0 ... Sunday = 6. Day 0 (1970-01-01) is a Thursday. */
  function Weekday(day: int): (w: int)
    ensures 0 <= w < 7
  {
    (day + 3) % 7
  }

  /** Position of an instant on the local timeline, in seconds since 1970-01-01 00:00:00. */
  function Instant(t: DateTime): int {
    t.day * SecondsPerDay + t.second
  }

  /**
   The same calendar day at 00:00:00: the last midnight at or before `t`,
   less than one day earlier.
   */
  function MidnightAligned(t: DateTime): (r: DateTime)
    ensures r.year == t.year && r.day == t.day
    ensures r.second == 0 && ValidDateTime(r)
    ensures ValidDateTime(t) ==> Instant(r) <= Instant(t) < Instant(r) + SecondsPerDay
  {
    DateTime(t.year, t.day, 0)
  }

  /**
   Midnight alignment is the floor to whole days: any midnight within the day
   before a valid instant is its aligned midnight, and aligning a midnight
   gives it back.
   */
  lemma MidnightAlignedUnique(t: DateTime, m: DateTime)
    requires ValidDateTime(t) && m.second == 0 && m.year == t.year
    requires Instant(m) <= Instant(t) < Instant(m) + SecondsPerDay
    ensures MidnightAligned(t) == m
    ensures MidnightAligned(m) == m
  {
  }

  /** Day number of the Monday that starts the week holding `t`. */
  function StartOfWeek(t: DateTime): (r: int)
    ensures Weekday(r) == 0
    ensures t.day - 6 <= r <= t.day
  {
    MidnightAligned(t).day - Weekday(t.day)
  }

  /** Exclusive upper bound of the week holding `t`: the next Monday. */
  function EndOfWeek(t: DateTime): (r: int)
    ensures r == StartOfWeek(t) + 7
    ensures t.day < r <= t.day + 7
    ensures Weekday(r) == 0
  {
    MidnightAligned(t).day + 7 - Weekday(t.day)
  }

  /** The Monday-aligned week is the unique window [m, m + 7) with Weekday(m) == 0 holding the day. */
  lemma StartOfWeekUnique(t: DateTime, m: int)
    requires Weekday(m) == 0
    requires m <= t.day < m + 7
    ensures StartOfWeek(t) == m
  {
    var s := StartOfWeek(t);
    // Both s and m are congruent to 4 modulo 7 and lie within six days of each other.
    assert (s + 3) % 7 == 0 && (m + 3) % 7 == 0;
    assert -6 <= s - m <= 6;
  }

  /** Two instants share a week start iff the second lies in the first one's Monday-aligned window. */
  lemma SameWeekIff(a: DateTime, b: DateTime)
    ensures StartOfWeek(a) == StartOfWeek(b) <==> StartOfWeek(a) <= b.day < StartOfWeek(a) + 7
  {
    if StartOfWeek(a) <= b.day < StartOfWeek(a) + 7 {
      StartOfWeekUnique(b, StartOfWeek(a));
    }
  }

  /** Taking the start of week of any instant on a week's Monday gives that Monday back. */
  lemma StartOfWeekIdempotent(t: DateTime, u: DateTime)
    requires u.day == StartOfWeek(t)
    ensures StartOfWeek(u) == StartOfWeek(t)
  {
    StartOfWeekUnique(u, StartOfWeek(t));
  }

  /** Day 0 is a Thursday, so no week start is day 0: the aggregator's initial "previous week" of 0 never matches. */
  lemma StartOfWeekNeverZero(t: DateTime)
    ensures StartOfWeek(t) != 0
  {
    assert Weekday(0) == 3;
  }
}
