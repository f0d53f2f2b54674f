/**
 * Trading-calendar arithmetic shared by the generator and the validator.
 *
 * Instants are milliseconds since 1970-01-01T00:00 UTC. Days of the week use
 * Joda-Time numbering: Monday = 1, ..., Saturday = 6, Sunday = 7. The epoch
 * day, 1970-01-01, was a Thursday (4).
 */
module TradingCalendar {

  const DAY_MS: int := 86_400_000
  const SATURDAY: int := 6
  const SUNDAY: int := 7

  /** Joda's getDayOfWeek() for an instant, in UTC. */
  function DayOfWeek(t: int): (d: int)
    ensures 1 <= d <= 7
    ensures 0 <= t < DAY_MS ==> d == 4
  {
    (t / DAY_MS + 3) % 7 + 1
  }

  predicate IsWeekend(t: int) {
    DayOfWeek(t) == SATURDAY || DayOfWeek(t) == SUNDAY
  }

  /** Joda's plusDays / minusDays (no daylight-saving shifts in UTC). */
  function PlusDays(t: int, n: int): (r: int)
    ensures r - t == n * DAY_MS
  {
    t + n * DAY_MS
  }

  function MinusDays(t: int, n: int): (r: int)
    ensures t - r == n * DAY_MS
  {
    t - n * DAY_MS
  }

  /** Moving an instant by whole days moves its weekday cyclically. */
  lemma DayOfWeekAfter(t: int, n: int)
    ensures DayOfWeek(PlusDays(t, n)) == (DayOfWeek(t) - 1 + n) % 7 + 1
  {
    assert (t + n * DAY_MS) / DAY_MS == t / DAY_MS + n;
  }

  /** The day after a Saturday is a Sunday, the day after a Sunday a Monday, ... */
  lemma NextDay(t: int)
    ensures DayOfWeek(PlusDays(t, 1)) == DayOfWeek(t) % 7 + 1
  {
    DayOfWeekAfter(t, 1);
  }

  lemma PreviousDay(t: int)
    ensures DayOfWeek(MinusDays(t, 1)) == (DayOfWeek(t) + 5) % 7 + 1
  {
    DayOfWeekAfter(t, -1);
  }

  /**
   * Rolls an instant forward off a weekend, as both the generator's expiry and
   * the validator's end date do: a Saturday moves 2 days on, a Sunday 1 day
   * on; both land on the following Monday at the same time of day.
   */
  function RollForward(t: int): (r: int)
    ensures !IsWeekend(r)
    ensures t <= r <= PlusDays(t, 2)
  {
    NextDay(t);
    NextDay(PlusDays(t, 1));
    var d := if DayOfWeek(t) == SATURDAY then PlusDays(t, 2) else t;
    if DayOfWeek(d) == SUNDAY then PlusDays(d, 1) else d
  }

  /**
   * Rolls an instant backward off a weekend, as the validator's start date
   * does: a Saturday moves 1 day back, a Sunday 2 days back; both land on the
   * preceding Friday at the same time of day.
   */
  function RollBackward(t: int): (r: int)
    ensures !IsWeekend(r)
    ensures MinusDays(t, 2) <= r <= t
  {
    PreviousDay(t);
    PreviousDay(MinusDays(t, 1));
    var d := if DayOfWeek(t) == SATURDAY then MinusDays(t, 1) else t;
    if DayOfWeek(d) == SUNDAY then MinusDays(d, 2) else d
  }

  /**
   * RollForward picks the FIRST business day at or after t (same time of
   * day): it is a whole number of days after t, every day skipped is a
   * weekend day, a business day is left where it is, and a weekend lands on
   * Monday.
   */
  lemma RollForwardIsNextBusinessDay(t: int)
    ensures exists k :: 0 <= k <= 2 && RollForward(t) == PlusDays(t, k)
    ensures forall k :: 0 <= k && PlusDays(t, k) < RollForward(t) ==> IsWeekend(PlusDays(t, k))
    ensures !IsWeekend(t) ==> RollForward(t) == t
    ensures IsWeekend(t) ==> DayOfWeek(RollForward(t)) == 1
  {
    NextDay(t);
    NextDay(PlusDays(t, 1));
    NextDay(PlusDays(t, 2));
    var r := RollForward(t);
    if DayOfWeek(t) == SATURDAY {
      assert r == PlusDays(t, 2);
    } else if DayOfWeek(t) == SUNDAY {
      assert r == PlusDays(t, 1);
    } else {
      assert r == PlusDays(t, 0);
    }
  }

  /**
   * RollBackward picks the LAST business day at or before t (same time of
   * day): every day skipped is a weekend day and a weekend lands on Friday.
   */
  lemma RollBackwardIsPreviousBusinessDay(t: int)
    ensures exists k :: 0 <= k <= 2 && RollBackward(t) == MinusDays(t, k)
    ensures forall k :: 0 <= k && RollBackward(t) < MinusDays(t, k) ==> IsWeekend(MinusDays(t, k))
    ensures !IsWeekend(t) ==> RollBackward(t) == t
    ensures IsWeekend(t) ==> DayOfWeek(RollBackward(t)) == 5
  {
    PreviousDay(t);
    PreviousDay(MinusDays(t, 1));
    var r := RollBackward(t);
    if DayOfWeek(t) == SATURDAY {
      assert r == MinusDays(t, 1);
    } else if DayOfWeek(t) == SUNDAY {
      assert r == MinusDays(t, 2);
    } else {
      assert r == MinusDays(t, 0);
    }
  }

  /** Both rolls leave a business day alone, so rolling twice changes nothing. */
  lemma RollsAreIdempotent(t: int)
    ensures RollForward(RollForward(t)) == RollForward(t)
    ensures RollBackward(RollBackward(t)) == RollBackward(t)
  {
    RollForwardIsNextBusinessDay(RollForward(t));
    RollBackwardIsPreviousBusinessDay(RollBackward(t));
  }

  /** Truncation of an instant to the start of its (UTC) day. */
  function Midnight(t: int): (m: int)
    ensures m % DAY_MS == 0
    ensures m <= t < m + DAY_MS
    ensures DayOfWeek(m) == DayOfWeek(t)
  {
    t - t % DAY_MS
  }

  /** Two instants truncate to the same midnight exactly when they share a day. */
  lemma MidnightIdentifiesDay(s: int, t: int)
    ensures Midnight(s) == Midnight(t) <==> s / DAY_MS == t / DAY_MS
  {
  }

  const TWO_POW_31: int := 0x8000_0000
  const TWO_POW_32: int := 0x1_0000_0000

  /**
   * Java's Long.intValue(): keeps the low 32 bits and reads them as a signed
   * two's-complement int.
   */
  function IntValue(v: int): (r: int)
    ensures -TWO_POW_31 <= r < TWO_POW_31
    ensures (v - r) % TWO_POW_32 == 0
    ensures -TWO_POW_31 <= v < TWO_POW_31 ==> r == v
  {
    var low := v % TWO_POW_32;
    if low >= TWO_POW_31 then low - TWO_POW_32 else low
  }
}
