/** Instants and day counts.
    An instant is a whole number of microseconds, the resolution of the stored timestamps. */
module Clock {

  const DAY: int := 86_400_000_000

  /** The length of one paid period: what one payment buys. */
  const SUBSCRIPTION_DAYS: int := 30

  const PERIOD: int := SUBSCRIPTION_DAYS * DAY

  /** How far ahead of the expiry the reminders start. */
  const WARNING_WINDOW_DAYS: int := 3

  function Max(a: int, b: int): int {
    if a < b then b else a
  }

  /** Ceiling of span / DAY, for any sign of span. */
  function CeilDays(span: int): int {
    -((-span) / DAY)
  }

  /** Days left until `expiresAt`, rounded up, and never less than one. */
  function DaysRemaining(expiresAt: int, now: int): int {
    Max(1, CeilDays(expiresAt - now))
  }

  /** The meaning of the rounding: at most `d` days remain exactly when the expiry is at most `d` days away. */
  lemma DaysRemainingMeaning(expiresAt: int, now: int, d: int)
    requires d >= 1
    ensures DaysRemaining(expiresAt, now) <= d <==> expiresAt <= now + d * DAY
    ensures DaysRemaining(expiresAt, now) >= 1
  {
    var span := expiresAt - now;
    var q := (-span) / DAY;
    assert -span == q * DAY + (-span) % DAY;
  }

  /** The calendar in microseconds: a day, the thirty days that one payment buys, and the three of the reminders. */
  lemma Calendar()
    ensures DAY == 24 * 60 * 60 * 1_000_000
    ensures PERIOD == 2_592_000_000_000
    ensures WARNING_WINDOW_DAYS * DAY == 259_200_000_000
  {
  }

  /** One day later there is one day less to go, until the last day. */
  lemma DaysRemainingNextDay(expiresAt: int, now: int)
    ensures DaysRemaining(expiresAt, now + DAY) == Max(1, DaysRemaining(expiresAt, now) - 1)
  {
    var span := expiresAt - now;
    assert (-(span - DAY)) / DAY == (-span) / DAY + 1;
  }
}
