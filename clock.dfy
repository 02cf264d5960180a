/**
 * Wall-clock arithmetic shared by every stage of the calculator.
 *
 * An instant is a whole number of minutes since midnight of day 0 on the
 * user's local clock.  Every day has exactly 1440 minutes (no daylight-saving
 * shifts), so the date of an instant is `t / 1440` and its time of day is
 * `t % 1440` (Dafny's division is Euclidean, so this is right for negative
 * instants too).
 */
module Clock {

  type Hour = h: int | 0 <= h < 24
  type Minute = m: int | 0 <= m < 60

  /** A punch as it appears in the log: a time of day without a date. */
  datatype TimeOfDay = TimeOfDay(hour: Hour, minute: Minute) {
    function MinuteOfDay(): (m: int)
      ensures 0 <= m < 1440
    {
      hour * 60 + minute
    }
  }

  function DayOf(t: int): (r: int) {
    t / 1440
  }

  function TimeOfDayOf(t: int): (r: int) {
    t % 1440
  }

  /** The instant at time of day `tod` on day `day` (datetime.combine). */
  function At(day: int, tod: TimeOfDay): (r: int) {
    day * 1440 + tod.MinuteOfDay()
  }

  /** An instant built by At has that day as its date and that time of day. */
  lemma AtParts(day: int, tod: TimeOfDay)
    ensures DayOf(At(day, tod)) == day && TimeOfDayOf(At(day, tod)) == tod.MinuteOfDay()
  {
  }

  /** Every instant is its time of day on its date. */
  lemma InstantParts(t: int)
    ensures t == DayOf(t) * 1440 + TimeOfDayOf(t)
    ensures 0 <= TimeOfDayOf(t) < 1440
  {
  }

  /**
   * The instant reached from `t` by adding whole days, as few as possible,
   * until it is no longer before `floor`: the result of the loop
   * `while t < floor: t += timedelta(days=1)`.
   */
  function Advance(t: int, floor: int): (r: int)
    ensures floor <= r && t <= r
    ensures (r - t) % 1440 == 0
    ensures r == t || r < floor + 1440
    ensures floor <= t ==> r == t
  {
    if floor <= t then t
    else t + ((floor - t + 1440 - 1) / 1440) * 1440
  }

  /**
   * The postconditions of Advance determine it: any instant reached from `t`
   * by adding whole days that is not before `floor`, and either is `t` itself
   * or is less than one day past `floor`, is Advance(t, floor).
   */
  lemma AdvanceUnique(t: int, floor: int, r: int)
    requires floor <= r && t <= r
    requires (r - t) % 1440 == 0
    requires r == t || r < floor + 1440
    ensures r == Advance(t, floor)
  {
  }

  /**
   * Adding whole days one at a time computes Advance.  Both `while` loops of
   * the calculator (rolling a punch past the previous one, and rolling `now`
   * past an unclosed punch) are this loop.
   */
  method RollForward(t: int, floor: int) returns (r: int)
    ensures r == Advance(t, floor)
  {
    r := t;
    while r < floor
      invariant t <= r
      invariant (r - t) % 1440 == 0
      invariant r == t || r < floor + 1440
      decreases floor - r
    {
      r := r + 1440;
    }
    AdvanceUnique(t, floor, r);
  }
}
