/**
 * Stage 2: giving every bare time of day a date.  The log is assumed to start
 * today, or yesterday if its first punch would lie in the future; each later
 * punch is rolled forward by whole days until it is not before the punch
 * preceding it.
 */
module Anchoring {
  import opened Clock

  /**
   * The day the log starts on: yesterday when the first punch's time today
   * would be later than `now`, otherwise today.
   */
  function BaseDay(first: TimeOfDay, now: int): (d: int)
    ensures d == DayOf(now) - 1 <==> first.MinuteOfDay() > TimeOfDayOf(now)
    ensures d == DayOf(now) <==> first.MinuteOfDay() <= TimeOfDayOf(now)
    ensures now - 1440 < At(d, first) <= now
  {
    var today := DayOf(now);
    InstantParts(now);
    if At(today, first) > now then today - 1 else today
  }

  /**
   * The instants the anchoring loop appends, one per punch: the first punch on
   * the base day, each later one advanced past the instant before it.
   */
  function Anchored(times: seq<TimeOfDay>, baseDay: int): (r: seq<int>)
    ensures |r| == |times|
  {
    if times == [] then []
    else
      var earlier := Anchored(times[..|times| - 1], baseDay);
      var candidate := At(baseDay, times[|times| - 1]);
      earlier + [if earlier == [] then candidate else Advance(candidate, earlier[|earlier| - 1])]
  }

  /** The anchoring loop of the calculator. */
  method AnchorTimes(times: seq<TimeOfDay>, baseDay: int) returns (instants: seq<int>)
    ensures instants == Anchored(times, baseDay)
  {
    instants := [];
    var hasPrev := false;
    var prev := 0;
    for i := 0 to |times|
      invariant instants == Anchored(times[..i], baseDay)
      invariant hasPrev <==> i > 0
      invariant hasPrev ==> prev == instants[i - 1]
    {
      assert times[..i + 1][..i] == times[..i];
      var candidate := At(baseDay, times[i]);
      if !hasPrev {
        instants := instants + [candidate];
        hasPrev, prev := true, candidate;
      } else {
        candidate := RollForward(candidate, prev);
        instants := instants + [candidate];
        prev := candidate;
      }
    }
    assert times[..|times|] == times;
  }

  /** Does punch i read an earlier clock time than the punch before it? */
  predicate IsDescent(times: seq<TimeOfDay>, i: int)
    requires 0 < i < |times|
  {
    times[i].MinuteOfDay() < times[i - 1].MinuteOfDay()
  }

  /** How many of the punches 1..i read an earlier clock time than their predecessor. */
  function Descents(times: seq<TimeOfDay>, i: int): (r: nat)
    requires 0 <= i < |times|
  {
    if i == 0 then 0 else Descents(times, i - 1) + (if IsDescent(times, i) then 1 else 0)
  }

  /** The count up to punch i does not depend on the punches after it. */
  lemma {:induction false} DescentsPrefix(times: seq<TimeOfDay>, m: int, i: int)
    requires 0 <= i < m <= |times|
    ensures Descents(times[..m], i) == Descents(times, i)
  {
    if i > 0 {
      DescentsPrefix(times, m, i - 1);
    }
  }

  /**
   * Rolling a punch placed on the base day past the previous instant, which
   * shows `prevTod` on a day not before the base day, lands on the same day as
   * that instant, or on the next day when the punch's clock time is earlier.
   */
  lemma AdvanceStep(baseDay: int, day: int, prevTod: TimeOfDay, tod: TimeOfDay)
    requires baseDay <= day
    ensures Advance(At(baseDay, tod), At(day, prevTod)) ==
      At(if tod.MinuteOfDay() < prevTod.MinuteOfDay() then day + 1 else day, tod)
  {
  }

  /**
   * The closed form of anchoring: punch i lands on its own clock time, on the
   * base day plus one day for each of the punches 1..i whose clock time is
   * earlier than their predecessor's.
   */
  ghost predicate ClosedForm(times: seq<TimeOfDay>, baseDay: int, r: seq<int>) {
    |r| == |times| &&
    forall i {:trigger r[i]} :: 0 <= i < |r| ==> r[i] == At(baseDay + Descents(times, i), times[i])
  }

  lemma {:induction false} AnchoredDays(times: seq<TimeOfDay>, baseDay: int)
    ensures ClosedForm(times, baseDay, Anchored(times, baseDay))
  {
    if times != [] {
      var n := |times|;
      var front := times[..n - 1];
      var earlier := Anchored(front, baseDay);
      AnchoredDays(front, baseDay);
      var r := Anchored(times, baseDay);
      assert r == earlier + [r[n - 1]];
      forall i {:trigger r[i]} | 0 <= i < n - 1
        ensures r[i] == At(baseDay + Descents(times, i), times[i])
      {
        DescentsPrefix(times, n - 1, i);
        assert r[i] == earlier[i] && front[i] == times[i];
      }
      if n == 1 {
        assert r[0] == At(baseDay + Descents(times, 0), times[0]);
      } else {
        var day := baseDay + Descents(times, n - 2);
        DescentsPrefix(times, n - 1, n - 2);
        assert earlier[n - 2] == At(day, times[n - 2]);
        assert r[n - 1] == Advance(At(baseDay, times[n - 1]), earlier[n - 2]);
        AdvanceStep(baseDay, day, times[n - 2], times[n - 1]);
        assert r[n - 1] == At(baseDay + Descents(times, n - 1), times[n - 1]);
      }
    }
  }

  predicate NonDecreasing(s: seq<int>) {
    forall i :: 0 < i < |s| ==> s[i - 1] <= s[i]
  }

  /**
   * What the closed form implies: each instant shows its punch's clock time,
   * the first lies on the base day, and each later one is the one before it
   * plus the clock distance between the two punches, a day more when the
   * clock went backwards.
   */
  lemma ClosedFormOrder(times: seq<TimeOfDay>, baseDay: int, r: seq<int>)
    requires ClosedForm(times, baseDay, r)
    ensures forall i :: 0 <= i < |r| ==> TimeOfDayOf(r[i]) == times[i].MinuteOfDay()
    ensures |r| > 0 ==> r[0] == At(baseDay, times[0])
    ensures NonDecreasing(r)
    ensures forall i :: 0 < i < |r| ==> r[i] < r[i - 1] + 1440
    ensures forall i :: 0 < i < |r| ==>
      DayOf(r[i]) == DayOf(r[i - 1]) + (if IsDescent(times, i) then 1 else 0)
    ensures forall i :: 0 < i < |r| && times[i] == times[i - 1] ==> r[i] == r[i - 1]
  {
    forall i {:trigger r[i]} | 0 <= i < |r|
      ensures TimeOfDayOf(r[i]) == times[i].MinuteOfDay()
      ensures DayOf(r[i]) == baseDay + Descents(times, i)
    {
      AtParts(baseDay + Descents(times, i), times[i]);
    }
    forall i {:trigger r[i]} | 0 < i < |r|
      ensures r[i] - r[i - 1] ==
        (if IsDescent(times, i) then 1440 else 0) + times[i].MinuteOfDay() - times[i - 1].MinuteOfDay()
      ensures DayOf(r[i]) == DayOf(r[i - 1]) + (if IsDescent(times, i) then 1 else 0)
    {
      assert Descents(times, i) == Descents(times, i - 1) + (if IsDescent(times, i) then 1 else 0);
    }
  }

  /**
   * What anchoring guarantees: one instant per punch, each showing its punch's
   * clock time, the first on the base day; the instants never go back in time
   * and never move a whole day or more from one to the next; a punch moves to
   * the next day exactly when its clock time is earlier than the previous
   * punch's, so equal consecutive times stay on the same instant.
   */
  lemma AnchoredOrder(times: seq<TimeOfDay>, baseDay: int)
    ensures |Anchored(times, baseDay)| == |times|
    ensures forall i :: 0 <= i < |times| ==>
      TimeOfDayOf(Anchored(times, baseDay)[i]) == times[i].MinuteOfDay()
    ensures |times| > 0 ==> Anchored(times, baseDay)[0] == At(baseDay, times[0])
    ensures NonDecreasing(Anchored(times, baseDay))
    ensures forall i :: 0 < i < |times| ==>
      Anchored(times, baseDay)[i] < Anchored(times, baseDay)[i - 1] + 1440
    ensures forall i :: 0 < i < |times| ==>
      DayOf(Anchored(times, baseDay)[i]) ==
        DayOf(Anchored(times, baseDay)[i - 1]) + (if IsDescent(times, i) then 1 else 0)
    ensures forall i :: 0 < i < |times| && times[i] == times[i - 1] ==>
      Anchored(times, baseDay)[i] == Anchored(times, baseDay)[i - 1]
  {
    AnchoredDays(times, baseDay);
    ClosedFormOrder(times, baseDay, Anchored(times, baseDay));
  }

  /** Non-decreasing between neighbours means non-decreasing between any two. */
  lemma {:induction false} NonDecreasingPairs(s: seq<int>, i: int, j: int)
    requires NonDecreasing(s)
    requires 0 <= i <= j < |s|
    ensures s[i] <= s[j]
    decreases j - i
  {
    if i < j {
      NonDecreasingPairs(s, i, j - 1);
    }
  }

  /** An earlier punch never lands after a later one, however far apart they are. */
  lemma AnchoredPairs(times: seq<TimeOfDay>, baseDay: int)
    ensures forall i, j :: 0 <= i <= j < |times| ==>
      Anchored(times, baseDay)[i] <= Anchored(times, baseDay)[j]
  {
    AnchoredOrder(times, baseDay);
    forall i, j | 0 <= i <= j < |times|
      ensures Anchored(times, baseDay)[i] <= Anchored(times, baseDay)[j]
    {
      NonDecreasingPairs(Anchored(times, baseDay), i, j);
    }
  }

  /** The first instant of a log anchored at its BaseDay is never after `now`. */
  lemma FirstNotAfterNow(times: seq<TimeOfDay>, now: int)
    requires |times| > 0
    ensures now - 1440 < Anchored(times, BaseDay(times[0], now))[0] <= now
  {
    var baseDay := BaseDay(times[0], now);
    AnchoredOrder(times, baseDay);
  }
}
