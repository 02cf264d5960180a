/**
 * Stage 3: pairing the anchored instants into work sessions and the breaks
 * between them, and adding up their durations in seconds.
 *
 * Punches 0 and 1 are the first session, 2 and 3 the second, and so on; a
 * last punch without a partner opens a session that is still going on and is
 * closed provisionally at `now`.  The gap between a closed session and the
 * next punch is a break.
 */
module Partitioning {
  import opened Clock
  import opened Anchoring

  /** A work session; `ongoing` marks the one closed at `now`. */
  datatype Session = Session(start: int, end: int, seconds: int, ongoing: bool)

  datatype Break = Break(start: int, end: int, seconds: int)

  /** Seconds between two instants given in minutes. */
  function SecondsBetween(start: int, end: int): (r: int) {
    60 * (end - start)
  }

  function SessionCount(n: nat): (r: nat) {
    (n + 1) / 2
  }

  function BreakCount(n: nat): (r: nat) {
    if n == 0 then 0 else (n - 1) / 2
  }

  /** Session k: punches 2k and 2k+1, or punch 2k and `now` if punch 2k is the last. */
  function SessionAt(instants: seq<int>, now: int, k: nat): (r: Session)
    requires 2 * k < |instants|
  {
    var start := instants[2 * k];
    if 2 * k + 1 < |instants| then
      Session(start, instants[2 * k + 1], SecondsBetween(start, instants[2 * k + 1]), false)
    else
      var end := Advance(now, start);
      Session(start, end, SecondsBetween(start, end), true)
  }

  /** Break k: from the end of session k to the start of session k+1. */
  function BreakAt(instants: seq<int>, k: nat): (r: Break)
    requires 2 * k + 2 < |instants|
  {
    Break(instants[2 * k + 1], instants[2 * k + 2],
          SecondsBetween(instants[2 * k + 1], instants[2 * k + 2]))
  }

  function Sessions(instants: seq<int>, now: int): (r: seq<Session>) {
    seq(SessionCount(|instants|), k requires 0 <= k < SessionCount(|instants|) =>
      SessionAt(instants, now, k))
  }

  function Breaks(instants: seq<int>): (r: seq<Break>) {
    seq(BreakCount(|instants|), k requires 0 <= k < BreakCount(|instants|) => BreakAt(instants, k))
  }

  function WorkSeconds(sessions: seq<Session>): (r: int) {
    if sessions == [] then 0
    else WorkSeconds(sessions[..|sessions| - 1]) + sessions[|sessions| - 1].seconds
  }

  function BreakSeconds(breaks: seq<Break>): (r: int) {
    if breaks == [] then 0
    else BreakSeconds(breaks[..|breaks| - 1]) + breaks[|breaks| - 1].seconds
  }

  /** The stride-2 loop of the calculator that builds sessions and breaks. */
  method Partition(instants: seq<int>, now: int)
    returns (sessions: seq<Session>, breaks: seq<Break>, totalWorkSeconds: int, totalBreakSeconds: int)
    ensures sessions == Sessions(instants, now)
    ensures breaks == Breaks(instants)
    ensures totalWorkSeconds == WorkSeconds(sessions)
    ensures totalBreakSeconds == BreakSeconds(breaks)
  {
    sessions, breaks := [], [];
    totalWorkSeconds, totalBreakSeconds := 0, 0;
    var n := |instants|;
    var i := 0;
    while i < n
      invariant 0 <= i <= n + 1 && i % 2 == 0
      invariant |sessions| == i / 2
      invariant forall k :: 0 <= k < |sessions| ==> sessions[k] == SessionAt(instants, now, k)
      invariant |breaks| == if i / 2 <= BreakCount(n) then i / 2 else BreakCount(n)
      invariant forall k :: 0 <= k < |breaks| ==> breaks[k] == BreakAt(instants, k)
      invariant totalWorkSeconds == WorkSeconds(sessions)
      invariant totalBreakSeconds == BreakSeconds(breaks)
      decreases n - i
    {
      var inDt := instants[i];
      var outDt: int;
      var ongoing: bool;
      if i + 1 < n {
        outDt := instants[i + 1];
        ongoing := false;
      } else {
        outDt := RollForward(now, inDt);
        ongoing := true;
      }
      var diffSeconds := SecondsBetween(inDt, outDt);
      totalWorkSeconds := totalWorkSeconds + diffSeconds;
      sessions := sessions + [Session(inDt, outDt, diffSeconds, ongoing)];
      if !ongoing && i + 2 < n {
        var nextIn := instants[i + 2];
        var gap := SecondsBetween(outDt, nextIn);
        totalBreakSeconds := totalBreakSeconds + gap;
        breaks := breaks + [Break(outDt, nextIn, gap)];
      }
      i := i + 2;
    }
    assert sessions == Sessions(instants, now);
    assert breaks == Breaks(instants);
  }

  /**
   * How many sessions and breaks n punches give: (n+1)/2 sessions, of which
   * only the last can be ongoing, and it is exactly when n is odd; (n-1)/2
   * breaks.  Every session starts at an even-numbered punch, and a closed one
   * ends at the punch after it.
   */
  lemma PartitionShape(instants: seq<int>, now: int)
    ensures |Sessions(instants, now)| == (|instants| + 1) / 2
    ensures |instants| >= 1 ==> |Breaks(instants)| == (|instants| - 1) / 2
    ensures forall k :: 0 <= k < |Sessions(instants, now)| ==>
      (Sessions(instants, now)[k].ongoing <==>
         k == |Sessions(instants, now)| - 1 && |instants| % 2 == 1)
    ensures forall k :: 0 <= k < |Sessions(instants, now)| ==>
      Sessions(instants, now)[k].start == instants[2 * k] &&
      (!Sessions(instants, now)[k].ongoing ==> Sessions(instants, now)[k].end == instants[2 * k + 1])
  {
  }

  /**
   * Sessions and breaks tile the timeline: break k runs from the end of
   * session k to the start of session k+1, and every duration is the seconds
   * between its two ends.
   */
  ghost predicate Tiles(sessions: seq<Session>, breaks: seq<Break>) {
    |sessions| == |breaks| + 1 &&
    (forall k :: 0 <= k < |sessions| ==>
       sessions[k].seconds == SecondsBetween(sessions[k].start, sessions[k].end)) &&
    (forall k :: 0 <= k < |breaks| ==>
       breaks[k].seconds == SecondsBetween(breaks[k].start, breaks[k].end)) &&
    (forall k :: 0 <= k < |breaks| ==>
       breaks[k].start == sessions[k].end && breaks[k].end == sessions[k + 1].start)
  }

  lemma PartitionTiles(instants: seq<int>, now: int)
    requires |instants| >= 1
    ensures Tiles(Sessions(instants, now), Breaks(instants))
  {
  }

  /**
   * Work and break seconds together cover exactly the span from the first
   * session's start to the last session's end, without gaps or overlaps.
   */
  lemma {:induction false} TilesCover(sessions: seq<Session>, breaks: seq<Break>)
    requires Tiles(sessions, breaks)
    ensures WorkSeconds(sessions) + BreakSeconds(breaks) ==
      SecondsBetween(sessions[0].start, sessions[|sessions| - 1].end)
  {
    if |breaks| > 0 {
      var s, b := sessions[..|sessions| - 1], breaks[..|breaks| - 1];
      assert Tiles(s, b);
      TilesCover(s, b);
    }
  }

  /**
   * The totals of the calculator cover its timeline: from the first punch to
   * the end of the last session, which for an even number of punches is the
   * last punch.
   */
  lemma TotalsCoverTimeline(instants: seq<int>, now: int)
    requires |instants| >= 1
    ensures WorkSeconds(Sessions(instants, now)) + BreakSeconds(Breaks(instants)) ==
      SecondsBetween(instants[0], Sessions(instants, now)[|Sessions(instants, now)| - 1].end)
    ensures |instants| % 2 == 0 ==>
      WorkSeconds(Sessions(instants, now)) + BreakSeconds(Breaks(instants)) ==
      SecondsBetween(instants[0], instants[|instants| - 1])
  {
    PartitionTiles(instants, now);
    TilesCover(Sessions(instants, now), Breaks(instants));
  }

  /**
   * Over anchored (non-decreasing) instants no duration is negative; the
   * ongoing session ends at `now` moved forward by whole days, no earlier
   * than its start, and at `now` itself when `now` is not before its start.
   */
  lemma DurationsNonNegative(instants: seq<int>, now: int)
    requires NonDecreasing(instants)
    ensures forall k :: 0 <= k < |Sessions(instants, now)| ==>
      Sessions(instants, now)[k].start <= Sessions(instants, now)[k].end &&
      Sessions(instants, now)[k].seconds >= 0
    ensures forall k :: 0 <= k < |Breaks(instants)| ==>
      Breaks(instants)[k].start <= Breaks(instants)[k].end && Breaks(instants)[k].seconds >= 0
    ensures forall k :: 0 <= k < |Sessions(instants, now)| && Sessions(instants, now)[k].ongoing ==>
      Sessions(instants, now)[k].end == Advance(now, Sessions(instants, now)[k].start) &&
      (Sessions(instants, now)[k].start <= now ==> Sessions(instants, now)[k].end == now)
    ensures WorkSeconds(Sessions(instants, now)) >= 0 && BreakSeconds(Breaks(instants)) >= 0
  {
    var ss, bs := Sessions(instants, now), Breaks(instants);
    SumsNonNegative(ss, bs);
  }

  lemma {:induction false} SumsNonNegative(sessions: seq<Session>, breaks: seq<Break>)
    requires forall k :: 0 <= k < |sessions| ==> sessions[k].seconds >= 0
    requires forall k :: 0 <= k < |breaks| ==> breaks[k].seconds >= 0
    ensures WorkSeconds(sessions) >= 0 && BreakSeconds(breaks) >= 0
    decreases |sessions| + |breaks|
  {
    if sessions != [] {
      SumsNonNegative(sessions[..|sessions| - 1], []);
    }
    if breaks != [] {
      SumsNonNegative([], breaks[..|breaks| - 1]);
    }
  }
}
