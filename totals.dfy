/**
 * The end of the calculation: totals turned into hours and minutes, and the
 * time still missing towards the daily targets of 7h30m of work and 1h30m of
 * break.
 */
module Totals {
  import opened Partitioning

  const TargetWorkMinutes: int := 450   // 7h 30m
  const TargetBreakMinutes: int := 90   // 1h 30m

  /** The pair Python's divmod(minutes, 60) returns. */
  datatype HoursMinutes = HoursMinutes(hours: int, minutes: int)

  /**
   * divmod by 60.  Python floors and Dafny divides Euclidean; for the positive
   * divisor 60 the two agree.
   */
  function SplitMinutes(m: int): (hm: HoursMinutes)
    ensures hm.hours * 60 + hm.minutes == m && 0 <= hm.minutes < 60
  {
    HoursMinutes(m / 60, m % 60)
  }

  /** `max(0, target - done)`: what is still missing, never negative. */
  function Remaining(target: int, done: int): (r: int)
    ensures r >= 0 && r >= target - done
    ensures r == 0 || r == target - done
    ensures r == 0 <==> done >= target
  {
    if target - done > 0 then target - done else 0
  }

  /** The dictionary the calculator returns; `currentTime` is `now` itself. */
  datatype Report = Report(
    workHours: int, workMinutes: int,
    breakHours: int, breakMinutes: int,
    sessions: seq<Session>, breaks: seq<Break>,
    remainingWork: HoursMinutes, remainingBreak: HoursMinutes,
    currentTime: int)

  function Summarize(sessions: seq<Session>, breaks: seq<Break>,
                     totalWorkSeconds: int, totalBreakSeconds: int, now: int): (r: Report)
    ensures r.workHours * 60 + r.workMinutes == totalWorkSeconds / 60
    ensures 0 <= r.workMinutes < 60
    ensures r.breakHours * 60 + r.breakMinutes == totalBreakSeconds / 60
    ensures 0 <= r.breakMinutes < 60
    ensures r.remainingWork.hours * 60 + r.remainingWork.minutes ==
      Remaining(TargetWorkMinutes, totalWorkSeconds / 60)
    ensures 0 <= r.remainingWork.minutes < 60 && 0 <= r.remainingWork.hours
    ensures r.remainingBreak.hours * 60 + r.remainingBreak.minutes ==
      Remaining(TargetBreakMinutes, totalBreakSeconds / 60)
    ensures 0 <= r.remainingBreak.minutes < 60 && 0 <= r.remainingBreak.hours
    ensures r.remainingWork == HoursMinutes(0, 0) <==> totalWorkSeconds / 60 >= TargetWorkMinutes
    ensures r.remainingBreak == HoursMinutes(0, 0) <==> totalBreakSeconds / 60 >= TargetBreakMinutes
    ensures r.sessions == sessions && r.breaks == breaks && r.currentTime == now
  {
    var workMinutes := totalWorkSeconds / 60;
    var work := SplitMinutes(workMinutes);
    var breakMinutes := totalBreakSeconds / 60;
    var brk := SplitMinutes(breakMinutes);
    var remainingWork := Remaining(TargetWorkMinutes, workMinutes);
    var remainingBreak := Remaining(TargetBreakMinutes, breakMinutes);
    Report(work.hours, work.minutes, brk.hours, brk.minutes, sessions, breaks,
           SplitMinutes(remainingWork), SplitMinutes(remainingBreak), now)
  }
}
