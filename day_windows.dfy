/**
 * The day-by-day split of the requested range [globalFrom, globalTo] that the
 * command's main loop walks. A point in time is a calendar day number and the
 * second within that day (fixed-length days of 86400 seconds, no time zone).
 */
module DayWindows {

  const SecondsPerDay: int := 86400

  /** A calendar day number and a second within the day. */
  datatype Moment = Moment(day: int, second: int)

  /** A point in time of the wall clock: its second lies within its day. */
  type Time = m: Moment | 0 <= m.second < SecondsPerDay witness Moment(0, 0)

  /** `a` comes strictly before `b` (PHP's `<` on two DateTime objects). */
  predicate Before(a: Time, b: Time) {
    a.day < b.day || (a.day == b.day && a.second < b.second)
  }

  /** `a` is not after `b`. */
  predicate NotAfter(a: Time, b: Time) {
    !Before(b, a)
  }

  /** Seconds since the start of day 0: the clock as one number. */
  function Seconds(t: Time): int {
    t.day * SecondsPerDay + t.second
  }

  /** The clock order and the order of `Seconds` agree. */
  lemma {:induction false} BeforeSeconds(a: Time, b: Time)
    ensures Before(a, b) <==> Seconds(a) < Seconds(b)
  {
    if a.day < b.day {
      assert a.day * SecondsPerDay + SecondsPerDay <= b.day * SecondsPerDay;
    } else if b.day < a.day {
      assert b.day * SecondsPerDay + SecondsPerDay <= a.day * SecondsPerDay;
    }
  }

  /** `setTime(23, 59, 59)`: the last second of the day of `t`. */
  function EndOfDay(t: Time): (r: Time)
    ensures r.day == t.day && NotAfter(t, r)
  {
    Moment(t.day, SecondsPerDay - 1)
  }

  /** `add(new DateInterval('PT1S'))`: one second later, possibly on the next day. */
  function NextSecond(t: Time): (r: Time)
    ensures Before(t, r) && Seconds(r) == Seconds(t) + 1
  {
    if t.second == SecondsPerDay - 1 then Moment(t.day + 1, 0) else Moment(t.day, t.second + 1)
  }

  /** No second of the day comes after its end, and one second after the end is midnight of the next day. */
  lemma {:induction false} EndOfDayIsLastSecond(t: Time)
    ensures forall s: Time :: s.day == t.day ==> NotAfter(s, EndOfDay(t))
    ensures NextSecond(EndOfDay(t)) == Moment(t.day + 1, 0)
  {
  }

  /** One closed interval of time [start, end] handed to the time-entry fetch. */
  datatype Window = Window(start: Time, end: Time)

  /** `s` lies in window `w`. */
  predicate InWindow(s: Time, w: Window) {
    NotAfter(w.start, s) && NotAfter(s, w.end)
  }

  /** Where the window that starts at `start` ends: the end of its day, or `globalTo` if that comes first. */
  function WindowEnd(start: Time, globalTo: Time): (r: Time)
    ensures r == globalTo || r == EndOfDay(start)
    ensures NotAfter(r, globalTo) && NotAfter(r, EndOfDay(start))
  {
    if Before(globalTo, EndOfDay(start)) then globalTo else EndOfDay(start)
  }

  /**
   * The windows the loop in `execute` visits: while the start is before `globalTo`, the
   * window ends at the end of the start's day, or at `globalTo` if that comes first, and
   * the next window starts one second later.
   */
  function Windows(globalFrom: Time, globalTo: Time): (ws: seq<Window>)
    decreases Seconds(globalTo) - Seconds(globalFrom)
    ensures |ws| == 0 <==> !Before(globalFrom, globalTo)
  {
    if Before(globalFrom, globalTo) then
      var end := WindowEnd(globalFrom, globalTo);
      BeforeSeconds(globalFrom, globalTo);
      BeforeSeconds(globalFrom, NextSecond(end));
      [Window(globalFrom, end)] + Windows(NextSecond(end), globalTo)
    else
      []
  }

  /** The first window, then the windows of the rest of the range. */
  lemma {:induction false} WindowsStep(globalFrom: Time, globalTo: Time)
    requires Before(globalFrom, globalTo)
    ensures var end := WindowEnd(globalFrom, globalTo);
      Windows(globalFrom, globalTo) == [Window(globalFrom, end)] + Windows(NextSecond(end), globalTo)
  {
  }

  /**
   * The split starts at `globalFrom`, and its last window ends at `globalTo` or
   * one second before it (when `globalTo` is exactly midnight, the window of that
   * day would start at `globalTo` itself, and the loop stops before it).
   */
  lemma {:induction false} WindowsEnds(globalFrom: Time, globalTo: Time)
    requires Before(globalFrom, globalTo)
    decreases Seconds(globalTo) - Seconds(globalFrom)
    ensures var ws := Windows(globalFrom, globalTo);
      ws[0].start == globalFrom
      && (ws[|ws| - 1].end == globalTo || (NextSecond(ws[|ws| - 1].end) == globalTo && globalTo.second == 0))
  {
    var end := WindowEnd(globalFrom, globalTo);
    WindowsStep(globalFrom, globalTo);
    BeforeSeconds(globalFrom, globalTo);
    if Before(NextSecond(end), globalTo) {
      WindowsEnds(NextSecond(end), globalTo);
      var ws, rest := Windows(globalFrom, globalTo), Windows(NextSecond(end), globalTo);
      assert ws[|ws| - 1] == rest[|rest| - 1];
    }
  }

  /**
   * Window `i` of the split starts in [globalFrom, globalTo), ends at the end of
   * its start's day or at `globalTo`, whichever comes first, so it stays within
   * one calendar day; the next window starts at midnight of the following day.
   */
  lemma {:induction false} WindowAt(globalFrom: Time, globalTo: Time, i: nat)
    requires i < |Windows(globalFrom, globalTo)|
    decreases i
    ensures var ws := Windows(globalFrom, globalTo);
      && NotAfter(globalFrom, ws[i].start) && Before(ws[i].start, globalTo)
      && NotAfter(ws[i].start, ws[i].end) && NotAfter(ws[i].end, globalTo)
      && ws[i].end == WindowEnd(ws[i].start, globalTo)
      && ws[i].end.day == ws[i].start.day
      && (i + 1 < |ws| ==> ws[i + 1].start == Moment(ws[i].start.day + 1, 0))
  {
    var ws := Windows(globalFrom, globalTo);
    var end := WindowEnd(globalFrom, globalTo);
    var rest := Windows(NextSecond(end), globalTo);
    WindowsStep(globalFrom, globalTo);
    assert ws[1..] == rest;
    if i > 0 {
      WindowAt(NextSecond(end), globalTo, i - 1);
      assert ws[i] == rest[i - 1];
    }
  }

  /** Windows come in increasing order: an earlier window ends before a later one starts. */
  lemma {:induction false} WindowsOrdered(globalFrom: Time, globalTo: Time, i: nat, j: nat)
    requires i < j < |Windows(globalFrom, globalTo)|
    ensures Before(Windows(globalFrom, globalTo)[i].end, Windows(globalFrom, globalTo)[j].start)
    ensures Windows(globalFrom, globalTo)[i].start.day < Windows(globalFrom, globalTo)[j].start.day
    decreases j - i
  {
    WindowAt(globalFrom, globalTo, i);
    if j > i + 1 {
      WindowAt(globalFrom, globalTo, i + 1);
      WindowsOrdered(globalFrom, globalTo, i + 1, j);
    }
  }

  /** Every second in [globalFrom, globalTo) lies in some window: the split leaves no gap. */
  lemma {:induction false} WindowsCover(globalFrom: Time, globalTo: Time, s: Time)
    requires NotAfter(globalFrom, s) && Before(s, globalTo)
    decreases Seconds(globalTo) - Seconds(globalFrom)
    ensures exists i :: 0 <= i < |Windows(globalFrom, globalTo)| && InWindow(s, Windows(globalFrom, globalTo)[i])
  {
    var ws := Windows(globalFrom, globalTo);
    WindowsStep(globalFrom, globalTo);
    if !InWindow(s, ws[0]) {
      var next := NextSecond(ws[0].end);
      var rest := Windows(next, globalTo);
      BeforeSeconds(globalFrom, next);
      WindowsCover(next, globalTo, s);
      var k :| 0 <= k < |rest| && InWindow(s, rest[k]);
      assert ws[k + 1] == rest[k];
    }
  }

  /** No second lies in two windows: the split has no overlap. */
  lemma {:induction false} WindowsDisjoint(globalFrom: Time, globalTo: Time, s: Time, i: nat, j: nat)
    requires i < |Windows(globalFrom, globalTo)| && j < |Windows(globalFrom, globalTo)|
    requires InWindow(s, Windows(globalFrom, globalTo)[i]) && InWindow(s, Windows(globalFrom, globalTo)[j])
    ensures i == j
  {
    if i < j {
      WindowsOrdered(globalFrom, globalTo, i, j);
    } else if j < i {
      WindowsOrdered(globalFrom, globalTo, j, i);
    }
  }

  /** A window never holds a second outside the requested range [globalFrom, globalTo]. */
  lemma {:induction false} WindowsWithinRange(globalFrom: Time, globalTo: Time, s: Time, i: nat)
    requires i < |Windows(globalFrom, globalTo)| && InWindow(s, Windows(globalFrom, globalTo)[i])
    ensures NotAfter(globalFrom, s) && NotAfter(s, globalTo)
  {
    WindowAt(globalFrom, globalTo, i);
  }

  /**
   * 2024-01-01 10:00:00 to 2024-01-03 15:00:00 (UTC; day 19723 counted from
   * 1970-01-01) gives three windows: the first clipped at its start, the last at its end.
   */
  lemma ThreeDayExample()
    ensures Windows(Moment(19723, 36000), Moment(19725, 54000)) == [
      Window(Moment(19723, 36000), Moment(19723, 86399)),
      Window(Moment(19724, 0), Moment(19724, 86399)),
      Window(Moment(19725, 0), Moment(19725, 54000))]
  {
    assert Windows(Moment(19725, 54001), Moment(19725, 54000)) == [];
    assert Windows(Moment(19725, 0), Moment(19725, 54000)) == [Window(Moment(19725, 0), Moment(19725, 54000))];
    assert Windows(Moment(19724, 0), Moment(19725, 54000)) == [
      Window(Moment(19724, 0), Moment(19724, 86399)), Window(Moment(19725, 0), Moment(19725, 54000))];
  }
}
