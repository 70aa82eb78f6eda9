/** Wall-clock arithmetic of the text-back engine: instants are milliseconds since the epoch,
    a zone is an arbitrary offset function, and a calendar date is its day number. */
module WallClock {
  import opened Common

  /** Milliseconds that local time is ahead of UTC at a given instant. */
  type Zone = int -> int

  /** A minute of the day, as parseClock returns it. */
  type ClockMinute = m: nat | m < 1440

  datatype Parts = Parts(day: int, hour: nat, minute: nat, second: nat)

  /** A quiet window; a clock string that does not parse is None. */
  datatype Window = Window(start: Option<ClockMinute>, end: Option<ClockMinute>)

  ghost predicate WholeSeconds(zone: Zone) {
    forall t: int :: zone(t) % 1000 == 0
  }

  function Local(zone: Zone, t: int): int {
    t + zone(t)
  }

  /** The wall reading of an instant; milliseconds are dropped. */
  function ZonedParts(t: int, zone: Zone): Parts {
    var seconds := Local(zone, t) / 1000;
    var minutes := seconds / 60;
    var hours := minutes / 60;
    Parts(hours / 24, hours % 24, minutes % 60, seconds % 60)
  }

  function DateUTC(p: Parts): int {
    (((p.day * 24 + p.hour) * 60 + p.minute) * 60 + p.second) * 1000
  }

  /** The instant whose UTC reading is the given minute of the given day. */
  function Wall(day: int, minute: ClockMinute): int {
    (day * 1440 + minute) * 60000
  }

  /** Reading an instant and reassembling it drops only the milliseconds. */
  lemma PartsReadBack(t: int, zone: Zone)
    ensures DateUTC(ZonedParts(t, zone)) == Local(zone, t) - Local(zone, t) % 1000
  {
  }

  // ---------------------------------------------------------------- wall clock to instant

  /** `n` corrections of the candidate `utc` towards the wall time `target`, stopping early once it reads back. */
  function Corrections(target: int, utc: int, zone: Zone, n: nat): int
    decreases n
  {
    if n == 0 || Local(zone, utc) == target then utc
    else Corrections(target, target - zone(utc), zone, n - 1)
  }

  function Instant(day: int, minute: ClockMinute, zone: Zone): int {
    var target := Wall(day, minute);
    Corrections(target, target, zone, 4)
  }

  lemma WholeSum(a: int, b: int)
    requires a % 1000 == 0 && b % 1000 == 0
    ensures (a + b) % 1000 == 0 && (a - b) % 1000 == 0
  {
  }

  /** One turn of the loop is one correction. */
  lemma CorrectionStep(target: int, utc: int, zone: Zone, n: nat)
    requires WholeSeconds(zone) && target % 1000 == 0 && utc % 1000 == 0 && n > 0
    ensures var delta := target - DateUTC(ZonedParts(utc, zone));
            && (utc + delta) % 1000 == 0
            && Corrections(target, utc, zone, n) == if delta == 0 then utc else Corrections(target, utc + delta, zone, n - 1)
  {
    PartsReadBack(utc, zone);
    WholeSum(utc, zone(utc));
    WholeSum(target, zone(utc));
    assert DateUTC(ZonedParts(utc, zone)) == utc + zone(utc);
  }

  lemma WallIsDateUTC(day: int, hour: nat, minute: nat)
    requires hour < 24 && minute < 60
    ensures DateUTC(Parts(day, hour, minute, 0)) == Wall(day, hour * 60 + minute)
    ensures Wall(day, hour * 60 + minute) % 1000 == 0
  {
  }

  method ZonedTimeToUtc(day: int, hour: nat, minute: nat, zone: Zone) returns (utc: int)
    requires hour < 24 && minute < 60
    requires WholeSeconds(zone)
    ensures utc == Instant(day, hour * 60 + minute, zone)
  {
    WallIsDateUTC(day, hour, minute);
    utc := DateUTC(Parts(day, hour, minute, 0));
    var i := 0;
    while i < 4
      invariant 0 <= i <= 4
      invariant utc % 1000 == 0
      invariant Corrections(Wall(day, hour * 60 + minute), utc, zone, 4 - i) == Instant(day, hour * 60 + minute, zone)
    {
      CorrectionStep(Wall(day, hour * 60 + minute), utc, zone, 4 - i);
      var asUtc := DateUTC(ZonedParts(utc, zone));
      var target := DateUTC(Parts(day, hour, minute, 0));
      var delta := target - asUtc;
      if delta == 0 {
        break;
      }
      utc := utc + delta;
      i := i + 1;
    }
  }

  /** Within a day of `target`, the zone changes its offset at most once, from `a` to `b` at `change`,
      and no offset reaches a day. */
  ghost predicate OneTransition(zone: Zone, target: int, change: int, a: int, b: int) {
    && -86400000 < a < 86400000 && -86400000 < b < 86400000
    && forall t :: target - 86400000 <= t <= target + 86400000 ==> zone(t) == if t < change then a else b
  }

  /** Some instant near `target` reads as the wall time `target`. */
  ghost predicate WallTimeExists(zone: Zone, target: int) {
    exists t :: target - 86400000 <= t <= target + 86400000 && Local(zone, t) == target
  }

  /** A wall time near one transition exists exactly when one of the two offsets can produce it. */
  lemma ExistsByOffset(zone: Zone, target: int, change: int, a: int, b: int)
    requires OneTransition(zone, target, change, a, b)
    ensures WallTimeExists(zone, target) <==> target - a < change || target - b >= change
  {
    if target - a < change {
      assert Local(zone, target - a) == target;
    }
    if target - b >= change {
      assert Local(zone, target - b) == target;
    }
  }

  /** The loop is exact whenever the wall time exists, and two of its four corrections are enough;
      a doubled wall time resolves with the offset in force at `target` read as UTC;
      a skipped one is missed by exactly the size of the gap. */
  lemma ConvertExact(zone: Zone, day: int, minute: ClockMinute, change: int, a: int, b: int)
    requires OneTransition(zone, Wall(day, minute), change, a, b)
    ensures var target := Wall(day, minute);
            var utc := Instant(day, minute, zone);
            && (WallTimeExists(zone, target) ==>
                  Local(zone, utc) == target && utc == Corrections(target, target, zone, 2))
            && (target - a < change <= target - b ==> utc == target - zone(target))
            && (!WallTimeExists(zone, target) ==>
                  a < b && Local(zone, utc) == target + if target < change then a - b else b - a)
  {
    var target := Wall(day, minute);
    ExistsByOffset(zone, target, change, a, b);
    var u1 := target - zone(target);
    assert u1 == target - a || u1 == target - b;
    var u2 := target - zone(u1);
    assert u2 == target - a || u2 == target - b;
    assert zone(target - a) == if target - a < change then a else b;
    assert zone(target - b) == if target - b < change then a else b;
    if Local(zone, target) == target {
      assert Corrections(target, target, zone, 4) == target;
    } else if Local(zone, u1) == target {
      assert Corrections(target, u1, zone, 3) == u1;
      assert Corrections(target, u1, zone, 1) == u1;
    } else {
      assert Corrections(target, target, zone, 4) == Corrections(target, u1, zone, 3) == Corrections(target, u2, zone, 2);
      assert Corrections(target, target, zone, 2) == Corrections(target, u1, zone, 1) == Corrections(target, u2, zone, 0) == u2;
      if Local(zone, u2) == target {
        assert Corrections(target, u2, zone, 2) == u2;
      } else {
        var u3 := target - zone(u2);
        assert Corrections(target, u2, zone, 2) == Corrections(target, u3, zone, 1);
        if Local(zone, u3) != target {
          assert Corrections(target, u3, zone, 1) == target - zone(u3);
        }
      }
    }
  }

  // ---------------------------------------------------------------- quiet hours

  predicate QuietMinute(w: Window, m: nat) {
    match (w.start, w.end)
    case (Some(start), Some(end)) =>
      if start == end then false
      else if start < end then start <= m < end
      else m >= start || m < end
    case _ => false
  }

  predicate InQuietHours(t: int, zone: Zone, w: Window) {
    var parts := ZonedParts(t, zone);
    QuietMinute(w, parts.hour * 60 + parts.minute)
  }

  function AddLocalDays(t: int, zone: Zone, days: nat, minute: ClockMinute): int {
    Instant(ZonedParts(t, zone).day + days, minute, zone)
  }

  function NextWindowOpen(t: int, zone: Zone, w: Window): int {
    if !InQuietHours(t, zone, w) then t
    else
      var target := Instant(ZonedParts(t, zone).day, w.end.value, zone);
      if target <= t then AddLocalDays(t, zone, 1, w.end.value) else target
  }

  /** When the first follow-up of an estimate may go out. */
  function InitialNextSendAt(now: int, zone: Zone, w: Window): int {
    if InQuietHours(now, zone, w) then NextWindowOpen(now, zone, w) else now
  }

  /** A review request goes out two hours later, or when the window next opens after that. */
  function ReviewSendAt(now: int, zone: Zone, w: Window): int {
    var target := now + 2 * 60 * 60 * 1000;
    if InQuietHours(target, zone, w) then NextWindowOpen(target, zone, w) else target
  }

  function MinuteOfDay(local: int): nat {
    local / 60000 % 1440
  }

  lemma PartsMinute(t: int, zone: Zone)
    ensures var p := ZonedParts(t, zone);
            && p.hour * 60 + p.minute == MinuteOfDay(Local(zone, t))
            && p.day == Local(zone, t) / 86400000
  {
    var local := Local(zone, t);
    var minutes := local / 60000;
    assert local / 1000 / 60 == minutes;
    assert minutes / 60 / 24 == minutes / 1440 == local / 86400000;
    assert minutes == minutes / 60 * 60 + minutes % 60;
    assert minutes / 60 == minutes / 60 / 24 * 24 + minutes / 60 % 24;
  }

  lemma WallMinute(day: int, minute: ClockMinute)
    ensures MinuteOfDay(Wall(day, minute)) == minute && Wall(day, minute) / 86400000 == day
  {
  }

  ghost predicate FixedOffset(zone: Zone, offset: int) {
    forall t: int :: zone(t) == offset
  }

  lemma FixedInstant(zone: Zone, offset: int, day: int, minute: ClockMinute)
    requires FixedOffset(zone, offset)
    ensures Instant(day, minute, zone) == Wall(day, minute) - offset
  {
    var target := Wall(day, minute);
    if offset != 0 {
      assert Corrections(target, target, zone, 4) == Corrections(target, target - offset, zone, 3);
    }
  }

  /** The clock position of a local time inside its day. */
  lemma ClockBounds(local: int)
    ensures var d, m := local / 86400000, MinuteOfDay(local);
            && m < 1440 && Wall(d, m) <= local < Wall(d, m) + 60000
  {
    var minutes := local / 60000;
    assert minutes / 1440 == local / 86400000;
  }

  /** A local time between two minutes of one day is at a minute between them. */
  lemma MinuteBetween(local: int, day: int, lo: nat, hi: nat)
    requires lo <= hi <= 1440
    requires (day * 1440 + lo) * 60000 <= local < (day * 1440 + hi) * 60000
    ensures lo <= MinuteOfDay(local) < hi
  {
    var minutes := local / 60000;
    assert day * 1440 + lo <= minutes < day * 1440 + hi;
    assert minutes % 1440 == minutes - day * 1440;
  }

  /** With a fixed offset, nextWindowOpen is the first instant of a scan of the clock that is outside
      quiet hours, whether or not the window wraps midnight. */
  lemma NextWindowOpenIsLeast(t: int, zone: Zone, offset: int, w: Window)
    requires FixedOffset(zone, offset)
    ensures var open := NextWindowOpen(t, zone, w);
            && t <= open
            && !InQuietHours(open, zone, w)
            && forall u :: t <= u < open ==> InQuietHours(u, zone, w)
  {
    if InQuietHours(t, zone, w) {
      var start, end := w.start.value, w.end.value;
      var local := Local(zone, t);
      var day, m := local / 86400000, MinuteOfDay(local);
      PartsMinute(t, zone);
      ClockBounds(local);
      FixedInstant(zone, offset, day, end);
      FixedInstant(zone, offset, day + 1, end);
      var open := NextWindowOpen(t, zone, w);
      var openDay := if m < end then day else day + 1;
      assert open == Wall(openDay, end) - offset;
      PartsMinute(open, zone);
      WallMinute(openDay, end);
      forall u | t <= u < open
        ensures InQuietHours(u, zone, w)
      {
        QuietUntilEnd(u + offset, local, day, m, w);
        PartsMinute(u, zone);
      }
    }
  }

  /** From a quiet minute of the clock, every local time before the window's end is quiet. */
  lemma QuietUntilEnd(later: int, local: int, day: int, m: nat, w: Window)
    requires day == local / 86400000 && m == MinuteOfDay(local) && QuietMinute(w, m)
    requires local <= later < Wall(if m < w.end.value then day else day + 1, w.end.value)
    ensures QuietMinute(w, MinuteOfDay(later))
  {
    ClockBounds(local);
    if m < w.end.value {
      MinuteBetween(later, day, m, w.end.value);
    } else if later < Wall(day + 1, 0) {
      MinuteBetween(later, day, m, 1440);
    } else {
      MinuteBetween(later, day + 1, 0, w.end.value);
    }
  }

  /** An instant is quiet exactly when its local minute lies on the way round the clock from the start of the window, included,
      to its end, excluded; a window without a start or an end, or with both the same, is never quiet. */
  lemma QuietHoursAre(t: int, zone: Zone, w: Window)
    ensures InQuietHours(t, zone, w) <==>
              && w.start.Some? && w.end.Some?
              && ((t + zone(t)) % 86400000 / 60000 - w.start.value) % 1440 < (w.end.value - w.start.value) % 1440
  {
    PartsMinute(t, zone);
    if w.start.Some? && w.end.Some? {
      AroundTheClock(w.start.value, w.end.value, MinuteOfDay(Local(zone, t)));
    }
  }

  lemma AroundTheClock(start: ClockMinute, end: ClockMinute, m: nat)
    requires m < 1440
    ensures QuietMinute(Window(Some(start), Some(end)), m) <==> (m - start) % 1440 < (end - start) % 1440
  {
    assert (m - start) % 1440 == if m < start then m - start + 1440 else m - start;
    assert (end - start) % 1440 == if end < start then end - start + 1440 else end - start;
  }

  /** Texts scheduled by an estimate or by a finished job wait exactly for the first moment outside quiet hours. */
  lemma SchedulesOutsideQuietHours(now: int, zone: Zone, offset: int, w: Window)
    requires FixedOffset(zone, offset)
    ensures var first := InitialNextSendAt(now, zone, w);
            && now <= first && !InQuietHours(first, zone, w)
            && forall u :: now <= u < first ==> InQuietHours(u, zone, w)
    ensures var review := ReviewSendAt(now, zone, w);
            && now + 7200000 <= review && !InQuietHours(review, zone, w)
            && forall u :: now + 7200000 <= u < review ==> InQuietHours(u, zone, w)
  {
    NextWindowOpenIsLeast(now, zone, offset, w);
    NextWindowOpenIsLeast(now + 7200000, zone, offset, w);
  }

  /** The wall time nextWindowOpen aims at from a quiet instant. */
  function OpeningWall(t: int, zone: Zone, w: Window): int
    requires InQuietHours(t, zone, w)
  {
    var day := ZonedParts(t, zone).day;
    Wall(if Instant(day, w.end.value, zone) <= t then day + 1 else day, w.end.value)
  }

  /** The moment that a wall time converts to is outside quiet hours, for a wall time at the end of the window, exactly
      when that wall time exists or the one it is pushed to by the gap is outside the window. */
  lemma EndIsOutside(zone: Zone, w: Window, day: int, change: int, a: int, b: int)
    requires w.start.Some? && w.end.Some? && OneTransition(zone, Wall(day, w.end.value), change, a, b)
    ensures var target, open := Wall(day, w.end.value), Instant(day, w.end.value, zone);
            && (WallTimeExists(zone, target) ==> Local(zone, open) == target)
            && (!InQuietHours(open, zone, w) <==>
                  || WallTimeExists(zone, target)
                  || !QuietMinute(w, MinuteOfDay(target + if target < change then a - b else b - a)))
  {
    ConvertExact(zone, day, w.end.value, change, a, b);
    PartsMinute(Instant(day, w.end.value, zone), zone);
    WallMinute(day, w.end.value);
  }

  /** From a quiet instant nextWindowOpen converts the end of the window on one of two days. */
  lemma OpensAtEnd(t: int, zone: Zone, w: Window)
    requires InQuietHours(t, zone, w)
    ensures w.start.Some? && w.end.Some?
    ensures exists day :: OpeningWall(t, zone, w) == Wall(day, w.end.value) && NextWindowOpen(t, zone, w) == Instant(day, w.end.value, zone)
  {
    var day := ZonedParts(t, zone).day;
    var openDay := if Instant(day, w.end.value, zone) <= t then day + 1 else day;
    assert OpeningWall(t, zone, w) == Wall(openDay, w.end.value);
  }

  /** Across a clock change nextWindowOpen leaves quiet hours exactly when the end of the window exists
      on that day, or the wall time it is pushed to by the gap happens to be outside the window. */
  lemma NextWindowOpenAcrossChange(t: int, zone: Zone, w: Window, change: int, a: int, b: int)
    requires InQuietHours(t, zone, w)
    requires OneTransition(zone, OpeningWall(t, zone, w), change, a, b)
    ensures var target := OpeningWall(t, zone, w);
            var open := NextWindowOpen(t, zone, w);
            && (WallTimeExists(zone, target) ==> Local(zone, open) == target)
            && (!InQuietHours(open, zone, w) <==>
                  || WallTimeExists(zone, target)
                  || !QuietMinute(w, MinuteOfDay(target + if target < change then a - b else b - a)))
  {
    OpensAtEnd(t, zone, w);
    var day :| OpeningWall(t, zone, w) == Wall(day, w.end.value) && NextWindowOpen(t, zone, w) == Instant(day, w.end.value, zone);
    EndIsOutside(zone, w, day, change, a, b);
  }
}
