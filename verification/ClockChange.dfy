/** Quiet hours around a clock change: when nextWindowOpen still finds the first moment outside them, and when it leaves
    them early, late or in the past. */
module ClockChange {
  import opened Common
  import opened WallClock

  // ---------------------------------------------------------------- wall times near a change

  /** Within three days of `t` the zone changes its offset at most once, from `a` to `b` at `change`, by less than a day. */
  ghost predicate OneChangeNear(zone: Zone, t: int, change: int, a: int, b: int) {
    && -86400000 < a < 86400000 && -86400000 < b < 86400000 && -86400000 < a - b < 86400000
    && forall x :: t - 259200000 <= x <= t + 259200000 ==> zone(x) == if x < change then a else b
  }

  /** The clock at `t`. */
  function LocalAt(t: int, change: int, a: int, b: int): int {
    t + if t < change then a else b
  }

  /** The instant that the loop finds for a wall time: before the change by the old offset, after it by the new one; a
      doubled wall time by the offset in force at that number of milliseconds, a skipped one by the other. */
  function Converted(wall: int, change: int, a: int, b: int): int {
    if wall - a < change && wall - b < change then wall - a
    else if wall - a >= change && wall - b >= change then wall - b
    else if wall - a < change then if wall < change then wall - a else wall - b
    else if wall < change then wall - b else wall - a
  }

  /** Two corrections end with one of the two offsets, or with none if it was right at once. */
  lemma CorrectedByOffset(target: int, zone: Zone, change: int, a: int, b: int)
    requires OneTransition(zone, target, change, a, b)
    ensures Corrections(target, target, zone, 2) in {target, target - a, target - b}
  {
    var u1 := target - zone(target);
    assert Corrections(target, target, zone, 2) == if Local(zone, target) == target then target else Corrections(target, u1, zone, 1);
    assert Corrections(target, u1, zone, 1) == if Local(zone, u1) == target then u1 else Corrections(target, target - zone(u1), zone, 0);
  }

  /** Whoever reads back as the pushed wall time is the wall time moved by the other offset. */
  lemma PushedInstant(utc: int, wall: int, change: int, a: int, b: int)
    requires wall - b < change <= wall - a
    requires LocalAt(utc, change, a, b) == wall + if wall < change then a - b else b - a
    ensures utc == if wall < change then wall - b else wall - a
  {
  }

  lemma InstantIsConverted(zone: Zone, t: int, day: int, minute: ClockMinute, change: int, a: int, b: int)
    requires OneChangeNear(zone, t, change, a, b) && -172800000 <= Wall(day, minute) - t <= 172800000
    ensures Instant(day, minute, zone) == Converted(Wall(day, minute), change, a, b)
  {
    var wall := Wall(day, minute);
    assert OneTransition(zone, wall, change, a, b);
    ExistsByOffset(zone, wall, change, a, b);
    ConvertExact(zone, day, minute, change, a, b);
    CorrectedByOffset(wall, zone, change, a, b);
    var utc := Instant(day, minute, zone);
    if !WallTimeExists(zone, wall) {
      NearInstant(zone, day, minute, change, a, b);
      PushedInstant(utc, wall, change, a, b);
    }
  }

  /** The loop stays within a day of its target. */
  lemma NearInstant(zone: Zone, day: int, minute: ClockMinute, change: int, a: int, b: int)
    requires OneTransition(zone, Wall(day, minute), change, a, b)
    ensures -86400000 < Instant(day, minute, zone) - Wall(day, minute) < 86400000
    ensures Local(zone, Instant(day, minute, zone)) == LocalAt(Instant(day, minute, zone), change, a, b)
  {
    StaysNear(Wall(day, minute), Wall(day, minute), zone, change, a, b, 4);
  }

  lemma {:induction false} StaysNear(target: int, utc: int, zone: Zone, change: int, a: int, b: int, n: nat)
    requires OneTransition(zone, target, change, a, b) && -86400000 < utc - target < 86400000
    ensures -86400000 < Corrections(target, utc, zone, n) - target < 86400000
    decreases n
  {
    if n > 0 && Local(zone, utc) != target {
      StaysNear(target, target - zone(utc), zone, change, a, b, n - 1);
    }
  }

  // ---------------------------------------------------------------- the ends of the window

  /** The end of the window that follows a quiet local time, and the end before it. */
  function NextEnd(local: int, w: Window): int
    requires w.end.Some?
  {
    Wall(local / 86400000 + if MinuteOfDay(local) < w.end.value then 0 else 1, w.end.value)
  }

  lemma NextEndIsAhead(local: int, w: Window)
    requires w.end.Some? && QuietMinute(w, MinuteOfDay(local))
    ensures local < NextEnd(local, w) <= local + 86400000
    ensures MinuteOfDay(NextEnd(local, w)) == w.end.value
    ensures MinuteOfDay(local) >= w.end.value ==> Wall(local / 86400000, w.end.value) <= local
  {
    ClockBounds(local);
    WallMinute(local / 86400000 + if MinuteOfDay(local) < w.end.value then 0 else 1, w.end.value);
  }

  /** Until then every local time is quiet. */
  lemma QuietUntilNextEnd(local: int, later: int, w: Window)
    requires w.end.Some? && QuietMinute(w, MinuteOfDay(local)) && local <= later < NextEnd(local, w)
    ensures QuietMinute(w, MinuteOfDay(later))
  {
    QuietUntilEnd(later, local, local / 86400000, MinuteOfDay(local), w);
  }

  /** It is the only end of the window within the day that follows. */
  lemma NextEndIsOnly(local: int, day: int, w: Window)
    requires w.end.Some? && Wall(day, w.end.value) - 86400000 <= local < Wall(day, w.end.value)
    ensures NextEnd(local, w) == Wall(day, w.end.value)
  {
    ClockBounds(local);
  }

  /** The window does not extend to its own end. */
  lemma EndIsNotQuiet(day: int, w: Window)
    requires w.end.Some?
    ensures !QuietMinute(w, MinuteOfDay(Wall(day, w.end.value)))
  {
    WallMinute(day, w.end.value);
  }

  // ---------------------------------------------------------------- the first moment outside quiet hours

  /** `open` is the first instant from `t` on that is outside quiet hours. */
  ghost predicate IsFirstOpen(t: int, open: int, zone: Zone, w: Window) {
    && t <= open && !InQuietHours(open, zone, w)
    && forall u :: t <= u < open ==> InQuietHours(u, zone, w)
  }

  lemma OnlyOneFirst(t: int, open: int, other: int, zone: Zone, w: Window)
    requires IsFirstOpen(t, open, zone, w) && IsFirstOpen(t, other, zone, w)
    ensures open == other
  {
  }

  predicate QuietAt(local: int, w: Window) {
    QuietMinute(w, MinuteOfDay(local))
  }

  /** From a quiet `t`: the next end of the window on the clock of `t` if the clock still runs that long; otherwise the
      change itself if it leads out of quiet hours; otherwise the next end after the change. */
  function FirstOpen(t: int, w: Window, change: int, a: int, b: int): int
    requires w.end.Some?
  {
    var next := NextEnd(LocalAt(t, change, a, b), w);
    if t >= change then next - b
    else if next - a < change then next - a
    else if !QuietAt(change + b, w) then change
    else NextEnd(change + b, w) - b
  }

  lemma QuietByClock(u: int, zone: Zone, w: Window, t: int, change: int, a: int, b: int)
    requires OneChangeNear(zone, t, change, a, b) && t - 259200000 <= u <= t + 259200000
    ensures InQuietHours(u, zone, w) <==> QuietAt(LocalAt(u, change, a, b), w)
  {
    PartsMinute(u, zone);
  }

  /** From a quiet instant on, with the clock at one offset until `end`, every instant is quiet. */
  lemma QuietStretch(from: int, u: int, offset: int, w: Window)
    requires w.end.Some? && QuietAt(from + offset, w) && from <= u && u + offset < NextEnd(from + offset, w)
    ensures QuietAt(u + offset, w)
  {
    QuietUntilNextEnd(from + offset, u + offset, w);
  }

  lemma NextEndNotQuiet(local: int, w: Window)
    requires w.end.Some? && QuietAt(local, w)
    ensures local < NextEnd(local, w) <= local + 86400000 && !QuietAt(NextEnd(local, w), w)
  {
    NextEndIsAhead(local, w);
    EndIsNotQuiet(local / 86400000 + if MinuteOfDay(local) < w.end.value then 0 else 1, w);
  }

  lemma FirstOpenBounds(t: int, w: Window, change: int, a: int, b: int)
    requires w.end.Some? && QuietAt(LocalAt(t, change, a, b), w) && -86400000 < a - b < 86400000
    ensures var open := FirstOpen(t, w, change, a, b);
            t < open <= t + 259200000 && !QuietAt(LocalAt(open, change, a, b), w)
  {
    NextEndNotQuiet(LocalAt(t, change, a, b), w);
    if QuietAt(change + b, w) {
      NextEndNotQuiet(change + b, w);
    }
  }

  lemma QuietUntilFirstOpen(t: int, u: int, w: Window, change: int, a: int, b: int)
    requires w.end.Some? && QuietAt(LocalAt(t, change, a, b), w)
    requires t <= u < FirstOpen(t, w, change, a, b)
    ensures QuietAt(LocalAt(u, change, a, b), w)
  {
    if t >= change {
      QuietStretch(t, u, b, w);
    } else if u < change {
      QuietStretch(t, u, a, w);
    } else {
      QuietStretch(change, u, b, w);
    }
  }

  /** For every zone with one change nearby, this is the first moment outside quiet hours. */
  lemma FirstOpenIsFirst(t: int, zone: Zone, w: Window, change: int, a: int, b: int)
    requires InQuietHours(t, zone, w) && OneChangeNear(zone, t, change, a, b)
    ensures w.end.Some? && IsFirstOpen(t, FirstOpen(t, w, change, a, b), zone, w)
  {
    var open := FirstOpen(t, w, change, a, b);
    QuietByClock(t, zone, w, t, change, a, b);
    FirstOpenBounds(t, w, change, a, b);
    QuietByClock(open, zone, w, t, change, a, b);
    forall u | t <= u < open
      ensures InQuietHours(u, zone, w)
    {
      QuietUntilFirstOpen(t, u, w, change, a, b);
      QuietByClock(u, zone, w, t, change, a, b);
    }
  }

  // ---------------------------------------------------------------- what nextWindowOpen returns

  /** The end of the window today if it is still to come, otherwise tomorrow's. */
  function TodayElseTomorrow(t: int, zone: Zone, day: int, end: ClockMinute): int {
    if Instant(day, end, zone) <= t then Instant(day + 1, end, zone) else Instant(day, end, zone)
  }

  /** This is what nextWindowOpen returns from a quiet instant. */
  lemma OpensTodayOrTomorrow(t: int, zone: Zone, w: Window)
    requires InQuietHours(t, zone, w)
    ensures w.start.Some? && w.end.Some? && QuietMinute(w, MinuteOfDay(Local(zone, t)))
    ensures NextWindowOpen(t, zone, w) == TodayElseTomorrow(t, zone, Local(zone, t) / 86400000, w.end.value)
  {
    PartsMinute(t, zone);
  }

  /** The same choice with the loop's instants written out. */
  function Opens(t: int, today: int, change: int, a: int, b: int): int {
    if Converted(today, change, a, b) <= t then Converted(today + 86400000, change, a, b) else Converted(today, change, a, b)
  }

  /** The end of the window on the local day of `t`. */
  function EndToday(local: int, w: Window): int
    requires w.end.Some?
  {
    Wall(local / 86400000, w.end.value)
  }

  lemma EndTodayIsNear(t: int, w: Window, change: int, a: int, b: int)
    requires w.end.Some? && -86400000 < a < 86400000 && -86400000 < b < 86400000
    ensures var today := EndToday(LocalAt(t, change, a, b), w);
            && -172800000 <= today - t <= 172800000
            && (Converted(today, change, a, b) <= t ==> -172800000 <= today + 86400000 - t <= 172800000)
  {
    ClockBounds(LocalAt(t, change, a, b));
  }

  lemma ReturnsOpens(t: int, zone: Zone, w: Window, change: int, a: int, b: int)
    requires InQuietHours(t, zone, w) && OneChangeNear(zone, t, change, a, b)
    ensures w.end.Some?
    ensures NextWindowOpen(t, zone, w) == Opens(t, EndToday(LocalAt(t, change, a, b), w), change, a, b)
  {
    OpensTodayOrTomorrow(t, zone, w);
    assert Local(zone, t) == LocalAt(t, change, a, b);
    ChoiceIsOpens(t, zone, w, LocalAt(t, change, a, b) / 86400000, change, a, b);
  }

  lemma NextDayWall(day: int, minute: ClockMinute)
    ensures Wall(day + 1, minute) == Wall(day, minute) + 86400000
  {
  }

  lemma TodayConverts(t: int, zone: Zone, w: Window, day: int, change: int, a: int, b: int)
    requires w.end.Some? && OneChangeNear(zone, t, change, a, b) && day == LocalAt(t, change, a, b) / 86400000
    ensures Instant(day, w.end.value, zone) == Converted(Wall(day, w.end.value), change, a, b)
  {
    EndTodayIsNear(t, w, change, a, b);
    InstantIsConverted(zone, t, day, w.end.value, change, a, b);
  }

  lemma TomorrowConverts(t: int, zone: Zone, w: Window, day: int, change: int, a: int, b: int)
    requires w.end.Some? && OneChangeNear(zone, t, change, a, b) && day == LocalAt(t, change, a, b) / 86400000
    requires Converted(Wall(day, w.end.value), change, a, b) <= t
    ensures Instant(day + 1, w.end.value, zone) == Converted(Wall(day, w.end.value) + 86400000, change, a, b)
  {
    EndTodayIsNear(t, w, change, a, b);
    NextDayWall(day, w.end.value);
    InstantIsConverted(zone, t, day + 1, w.end.value, change, a, b);
  }

  lemma ChoiceIsOpens(t: int, zone: Zone, w: Window, day: int, change: int, a: int, b: int)
    requires w.end.Some? && OneChangeNear(zone, t, change, a, b) && day == LocalAt(t, change, a, b) / 86400000
    ensures TodayElseTomorrow(t, zone, day, w.end.value) == Opens(t, Wall(day, w.end.value), change, a, b)
  {
    TodayConverts(t, zone, w, day, change, a, b);
    if Converted(Wall(day, w.end.value), change, a, b) <= t {
      TomorrowConverts(t, zone, w, day, change, a, b);
    }
  }

  // ---------------------------------------------------------------- when that is the first moment

  /** When nextWindowOpen hits the first moment, from the next end of the window on the clock of `t`, whether today's end
      has passed, and whether the clock is in quiet hours just after the change:
      after the change, unless the next end is doubled and taken the first time round, or today's was skipped and taken
      for one still to come;
      when the next end comes before the change, unless it is doubled and taken the second time round;
      when the clock is set back first, if the change leads into quiet hours that have no end before the next one, or
      whose doubled end is passed over;
      when it is set on first, if the next end is not skipped, or is pushed just to where it should be. */
  predicate Hits(t: int, next: int, past: bool, quiet: bool, change: int, a: int, b: int) {
    var previous := next - 86400000;
    if t >= change then
      && !(change + b <= next < change + a && next < change)
      && !(past && change + a <= previous < change + b && previous >= change && previous - a > t)
    else if next - a < change then !(change + b <= next < change + a && next >= change)
    else if b < a then
      if previous < change + b then quiet else past && previous >= change && (previous == change + b || quiet)
    else
      || next >= change + b
      || (next == change + a && next >= change && !quiet)
      || (next < change && !past && next - b <= t && quiet)
  }

  /** The arithmetic of it: `after` is the first end of the window after the change. */
  lemma HitsExactly(t: int, today: int, next: int, after: int, past: bool, quiet: bool, change: int, a: int, b: int)
    requires -86400000 < a < 86400000 && -86400000 < b < 86400000 && -86400000 < a - b < 86400000
    requires next == (if past then today + 86400000 else today) && (past <==> today <= LocalAt(t, change, a, b))
    requires next - 86400000 <= LocalAt(t, change, a, b) < next
    requires LocalAt(t, change, a, b) <= change + b < next ==> quiet
    requires change + b == next || change + b == next - 86400000 ==> !quiet
    requires after - 86400000 <= change + b < after && after in {next - 86400000, next, next + 86400000}
    ensures var first := if t >= change then next - b else if next - a < change then next - a
                         else if !quiet then change else after - b;
            Opens(t, today, change, a, b) == first <==> Hits(t, next, past, quiet, change, a, b)
  {
  }

  /** And when it returns a moment in the past: tomorrow's end is skipped and pulled back beyond `t`, or doubled and taken
      the first time round, before the change. */
  predicate GoesBack(t: int, today: int, change: int, a: int, b: int) {
    var tomorrow := today + 86400000;
    || (t < change && change + a <= tomorrow < change && tomorrow - b < t)
    || (t >= change && change + b <= tomorrow < change + a && tomorrow < change)
  }

  lemma GoesBackExactly(t: int, today: int, change: int, a: int, b: int)
    requires -86400000 < a - b < 86400000
    requires today - 86400000 <= LocalAt(t, change, a, b) < today + 86400000
    ensures Opens(t, today, change, a, b) < t <==> GoesBack(t, today, change, a, b)
  {
  }

  /** Whether today's end has passed on the clock of `t`. */
  predicate EndPassed(local: int, w: Window)
    requires w.end.Some?
  {
    MinuteOfDay(local) >= w.end.value
  }

  /** The condition at a quiet instant. */
  predicate HitsAt(t: int, w: Window, change: int, a: int, b: int)
    requires w.end.Some?
  {
    var local := LocalAt(t, change, a, b);
    Hits(t, NextEnd(local, w), EndPassed(local, w), QuietAt(change + b, w), change, a, b)
  }

  lemma EndsOfTheDay(local: int, w: Window)
    requires w.end.Some?
    ensures var today, next := EndToday(local, w), NextEnd(local, w);
            && next == (if EndPassed(local, w) then today + 86400000 else today)
            && (EndPassed(local, w) <==> today <= local)
            && next - 86400000 <= local < next
  {
    ClockBounds(local);
  }

  /** The first end after the change, next to the one after `t`. */
  lemma EndAfterChange(local: int, other: int, w: Window)
    requires w.end.Some? && NextEnd(local, w) - 172800000 <= other < NextEnd(local, w) + 86400000
    ensures NextEnd(other, w) - 86400000 <= other < NextEnd(other, w)
    ensures NextEnd(other, w) in {NextEnd(local, w) - 86400000, NextEnd(local, w), NextEnd(local, w) + 86400000}
  {
    var day := local / 86400000 + if MinuteOfDay(local) < w.end.value then 0 else 1;
    EndsOfTheDay(other, w);
    if other < Wall(day - 1, w.end.value) {
      NextEndIsOnly(other, day - 1, w);
    } else if other < Wall(day, w.end.value) {
      NextEndIsOnly(other, day, w);
    } else {
      NextEndIsOnly(other, day + 1, w);
    }
  }

  /** What is known of the clock just after the change. */
  lemma QuietAfterChange(local: int, other: int, w: Window)
    requires w.end.Some? && QuietAt(local, w)
    ensures local <= other < NextEnd(local, w) ==> QuietAt(other, w)
    ensures other == NextEnd(local, w) || other == NextEnd(local, w) - 86400000 ==> !QuietAt(other, w)
  {
    var day := local / 86400000 + if MinuteOfDay(local) < w.end.value then 0 else 1;
    EndIsNotQuiet(day, w);
    EndIsNotQuiet(day - 1, w);
    if local <= other < NextEnd(local, w) {
      QuietUntilNextEnd(local, other, w);
    }
  }

  /** What nextWindowOpen returns is the first moment outside quiet hours exactly when the condition holds. */
  lemma ReturnsFirstExactly(t: int, zone: Zone, w: Window, change: int, a: int, b: int)
    requires InQuietHours(t, zone, w) && OneChangeNear(zone, t, change, a, b)
    ensures w.end.Some?
    ensures NextWindowOpen(t, zone, w) == FirstOpen(t, w, change, a, b) <==> HitsAt(t, w, change, a, b)
  {
    QuietByClock(t, zone, w, t, change, a, b);
    ReturnsOpens(t, zone, w, change, a, b);
    OpensFirstExactly(t, w, change, a, b);
  }

  lemma OpensFirstExactly(t: int, w: Window, change: int, a: int, b: int)
    requires w.end.Some? && QuietAt(LocalAt(t, change, a, b), w)
    requires -86400000 < a < 86400000 && -86400000 < b < 86400000 && -86400000 < a - b < 86400000
    ensures Opens(t, EndToday(LocalAt(t, change, a, b), w), change, a, b) == FirstOpen(t, w, change, a, b) <==> HitsAt(t, w, change, a, b)
  {
    var local := LocalAt(t, change, a, b);
    var next := NextEnd(local, w);
    EndsOfTheDay(local, w);
    if t < change <= next - a {
      EndAfterChange(local, change + b, w);
      QuietAfterChange(local, change + b, w);
      HitsExactly(t, EndToday(local, w), next, NextEnd(change + b, w), EndPassed(local, w), QuietAt(change + b, w), change, a, b);
    } else {
      PlainHits(t, EndToday(local, w), next, EndPassed(local, w), QuietAt(change + b, w), change, a, b);
    }
  }

  /** Where the change does not come between `t` and the next end. */
  lemma PlainHits(t: int, today: int, next: int, past: bool, quiet: bool, change: int, a: int, b: int)
    requires -86400000 < a < 86400000 && -86400000 < b < 86400000 && -86400000 < a - b < 86400000
    requires next == (if past then today + 86400000 else today) && (past <==> today <= LocalAt(t, change, a, b))
    requires next - 86400000 <= LocalAt(t, change, a, b) < next && (t >= change || next - a < change)
    ensures Opens(t, today, change, a, b) == (if t >= change then next - b else next - a) <==> Hits(t, next, past, quiet, change, a, b)
  {
  }

  /** Near a clock change nextWindowOpen returns the first instant from `t` on that is outside quiet hours if and only if
      `t` is outside already or the condition holds. */
  lemma NextWindowOpenIsLeastExactly(t: int, zone: Zone, w: Window, change: int, a: int, b: int)
    requires OneChangeNear(zone, t, change, a, b)
    ensures IsFirstOpen(t, NextWindowOpen(t, zone, w), zone, w)
       <==> !InQuietHours(t, zone, w) || (w.end.Some? && HitsAt(t, w, change, a, b))
  {
    if InQuietHours(t, zone, w) {
      ReturnsFirstExactly(t, zone, w, change, a, b);
      FirstOpenIsFirst(t, zone, w, change, a, b);
      if IsFirstOpen(t, NextWindowOpen(t, zone, w), zone, w) {
        OnlyOneFirst(t, NextWindowOpen(t, zone, w), FirstOpen(t, w, change, a, b), zone, w);
      }
    }
  }

  /** The local times that the change skips or repeats, ends included. */
  predicate Jumped(local: int, change: int, a: int, b: int) {
    change + a <= local <= change + b || change + b <= local <= change + a
  }

  /** The skipped or repeated times are all quiet or all not, and the window does not end among them. */
  ghost predicate JumpIsEven(w: Window, change: int, a: int, b: int) {
    && (forall day :: w.end.Some? ==> !Jumped(Wall(day, w.end.value), change, a, b))
    && forall x, y :: Jumped(x, change, a, b) && Jumped(y, change, a, b) ==> QuietAt(x, w) == QuietAt(y, w)
  }

  /** A simple case in which the condition holds at every quiet instant. */
  lemma EvenJumpHits(t: int, w: Window, change: int, a: int, b: int)
    requires w.end.Some? && QuietAt(LocalAt(t, change, a, b), w) && JumpIsEven(w, change, a, b)
    ensures HitsAt(t, w, change, a, b)
  {
    var local := LocalAt(t, change, a, b);
    var day := local / 86400000 + if MinuteOfDay(local) < w.end.value then 0 else 1;
    NextDayWall(day - 1, w.end.value);
    assert !Jumped(Wall(day, w.end.value), change, a, b) && !Jumped(Wall(day - 1, w.end.value), change, a, b);
    EndsOfTheDay(local, w);
    QuietAfterChange(local, change + b, w);
    assert Jumped(change + b, change, a, b);
    EvenHits(t, NextEnd(local, w), EndPassed(local, w), QuietAt(change + b, w), change, a, b);
  }

  lemma EvenHits(t: int, next: int, past: bool, quiet: bool, change: int, a: int, b: int)
    requires !Jumped(next, change, a, b) && !Jumped(next - 86400000, change, a, b)
    requires next - 86400000 <= LocalAt(t, change, a, b) < next
    requires LocalAt(t, change, a, b) <= change + b < next || Jumped(LocalAt(t, change, a, b), change, a, b) ==> quiet
    ensures Hits(t, next, past, quiet, change, a, b)
  {
  }

  /** It returns a moment in the past if and only if tomorrow's end of the window is skipped and pulled back beyond `t`,
      or doubled and taken before the change. */
  lemma NextWindowOpenGoesBackExactly(t: int, zone: Zone, w: Window, change: int, a: int, b: int)
    requires InQuietHours(t, zone, w) && OneChangeNear(zone, t, change, a, b)
    ensures w.end.Some?
    ensures NextWindowOpen(t, zone, w) < t <==> GoesBack(t, EndToday(LocalAt(t, change, a, b), w), change, a, b)
  {
    ReturnsOpens(t, zone, w, change, a, b);
    EndsOfTheDay(LocalAt(t, change, a, b), w);
    GoesBackExactly(t, EndToday(LocalAt(t, change, a, b), w), change, a, b);
  }

  /** The end of the window that nextWindowOpen takes, today's or tomorrow's. */
  function EndTaken(t: int, w: Window, change: int, a: int, b: int): int
    requires w.end.Some?
  {
    var today := EndToday(LocalAt(t, change, a, b), w);
    if Converted(today, change, a, b) <= t then today + 86400000 else today
  }

  predicate Skipped(wall: int, change: int, a: int, b: int) {
    change + a <= wall < change + b
  }

  lemma ConvertedReads(wall: int, change: int, a: int, b: int)
    ensures LocalAt(Converted(wall, change, a, b), change, a, b)
         == if !Skipped(wall, change, a, b) then wall else if wall < change then wall + a - b else wall + b - a
  {
  }

  lemma ReturnsTaken(t: int, zone: Zone, w: Window, change: int, a: int, b: int)
    requires InQuietHours(t, zone, w) && OneChangeNear(zone, t, change, a, b)
    ensures w.end.Some?
    ensures NextWindowOpen(t, zone, w) == Converted(EndTaken(t, w, change, a, b), change, a, b)
    ensures t - 259200000 <= NextWindowOpen(t, zone, w) <= t + 259200000
  {
    ReturnsOpens(t, zone, w, change, a, b);
    EndTodayIsNear(t, w, change, a, b);
  }

  /** Whether the moment that an end of the window converts to is quiet. */
  lemma ConvertedIsQuiet(end: int, w: Window, change: int, a: int, b: int)
    requires !QuietAt(end, w)
    ensures !QuietAt(LocalAt(Converted(end, change, a, b), change, a, b), w)
       <==> !Skipped(end, change, a, b) || !QuietAt(if end < change then end + a - b else end + b - a, w)
  {
    ConvertedReads(end, change, a, b);
  }

  /** It leaves quiet hours, at whatever moment, if and only if the end that it takes is not skipped, or is pushed out of
      the window. */
  lemma NextWindowOpenLeavesExactly(t: int, zone: Zone, w: Window, change: int, a: int, b: int)
    requires InQuietHours(t, zone, w) && OneChangeNear(zone, t, change, a, b)
    ensures w.end.Some?
    ensures var end := EndTaken(t, w, change, a, b);
            !InQuietHours(NextWindowOpen(t, zone, w), zone, w)
            <==> !Skipped(end, change, a, b) || !QuietAt(if end < change then end + a - b else end + b - a, w)
  {
    ReturnsTaken(t, zone, w, change, a, b);
    QuietByClock(NextWindowOpen(t, zone, w), zone, w, t, change, a, b);
    TakenIsNotQuiet(t, w, change, a, b);
    ConvertedIsQuiet(EndTaken(t, w, change, a, b), w, change, a, b);
  }

  lemma TakenIsNotQuiet(t: int, w: Window, change: int, a: int, b: int)
    requires w.end.Some?
    ensures !QuietAt(EndTaken(t, w, change, a, b), w)
  {
    var day := LocalAt(t, change, a, b) / 86400000;
    EndIsNotQuiet(day, w);
    EndIsNotQuiet(day + 1, w);
  }

  lemma SchedulesByWindow(now: int, zone: Zone, w: Window)
    ensures InitialNextSendAt(now, zone, w) == NextWindowOpen(now, zone, w)
    ensures ReviewSendAt(now, zone, w) == NextWindowOpen(now + 7200000, zone, w)
  {
  }

  /** Texts that an estimate or a finished job schedules near a clock change wait for the first moment outside quiet hours
      if and only if the moment asked for is outside them or the condition holds there. */
  lemma SchedulesNearChange(now: int, zone: Zone, w: Window, change: int, a: int, b: int)
    requires OneChangeNear(zone, now, change, a, b) && OneChangeNear(zone, now + 7200000, change, a, b)
    ensures IsFirstOpen(now, InitialNextSendAt(now, zone, w), zone, w)
       <==> !InQuietHours(now, zone, w) || (w.end.Some? && HitsAt(now, w, change, a, b))
    ensures IsFirstOpen(now + 7200000, ReviewSendAt(now, zone, w), zone, w)
       <==> !InQuietHours(now + 7200000, zone, w) || (w.end.Some? && HitsAt(now + 7200000, w, change, a, b))
  {
    SchedulesByWindow(now, zone, w);
    NextWindowOpenIsLeastExactly(now, zone, w, change, a, b);
    NextWindowOpenIsLeastExactly(now + 7200000, zone, w, change, a, b);
  }

  // ---------------------------------------------------------------- changes that upset the window

  /** Chicago's spring change: an hour is skipped at 02:00, eight hours after midnight UTC. */
  function SpringForward(t: int): int {
    if t < 28800000 then -21600000 else -18000000
  }

  /** A window ending at 02:30 on that day opens at 01:30, which is still inside it. */
  lemma GapReopensInsideWindow()
    ensures var w := Window(Some(1260), Some(150));
            && InQuietHours(21600000, SpringForward, w)
            && NextWindowOpen(21600000, SpringForward, w) == 27000000
            && InQuietHours(27000000, SpringForward, w)
  {
    var w := Window(Some(1260), Some(150));
    var target := Wall(0, 150);
    assert ZonedParts(21600000, SpringForward) == Parts(0, 0, 0, 0);
    assert Corrections(target, target, SpringForward, 4) == Corrections(target, 30600000, SpringForward, 3);
    assert Corrections(target, 30600000, SpringForward, 3) == Corrections(target, 27000000, SpringForward, 2);
    assert Corrections(target, 27000000, SpringForward, 2) == Corrections(target, 30600000, SpringForward, 1);
    assert Corrections(target, 30600000, SpringForward, 1) == 27000000;
    assert ZonedParts(27000000, SpringForward) == Parts(0, 1, 30, 0);
  }

  /** Chicago's autumn change: the hour from 01:00 comes twice, from seven hours after midnight UTC on. */
  function FallBack(t: int): int {
    if t < 25200000 then -18000000 else -21600000
  }

  /** At 01:10 the second time, a window ending at 01:30 is found to have opened already, and the text waits a day,
      though the window opens twenty minutes later. */
  lemma RepeatedHourWaitsADay()
    ensures var w := Window(Some(1260), Some(90));
            && InQuietHours(25800000, FallBack, w)
            && NextWindowOpen(25800000, FallBack, w) == 113400000
            && !InQuietHours(27000000, FallBack, w)
  {
    var first, second := Wall(0, 90), Wall(1, 90);
    assert ZonedParts(25800000, FallBack) == Parts(0, 1, 10, 0);
    assert ZonedParts(27000000, FallBack) == Parts(0, 1, 30, 0);
    assert Corrections(first, first, FallBack, 4) == Corrections(first, 23400000, FallBack, 3) == 23400000;
    assert Corrections(second, second, FallBack, 4) == Corrections(second, 113400000, FallBack, 3) == 113400000;
  }

  /** Havana's spring change: the hour from midnight is skipped, five hours after midnight UTC. */
  function SkippedMidnight(t: int): int {
    if t < 18000000 then -18000000 else -14400000
  }

  /** At 23:50 a window ending at 00:30 is said to open at 23:30, twenty minutes ago. */
  lemma SkippedMidnightGoesBack()
    ensures var w := Window(Some(1320), Some(30));
            InQuietHours(17400000, SkippedMidnight, w) && NextWindowOpen(17400000, SkippedMidnight, w) == 16200000
  {
    var before, after := Wall(-1, 30), Wall(0, 30);
    assert ZonedParts(17400000, SkippedMidnight) == Parts(-1, 23, 50, 0);
    assert Corrections(before, before, SkippedMidnight, 4) == Corrections(before, -66600000, SkippedMidnight, 3) == -66600000;
    assert Corrections(after, after, SkippedMidnight, 4) == Corrections(after, 19800000, SkippedMidnight, 3);
    assert Corrections(after, 19800000, SkippedMidnight, 3) == Corrections(after, 16200000, SkippedMidnight, 2);
    assert Corrections(after, 16200000, SkippedMidnight, 2) == Corrections(after, 19800000, SkippedMidnight, 1);
    assert Corrections(after, 19800000, SkippedMidnight, 1) == 16200000;
  }
}
