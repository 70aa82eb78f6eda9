/** The clock for scheduled workflows: which slot an instant belongs to, and starting each slot once. Instants are
    microseconds since the epoch, UTC. */
module Ticker {
  // ---------------------------------------------------------------- slots

  /** `slot` is the greatest scheduled time not after `now`. */
  ghost predicate Latest(scheduled: int -> bool, now: int, slot: int) {
    slot <= now && scheduled(slot) && forall t :: slot < t <= now ==> !scheduled(t)
  }

  /** Slots found this way never run backwards, and a slot is its own slot. */
  lemma LatestIsMonotone(scheduled: int -> bool, now: int, slot: int, now': int, slot': int)
    requires Latest(scheduled, now, slot) && Latest(scheduled, now', slot') && now <= now'
    ensures slot <= slot' && Latest(scheduled, slot, slot)
    ensures now' == slot ==> slot' == slot
  {
    assert slot' < slot <= now' ==> !scheduled(slot);
  }

  predicate EveryTenMinutes(t: int) {
    t % 600000000 == 0
  }

  /** The minute is rounded down to ten, and seconds and below are cleared. */
  function SlotEvery10Min(now: int): int {
    var minute := now / 60000000 % 60;
    now - now % 60000000 - minute % 10 * 60000000
  }

  lemma LastDigitIs(x: int, q: int, r: int)
    requires x == 10 * q + r && 0 <= r < 10
    ensures x % 10 == r && x / 10 == q
  {
  }

  lemma TensOfHour(minute: int)
    ensures minute % 60 % 10 == minute % 10
  {
    var h, m := minute / 60, minute % 60;
    LastDigitIs(minute, 6 * h + m / 10, m % 10);
  }

  lemma SlotIsMultiple(now: int)
    ensures var q := now / 60000000 / 10;
            SlotEvery10Min(now) == q * 600000000 && q * 600000000 <= now < (q + 1) * 600000000
  {
    var minutes := now / 60000000;
    TensOfHour(minutes);
    assert minutes == minutes / 10 * 10 + minutes % 10;
  }

  lemma NoMultipleBetween(q: int, t: int)
    requires q * 600000000 < t < (q + 1) * 600000000
    ensures t % 600000000 != 0
  {
  }

  lemma SlotEvery10MinIsLatest(now: int)
    ensures Latest(EveryTenMinutes, now, SlotEvery10Min(now))
  {
    var q := now / 60000000 / 10;
    SlotIsMultiple(now);
    forall t | SlotEvery10Min(now) < t <= now
      ensures !EveryTenMinutes(t)
    {
      NoMultipleBetween(q, t);
    }
  }

  /** Minute seventeen of an hour, counted from the epoch. */
  function Minute17(hour: int): int {
    hour * 3600000000 + 1020000000
  }

  /** Seventeen minutes past every third hour of the day. */
  predicate EveryThirdHour(t: int) {
    t == Minute17(t / 3600000000) && t / 3600000000 % 24 % 3 == 0
  }

  /** The last hour whose minute seventeen has come. */
  function LastHour(now: int): int {
    (now - 1020000000) / 3600000000
  }

  function SlotLeadEngine(now: int): int {
    Minute17(LastHour(now) - LastHour(now) % 3)
  }

  lemma SlotLeadEngineIsLatest(now: int)
    ensures Latest(EveryThirdHour, now, SlotLeadEngine(now))
  {
    var last := LastHour(now);
    ThirdHourSlot(last);
    LastHourBounds(now);
    forall t | SlotLeadEngine(now) < t <= now
      ensures !EveryThirdHour(t)
    {
      NoSlotBetween(t, last);
    }
  }

  lemma HourOfMinute17(hour: int)
    ensures Minute17(hour) / 3600000000 == hour
  {
  }

  lemma RemainderIs(x: int, q: int, r: int)
    requires x == 3 * q + r && 0 <= r < 3
    ensures x % 3 == r
  {
  }

  lemma ThirdOfDay(hour: int)
    ensures hour % 24 % 3 == hour % 3
  {
    var d, h := hour / 24, hour % 24;
    RemainderIs(hour, 8 * d + h / 3, h % 3);
  }

  lemma ThirdHourSlot(last: int)
    ensures EveryThirdHour(Minute17(last - last % 3))
  {
    HourOfMinute17(last - last % 3);
    ThirdOfDay(last - last % 3);
  }

  lemma LastHourBounds(now: int)
    ensures Minute17(LastHour(now)) <= now < Minute17(LastHour(now) + 1)
  {
  }

  lemma BetweenThirds(hour: int, last: int)
    requires last - last % 3 < hour <= last
    ensures hour % 3 != 0
  {
    var q := last / 3;
    assert last == 3 * q + last % 3 && 1 <= hour - 3 * q <= 2;
  }

  lemma NoSlotBetween(t: int, last: int)
    requires Minute17(last - last % 3) < t < Minute17(last + 1)
    ensures !EveryThirdHour(t)
  {
    var hour, first := t / 3600000000, last - last % 3;
    ThirdOfDay(hour);
    if t == Minute17(hour) {
      assert first < hour < last + 1;
      BetweenThirds(hour, last);
    }
  }

  /** Walks back hour by hour from minute seventeen of the current hour; three steps are always enough. */
  method FindSlotLeadEngine(now: int) returns (slot: int, ghost steps: nat)
    ensures slot == SlotLeadEngine(now) && steps <= 3
  {
    var hour := now / 3600000000;
    ghost var last := LastHour(now);
    ghost var goal := last - last % 3;
    steps := 0;
    while Minute17(hour) > now || hour % 24 % 3 != 0
      invariant goal <= hour <= last + 1
      invariant steps == now / 3600000000 - hour
      decreases hour - goal
    {
      ThirdOfDay(hour);
      hour := hour - 1;
      steps := steps + 1;
    }
    ThirdOfDay(hour);
    slot := Minute17(hour);
  }

  /** A clock that shows local hours: which hour an instant falls in, and the instant an hour is taken to begin at. */
  datatype LocalClock = LocalClock(hourAt: int -> int, begins: int -> int)

  /** Every second hour from seven to twenty-three. */
  predicate AlertHour(hour: int) {
    7 <= hour % 24 && hour % 24 % 2 == 1
  }

  /** The clock passes every alert hour once, going forward: no time change touches them. */
  ghost predicate Steady(clock: LocalClock) {
    forall hour, t {:trigger clock.begins(hour), clock.hourAt(t)} ::
      AlertHour(hour) ==> (clock.hourAt(t) >= hour <==> t >= clock.begins(hour))
  }

  ghost predicate AlertTime(clock: LocalClock, t: int) {
    exists hour :: AlertHour(hour) && clock.begins(hour) == t
  }

  function LastAlertHour(hour: int): int {
    var h := hour % 24;
    if h < 7 then hour - h - 1 else if h % 2 == 1 then hour else hour - 1
  }

  lemma LastAlertHourIsLast(hour: int)
    ensures var last := LastAlertHour(hour);
            && AlertHour(last) && last <= hour <= last + 7
            && forall h :: last < h <= hour ==> !AlertHour(h)
  {
    var day, h := hour / 24, hour % 24;
    var last := LastAlertHour(hour);
    assert last % 24 == if h < 7 then 23 else if h % 2 == 1 then h else h - 1 by {
      assert last == if h < 7 then (day - 1) * 24 + 23 else if h % 2 == 1 then day * 24 + h else day * 24 + (h - 1);
    }
    forall g | last < g <= hour
      ensures !AlertHour(g)
    {
      assert g == day * 24 + (g - day * 24) && 0 <= g - day * 24 < 24;
      assert g % 24 == g - day * 24;
    }
  }

  /** The last alert hour on the clock begins at the latest alert time. */
  lemma AlertSlotIsLatest(now: int, clock: LocalClock)
    requires Steady(clock)
    ensures var last := LastAlertHour(clock.hourAt(now));
            clock.begins(last) <= now && Latest(t => AlertTime(clock, t), now, clock.begins(last))
  {
    var last := LastAlertHour(clock.hourAt(now));
    LastAlertHourIsLast(clock.hourAt(now));
    var slot := clock.begins(last);
    assert clock.hourAt(now) >= last;
    forall t | slot < t <= now
      ensures !AlertTime(clock, t)
    {
      forall h | AlertHour(h)
        ensures clock.begins(h) != t
      {
        assert clock.hourAt(now) >= h <==> now >= clock.begins(h);
        assert clock.hourAt(slot) >= last;
        assert clock.hourAt(slot) >= h <==> slot >= clock.begins(h);
      }
    }
  }

  /** Walks back over local hours; at most seven steps, in the early morning. */
  method FindSlotEmailAlerts(now: int, clock: LocalClock) returns (slot: int, ghost steps: nat)
    requires Steady(clock)
    ensures Latest(t => AlertTime(clock, t), now, slot) && steps <= 7
  {
    var hour := clock.hourAt(now);
    ghost var last := LastAlertHour(hour);
    LastAlertHourIsLast(hour);
    AlertSlotIsLatest(now, clock);
    steps := 0;
    while !AlertHour(hour) || clock.begins(hour) > now
      invariant last <= hour && steps == clock.hourAt(now) - hour
      decreases hour - last
    {
      hour := hour - 1;
      steps := steps + 1;
    }
    slot := clock.begins(hour);
  }

  // ---------------------------------------------------------------- starting each slot once

  /** `slotAt` is one of the slot functions above, or any other that never runs ahead of the clock. */
  datatype Target = Target(workflow: string, slotAt: int -> int, grace: int)

  datatype WorkflowRun = WorkflowRun(workflow: string, created: int)

  /** A start by this ticker. */
  datatype Start = Start(workflow: string, slot: int)

  /** How the API behaves for one target: the query or the dispatch may fail, and a failed dispatch may still have
      created its run. */
  datatype Api = Works | QueryFails | DispatchFails(created: bool)

  datatype Ticks = Ticks(done: map<string, int>, runs: seq<WorkflowRun>, starts: seq<Start>)

  predicate RanSince(runs: seq<WorkflowRun>, workflow: string, since: int) {
    exists r <- runs :: r.workflow == workflow && r.created >= since
  }

  function TickOne(s: Ticks, target: Target, now: int, api: Api): Ticks {
    var slot := target.slotAt(now);
    if target.workflow in s.done && s.done[target.workflow] == slot then s
    else if api == QueryFails then s
    else if RanSince(s.runs, target.workflow, slot) || now - slot > target.grace then
      s.(done := s.done[target.workflow := slot])
    else if api == DispatchFails(false) then s
    else
      var started := s.(runs := s.runs + [WorkflowRun(target.workflow, now)], starts := s.starts + [Start(target.workflow, slot)]);
      if api.DispatchFails? then started else started.(done := s.done[target.workflow := slot])
  }

  function Tick(s: Ticks, targets: seq<Target>, now: int, api: nat -> Api): Ticks {
    if targets == [] then s
    else
      var n := |targets| - 1;
      TickOne(Tick(s, targets[..n], now, api), targets[n], now, api(n))
  }

  /** Runs appear for other reasons, and a new ticker starts with nothing marked as done. */
  datatype Event = TickAt(now: int, api: nat -> Api) | OtherRun(run: WorkflowRun) | Restart

  function Step(s: Ticks, targets: seq<Target>, ev: Event): Ticks {
    match ev
    case TickAt(now, api) => Tick(s, targets, now, api)
    case OtherRun(run) => s.(runs := s.runs + [run])
    case Restart => s.(done := map[])
  }

  function Run(targets: seq<Target>, events: seq<Event>): Ticks {
    if events == [] then Ticks(map[], [], [])
    else Step(Run(targets, events[..|events| - 1]), targets, events[|events| - 1])
  }

  ghost predicate NeverAhead(target: Target) {
    forall now: int :: target.slotAt(now) <= now
  }

  function Starts(starts: seq<Start>, start: Start): nat {
    if starts == [] then 0 else Starts(starts[..|starts| - 1], start) + if starts[|starts| - 1] == start then 1 else 0
  }

  lemma StartsSnoc(starts: seq<Start>, last: Start, start: Start)
    ensures Starts(starts + [last], start) == Starts(starts, start) + if last == start then 1 else 0
  {
    assert (starts + [last])[..|starts|] == starts;
  }

  /** No slot was started twice, and every started slot has a run that the next query will see. */
  ghost predicate Sound(s: Ticks) {
    forall start: Start :: Starts(s.starts, start) <= 1 && (Starts(s.starts, start) == 1 ==> RanSince(s.runs, start.workflow, start.slot))
  }

  lemma MoreRuns(runs: seq<WorkflowRun>, run: WorkflowRun, workflow: string, since: int)
    ensures RanSince(runs + [run], workflow, since) <==>
            RanSince(runs, workflow, since) || (run.workflow == workflow && run.created >= since)
  {
    if RanSince(runs, workflow, since) {
      var r :| r in runs && r.workflow == workflow && r.created >= since;
      assert r in runs + [run];
    }
    assert run in runs + [run];
  }

  lemma TickOneSound(s: Ticks, target: Target, now: int, api: Api)
    requires Sound(s) && NeverAhead(target)
    ensures Sound(TickOne(s, target, now, api))
  {
    var after := TickOne(s, target, now, api);
    var mine := Start(target.workflow, target.slotAt(now));
    if after.starts != s.starts {
      forall start: Start
        ensures Starts(after.starts, start) <= 1
        ensures Starts(after.starts, start) == 1 ==> RanSince(after.runs, start.workflow, start.slot)
      {
        StartsSnoc(s.starts, mine, start);
        MoreRuns(s.runs, WorkflowRun(target.workflow, now), start.workflow, start.slot);
      }
    }
  }

  lemma {:induction false} TickSound(s: Ticks, targets: seq<Target>, now: int, api: nat -> Api)
    requires Sound(s) && forall target <- targets :: NeverAhead(target)
    ensures Sound(Tick(s, targets, now, api))
  {
    if targets != [] {
      var n := |targets| - 1;
      TickSound(s, targets[..n], now, api);
      assert targets[n] in targets;
      TickOneSound(Tick(s, targets[..n], now, api), targets[n], now, api(n));
    }
  }

  /** Over any series of ticks, failing calls, other runs and restarts of the ticker, whatever the clock shows,
      each slot of a workflow is started at most once. */
  lemma {:induction false} AtMostOncePerSlot(targets: seq<Target>, events: seq<Event>)
    requires forall target <- targets :: NeverAhead(target)
    ensures Sound(Run(targets, events))
  {
    if events != [] {
      var before, ev := Run(targets, events[..|events| - 1]), events[|events| - 1];
      AtMostOncePerSlot(targets, events[..|events| - 1]);
      match ev {
        case TickAt(now, api) => TickSound(before, targets, now, api);
        case OtherRun(run) =>
          forall start: Start {
            MoreRuns(before.runs, run, start.workflow, start.slot);
          }
        case Restart =>
      }
    }
  }

  // ---------------------------------------------------------------- a slot within its grace is started

  /** A slot is marked done only when it has a run or is past its grace at the latest time seen. */
  ghost predicate DoneFor(s: Ticks, target: Target, latest: int) {
    target.workflow in s.done ==>
      RanSince(s.runs, target.workflow, s.done[target.workflow]) || latest - s.done[target.workflow] > target.grace
  }

  predicate DistinctWorkflows(targets: seq<Target>) {
    forall i, j :: 0 <= i < j < |targets| ==> targets[i].workflow != targets[j].workflow
  }

  /** What one target's turn does to itself. */
  lemma TickOneStarts(s: Ticks, target: Target, latest: int, now: int, api: Api)
    requires Sound(s) && NeverAhead(target) && DoneFor(s, target, latest) && latest <= now
    ensures var after := TickOne(s, target, now, api);
            var slot := target.slotAt(now);
            && DoneFor(after, target, now)
            && (api == Works && now - slot <= target.grace ==> RanSince(after.runs, target.workflow, slot))
            && (api == Works && now - slot <= target.grace && !RanSince(s.runs, target.workflow, slot) ==>
                  Starts(after.starts, Start(target.workflow, slot)) == 1)
  {
    var slot := target.slotAt(now);
    var mine := Start(target.workflow, slot);
    MoreRuns(s.runs, WorkflowRun(target.workflow, now), target.workflow, slot);
    StartsSnoc(s.starts, mine, mine);
    if target.workflow in s.done {
      MoreRuns(s.runs, WorkflowRun(target.workflow, now), target.workflow, s.done[target.workflow]);
    }
  }

  /** And to another workflow: nothing. */
  lemma TickOneLeavesOthers(s: Ticks, target: Target, now: int, api: Api, other: Target, since: int)
    requires target.workflow != other.workflow
    ensures var after := TickOne(s, target, now, api);
            && (other.workflow in after.done <==> other.workflow in s.done)
            && (other.workflow in s.done ==> after.done[other.workflow] == s.done[other.workflow])
            && (RanSince(after.runs, other.workflow, since) <==> RanSince(s.runs, other.workflow, since))
            && Starts(after.starts, Start(other.workflow, since)) == Starts(s.starts, Start(other.workflow, since))
  {
    MoreRuns(s.runs, WorkflowRun(target.workflow, now), other.workflow, since);
    StartsSnoc(s.starts, Start(target.workflow, target.slotAt(now)), Start(other.workflow, since));
  }

  lemma {:induction false} OthersUntouched(s: Ticks, targets: seq<Target>, now: int, api: nat -> Api, other: Target, since: int)
    requires forall target <- targets :: target.workflow != other.workflow
    ensures var after := Tick(s, targets, now, api);
            && (other.workflow in after.done <==> other.workflow in s.done)
            && (other.workflow in s.done ==> after.done[other.workflow] == s.done[other.workflow])
            && (RanSince(after.runs, other.workflow, since) <==> RanSince(s.runs, other.workflow, since))
            && Starts(after.starts, Start(other.workflow, since)) == Starts(s.starts, Start(other.workflow, since))
  {
    if targets != [] {
      var n := |targets| - 1;
      OthersUntouched(s, targets[..n], now, api, other, since);
      assert targets[n] in targets;
      TickOneLeavesOthers(Tick(s, targets[..n], now, api), targets[n], now, api(n), other, since);
    }
  }

  /** A tick whose calls succeed for a target, made within its grace, leaves the slot with a run; if there was none
      before, that run is the ticker's one start of it. */
  lemma {:induction false} TickStarts(s: Ticks, targets: seq<Target>, latest: int, now: int, api: nat -> Api, i: nat)
    requires Sound(s) && DistinctWorkflows(targets) && i < |targets| && latest <= now
    requires forall target <- targets :: NeverAhead(target)
    requires DoneFor(s, targets[i], latest)
    ensures var after, target := Tick(s, targets, now, api), targets[i];
            var slot := target.slotAt(now);
            && DoneFor(after, target, now)
            && (api(i) == Works && now - slot <= target.grace ==> RanSince(after.runs, target.workflow, slot))
            && (api(i) == Works && now - slot <= target.grace && !RanSince(s.runs, target.workflow, slot) ==>
                  Starts(after.starts, Start(target.workflow, slot)) == 1)
  {
    var n := |targets| - 1;
    var before, target := Tick(s, targets[..n], now, api), targets[i];
    var slot := target.slotAt(now);
    assert targets[n] in targets;
    TickSound(s, targets[..n], now, api);
    if i == n {
      OthersUntouched(s, targets[..n], now, api, target, slot);
      if target.workflow in s.done {
        OthersUntouched(s, targets[..n], now, api, target, s.done[target.workflow]);
      }
      TickOneStarts(before, target, latest, now, api(n));
    } else {
      TickStarts(s, targets[..n], latest, now, api, i);
      TickOneLeavesOthers(before, targets[n], now, api(n), target, slot);
      if target.workflow in before.done {
        TickOneLeavesOthers(before, targets[n], now, api(n), target, before.done[target.workflow]);
      }
    }
  }

  /** The ticks of a run never go back in time, and none is later than `now`. */
  predicate Ordered(events: seq<Event>, now: int) {
    events == [] ||
    var last := events[|events| - 1];
    if last.TickAt? then last.now <= now && Ordered(events[..|events| - 1], last.now) else Ordered(events[..|events| - 1], now)
  }

  lemma {:induction false} DoneOverRuns(targets: seq<Target>, events: seq<Event>, now: int, i: nat)
    requires DistinctWorkflows(targets) && i < |targets| && Ordered(events, now)
    requires forall target <- targets :: NeverAhead(target)
    ensures DoneFor(Run(targets, events), targets[i], now)
  {
    if events != [] {
      var n := |events| - 1;
      var before, ev := Run(targets, events[..n]), events[n];
      DoneOverRuns(targets, events[..n], if ev.TickAt? then ev.now else now, i);
      AtMostOncePerSlot(targets, events[..n]);
      match ev {
        case TickAt(at, api) => TickStarts(before, targets, at, at, api, i);
        case OtherRun(run) =>
          if targets[i].workflow in before.done {
            MoreRuns(before.runs, run, targets[i].workflow, before.done[targets[i].workflow]);
          }
        case Restart =>
      }
    }
  }

  /** After any run, a tick whose calls succeed for a target and that comes within its grace leaves the slot with a
      run, and starts it exactly once in all if nothing else has run since the slot. */
  lemma StartedWithinGrace(targets: seq<Target>, events: seq<Event>, now: int, api: nat -> Api, i: nat)
    requires DistinctWorkflows(targets) && i < |targets| && Ordered(events, now)
    requires forall target <- targets :: NeverAhead(target)
    requires api(i) == Works && now - targets[i].slotAt(now) <= targets[i].grace
    ensures var before, after := Run(targets, events), Run(targets, events + [TickAt(now, api)]);
            var workflow, slot := targets[i].workflow, targets[i].slotAt(now);
            && RanSince(after.runs, workflow, slot)
            && (!RanSince(before.runs, workflow, slot) ==> Starts(after.starts, Start(workflow, slot)) == 1)
  {
    AtMostOncePerSlot(targets, events);
    DoneOverRuns(targets, events, now, i);
    assert (events + [TickAt(now, api)])[..|events|] == events;
    TickStarts(Run(targets, events), targets, now, now, api, i);
  }

  // ---------------------------------------------------------------- exactly once

  /** Later instants have no earlier slots, and a slot is its own slot. */
  ghost predicate Orderly(target: Target) {
    && (forall t, now {:trigger target.slotAt(t), target.slotAt(now)} :: t <= now ==> target.slotAt(t) <= target.slotAt(now))
    && (forall now :: target.slotAt(target.slotAt(now)) == target.slotAt(now))
  }

  /** No run of the workflow from the slot on was created by anything but the ticker. */
  ghost predicate Alone(events: seq<Event>, workflow: string, slot: int) {
    forall ev <- events :: ev.OtherRun? && ev.run.workflow == workflow ==> ev.run.created < slot
  }

  /** Every run of the workflow from the slot on was started by the ticker, at or before `now`, for the slot of its time. */
  ghost predicate StartedHere(s: Ticks, target: Target, slot: int, now: int) {
    forall r <- s.runs :: r.workflow == target.workflow && r.created >= slot ==>
      r.created <= now && Starts(s.starts, Start(target.workflow, target.slotAt(r.created))) > 0
  }

  /** A start of the ticker's own keeps that. */
  lemma StartStartedHere(s: Ticks, target: Target, now: int, mine: Target, slot: int, done: map<string, int>)
    requires StartedHere(s, mine, slot, now) && (target.workflow == mine.workflow ==> target == mine)
    ensures StartedHere(Ticks(done, s.runs + [WorkflowRun(target.workflow, now)], s.starts + [Start(target.workflow, target.slotAt(now))]),
                        mine, slot, now)
  {
    forall r | r in s.runs + [WorkflowRun(target.workflow, now)] && r.workflow == mine.workflow && r.created >= slot
      ensures r.created <= now
      ensures Starts(s.starts + [Start(target.workflow, target.slotAt(now))], Start(mine.workflow, mine.slotAt(r.created))) > 0
    {
      StartsSnoc(s.starts, Start(target.workflow, target.slotAt(now)), Start(mine.workflow, mine.slotAt(r.created)));
    }
  }

  /** One target's turn keeps that for every target. */
  lemma TickOneStartedHere(s: Ticks, target: Target, now: int, api: Api, mine: Target, slot: int, before: int)
    requires StartedHere(s, mine, slot, before) && before <= now
    requires target.workflow == mine.workflow ==> target == mine
    ensures StartedHere(TickOne(s, target, now, api), mine, slot, now)
  {
    var after := TickOne(s, target, now, api);
    if after.starts != s.starts {
      StartStartedHere(s, target, now, mine, slot, after.done);
      assert after == Ticks(after.done, s.runs + [WorkflowRun(target.workflow, now)], s.starts + [Start(target.workflow, target.slotAt(now))]);
    } else {
      TurnWithoutStart(s, target, now, api);
    }
  }

  lemma TurnWithoutStart(s: Ticks, target: Target, now: int, api: Api)
    requires TickOne(s, target, now, api).starts == s.starts
    ensures TickOne(s, target, now, api).runs == s.runs
  {
    var start := Start(target.workflow, target.slotAt(now));
    assert |s.starts + [start]| == |s.starts| + 1;
  }

  lemma {:induction false} TickStartedHere(s: Ticks, targets: seq<Target>, now: int, api: nat -> Api, mine: Target, slot: int, before: int)
    requires StartedHere(s, mine, slot, before) && before <= now
    requires forall target <- targets :: target.workflow == mine.workflow ==> target == mine
    ensures StartedHere(Tick(s, targets, now, api), mine, slot, now)
  {
    if targets != [] {
      var n := |targets| - 1;
      TickStartedHere(s, targets[..n], now, api, mine, slot, before);
      assert targets[n] in targets;
      TickOneStartedHere(Tick(s, targets[..n], now, api), targets[n], now, api(n), mine, slot, now);
    }
  }

  lemma SameWorkflow(targets: seq<Target>, i: nat)
    requires DistinctWorkflows(targets) && i < |targets|
    ensures forall target <- targets :: target.workflow == targets[i].workflow ==> target == targets[i]
  {
  }

  lemma OtherRunStartedHere(s: Ticks, run: WorkflowRun, target: Target, slot: int, now: int)
    requires StartedHere(s, target, slot, now) && (run.workflow == target.workflow ==> run.created < slot)
    ensures StartedHere(s.(runs := s.runs + [run]), target, slot, now)
  {
  }

  lemma {:induction false} RunStartedHere(targets: seq<Target>, events: seq<Event>, now: int, i: nat, slot: int)
    requires DistinctWorkflows(targets) && i < |targets| && Ordered(events, now) && Alone(events, targets[i].workflow, slot)
    ensures StartedHere(Run(targets, events), targets[i], slot, now)
  {
    if events != [] {
      var n := |events| - 1;
      var before, ev := Run(targets, events[..n]), events[n];
      assert ev in events && forall e <- events[..n] :: e in events;
      RunStartedHere(targets, events[..n], if ev.TickAt? then ev.now else now, i, slot);
      SameWorkflow(targets, i);
      match ev {
        case TickAt(at, api) => TickStartedHere(before, targets, at, api, targets[i], slot, at);
        case OtherRun(run) => OtherRunStartedHere(before, run, targets[i], slot, now);
        case Restart =>
      }
    }
  }

  /** A run of the workflow within the slot that is the ticker's own is a start of that slot. */
  lemma OwnRunIsStart(s: Ticks, target: Target, slot: int, now: int)
    requires Orderly(target) && slot == target.slotAt(now) && StartedHere(s, target, slot, now)
    requires RanSince(s.runs, target.workflow, slot)
    ensures Starts(s.starts, Start(target.workflow, slot)) > 0
  {
    var r :| r in s.runs && r.workflow == target.workflow && r.created >= slot;
    assert target.slotAt(slot) == slot <= target.slotAt(r.created) <= target.slotAt(now);
  }

  /** After any run of ticks, failures and restarts, whatever the ticker did before: once a tick whose calls succeed for a
      target comes within its grace, the slot has been started exactly once in all, unless something else ran since. */
  lemma StartedExactlyOnce(targets: seq<Target>, events: seq<Event>, now: int, api: nat -> Api, i: nat)
    requires DistinctWorkflows(targets) && i < |targets| && Ordered(events, now)
    requires (forall target <- targets :: NeverAhead(target)) && Orderly(targets[i])
    requires api(i) == Works && now - targets[i].slotAt(now) <= targets[i].grace
    requires Alone(events, targets[i].workflow, targets[i].slotAt(now))
    ensures Starts(Run(targets, events + [TickAt(now, api)]).starts, Start(targets[i].workflow, targets[i].slotAt(now))) == 1
  {
    var all, slot := events + [TickAt(now, api)], targets[i].slotAt(now);
    StartedWithinGrace(targets, events, now, api, i);
    AtMostOncePerSlot(targets, all);
    assert all[..|events|] == events && Ordered(all, now);
    RunStartedHere(targets, all, now, i, slot);
    OwnRunIsStart(Run(targets, all), targets[i], slot, now);
  }

  lemma TickOneKeepsStarts(s: Ticks, target: Target, now: int, api: Api, start: Start)
    ensures Starts(TickOne(s, target, now, api).starts, start) >= Starts(s.starts, start)
  {
    StartsSnoc(s.starts, Start(target.workflow, target.slotAt(now)), start);
  }

  lemma {:induction false} TickKeepsStarts(s: Ticks, targets: seq<Target>, now: int, api: nat -> Api, start: Start)
    ensures Starts(Tick(s, targets, now, api).starts, start) >= Starts(s.starts, start)
  {
    if targets != [] {
      var n := |targets| - 1;
      TickKeepsStarts(s, targets[..n], now, api, start);
      TickOneKeepsStarts(Tick(s, targets[..n], now, api), targets[n], now, api(n), start);
    }
  }

  /** And whatever happens later, other runs included, it stays at one. */
  lemma {:induction false} StartedOnceForGood(targets: seq<Target>, before: seq<Event>, later: seq<Event>, start: Start)
    requires forall target <- targets :: NeverAhead(target)
    requires Starts(Run(targets, before).starts, start) == 1
    ensures Starts(Run(targets, before + later).starts, start) == 1
  {
    AtMostOncePerSlot(targets, before + later);
    if later == [] {
      assert before + later == before;
    } else {
      var n := |later| - 1;
      StartedOnceForGood(targets, before, later[..n], start);
      assert (before + later)[..|before + later| - 1] == before + later[..n];
      var s, ev := Run(targets, before + later[..n]), later[n];
      if ev.TickAt? {
        TickKeepsStarts(s, targets, ev.now, ev.api, start);
      }
    }
  }

  // ---------------------------------------------------------------- never late, never for nothing

  /** One turn starts a workflow if and only if its slot is not marked, the query answered, no run of it whatever was created
      since the slot, the grace is not over, and the dispatch created a run; and it marks the slot if and only if it was not
      marked and the query showed a run, or the grace is over, or the dispatch succeeded. */
  lemma TurnExactly(s: Ticks, target: Target, now: int, api: Api)
    ensures var after, slot := TickOne(s, target, now, api), target.slotAt(now);
            var marked := target.workflow in s.done && s.done[target.workflow] == slot;
            var ran := exists r <- s.runs :: r.workflow == target.workflow && r.created >= slot;
            var starts := !marked && api != QueryFails && !ran && now <= slot + target.grace && api != DispatchFails(false);
            && after.starts == s.starts + (if starts then [Start(target.workflow, slot)] else [])
            && after.runs == s.runs + (if starts then [WorkflowRun(target.workflow, now)] else [])
            && after.done == if !marked && api != QueryFails && (ran || now > slot + target.grace || api == Works)
                             then s.done[target.workflow := slot] else s.done
  {
  }

  /** The start is of one of these targets, in the slot of this instant and within its grace. */
  ghost predicate InGrace(targets: seq<Target>, i: nat, now: int, start: Start) {
    i < |targets| && start == Start(targets[i].workflow, targets[i].slotAt(now)) && now <= start.slot + targets[i].grace
  }

  lemma {:induction false} TickInGrace(s: Ticks, targets: seq<Target>, now: int, api: nat -> Api, start: Start) returns (i: nat)
    requires start in Tick(s, targets, now, api).starts && start !in s.starts
    ensures InGrace(targets, i, now, start)
  {
    var n := |targets| - 1;
    var before := Tick(s, targets[..n], now, api);
    if start in before.starts {
      i := TickInGrace(s, targets[..n], now, api, start);
    } else {
      i := n;
      TurnExactly(before, targets[n], now, api(n));
    }
  }

  /** Over every run, each start was made by a tick in its slot and within its grace, never later. */
  lemma {:induction false} StartInGrace(targets: seq<Target>, events: seq<Event>, start: Start) returns (k: nat, i: nat)
    requires start in Run(targets, events).starts
    ensures k < |events| && events[k].TickAt? && InGrace(targets, i, events[k].now, start)
  {
    var n := |events| - 1;
    var s := Run(targets, events[..n]);
    if start in s.starts {
      k, i := StartInGrace(targets, events[..n], start);
    } else {
      k := n;
      i := TickInGrace(s, targets, events[n].now, events[n].api, start);
    }
  }

  // ---------------------------------------------------------------- the four workflows

  function SlotEmailAlerts(clock: LocalClock): int -> int {
    now => clock.begins(LastAlertHour(clock.hourAt(now)))
  }

  function Targets(clock: LocalClock): seq<Target> {
    [Target("outreach-replies.yml", SlotEvery10Min, 600000000),
     Target("outreach-send.yml", SlotEvery10Min, 600000000),
     Target("email-alerts.yml", SlotEmailAlerts(clock), 3600000000),
     Target("lead-engine.yml", SlotLeadEngine, 3600000000)]
  }

  /** Slots that are the latest scheduled times are orderly. */
  lemma LatestIsOrderly(target: Target, scheduled: int -> bool)
    requires forall now: int :: Latest(scheduled, now, target.slotAt(now))
    ensures NeverAhead(target) && Orderly(target)
  {
    forall t: int, now: int | t <= now
      ensures target.slotAt(t) <= target.slotAt(now)
    {
      LatestIsMonotone(scheduled, t, target.slotAt(t), now, target.slotAt(now));
    }
    forall now: int
      ensures target.slotAt(target.slotAt(now)) == target.slotAt(now)
    {
      var slot := target.slotAt(now);
      LatestIsMonotone(scheduled, now, slot, now, slot);
      LatestIsMonotone(scheduled, slot, slot, slot, target.slotAt(slot));
      LatestIsMonotone(scheduled, slot, target.slotAt(slot), slot, slot);
    }
  }

  lemma SlotsAreLatest(clock: LocalClock, now: int)
    requires Steady(clock)
    ensures Latest(EveryTenMinutes, now, SlotEvery10Min(now)) && Latest(EveryThirdHour, now, SlotLeadEngine(now))
    ensures Latest(t => AlertTime(clock, t), now, SlotEmailAlerts(clock)(now))
  {
    SlotEvery10MinIsLatest(now);
    SlotLeadEngineIsLatest(now);
    AlertSlotIsLatest(now, clock);
  }

  lemma DistinctFiles(clock: LocalClock)
    ensures DistinctWorkflows(Targets(clock))
  {
    DifferentFiles();
  }

  lemma TargetFits(clock: LocalClock, i: nat)
    requires Steady(clock) && i < 4
    ensures NeverAhead(Targets(clock)[i]) && Orderly(Targets(clock)[i])
  {
    forall now: int {
      SlotsAreLatest(clock, now);
    }
    if i < 2 {
      LatestIsOrderly(Targets(clock)[i], EveryTenMinutes);
    } else if i == 2 {
      LatestIsOrderly(Targets(clock)[2], t => AlertTime(clock, t));
    } else {
      LatestIsOrderly(Targets(clock)[3], EveryThirdHour);
    }
  }

  /** They are the kind of targets the results above speak of. */
  lemma TargetsFit(clock: LocalClock)
    requires Steady(clock)
    ensures DistinctWorkflows(Targets(clock))
    ensures forall i :: 0 <= i < |Targets(clock)| ==> NeverAhead(Targets(clock)[i]) && Orderly(Targets(clock)[i])
  {
    DistinctFiles(clock);
    forall i | 0 <= i < 4 {
      TargetFits(clock, i);
    }
  }

  lemma DifferentFiles()
    ensures "outreach-replies.yml" != "outreach-send.yml" && "email-alerts.yml" != "lead-engine.yml"
    ensures "outreach-replies.yml" !in {"email-alerts.yml", "lead-engine.yml"}
    ensures "outreach-send.yml" !in {"email-alerts.yml", "lead-engine.yml"}
  {
    assert "outreach-replies.yml"[0] == 'o' && "outreach-send.yml"[0] == 'o';
    assert "email-alerts.yml"[0] == 'e' && "lead-engine.yml"[0] == 'l';
    assert "outreach-replies.yml"[9] == 'r' && "outreach-send.yml"[9] == 's';
  }

  /** Over every run of the four workflows the mail workflows are started at most ten minutes after their ten-minute mark,
      the alerts at most an hour after their hour, and the lead engine at most an hour after its minute seventeen. */
  lemma StartedOnTime(clock: LocalClock, events: seq<Event>, start: Start) returns (k: nat)
    requires Steady(clock) && start in Run(Targets(clock), events).starts
    ensures k < |events| && events[k].TickAt?
    ensures var late := events[k].now - start.slot;
            || (start.workflow in {"outreach-replies.yml", "outreach-send.yml"} && start.slot % 600000000 == 0 && 0 <= late <= 600000000)
            || (start.workflow == "email-alerts.yml" && BeginsAlertHour(clock, start.slot) && 0 <= late <= 3600000000)
            || (start.workflow == "lead-engine.yml" && start.slot % 10800000000 == 1020000000 && 0 <= late <= 3600000000)
  {
    var i: nat;
    k, i := StartInGrace(Targets(clock), events, start);
    SlotsAreLatest(clock, events[k].now);
    if i == 3 {
      ThirdHourOffset(start.slot);
    } else if i == 2 {
      AlertTimeBegins(clock, start.slot);
    }
  }

  /** A local hour of the alert schedule begins at this instant. */
  ghost predicate BeginsAlertHour(clock: LocalClock, t: int) {
    exists hour :: hour % 24 in {7, 9, 11, 13, 15, 17, 19, 21, 23} && clock.begins(hour) == t
  }

  lemma AlertTimeBegins(clock: LocalClock, t: int)
    ensures AlertTime(clock, t) <==> BeginsAlertHour(clock, t)
  {
    forall hour: int
      ensures AlertHour(hour) <==> hour % 24 in {7, 9, 11, 13, 15, 17, 19, 21, 23}
    {
      OddHours(hour % 24);
    }
    if hour :| AlertHour(hour) && clock.begins(hour) == t {
      assert BeginsAlertHour(clock, t);
    }
  }

  lemma OddHours(h: int)
    requires 0 <= h < 24
    ensures 7 <= h && h % 2 == 1 <==> h in {7, 9, 11, 13, 15, 17, 19, 21, 23}
  {
  }

  /** Seventeen past every third hour of the day, as an offset in every three hours since the epoch. */
  lemma ThirdHourOffset(t: int)
    requires EveryThirdHour(t)
    ensures t % 10800000000 == 1020000000
  {
    var hour := t / 3600000000;
    ThirdOfDay(hour);
    assert hour == 3 * (hour / 3);
    assert t == 10800000000 * (hour / 3) + 1020000000;
  }

  // ---------------------------------------------------------------- the ticking loop

  class TickerProcess {
    var done: map<string, int>
    var runs: seq<WorkflowRun>
    var starts: seq<Start>

    function Value(): Ticks
      reads this
    {
      Ticks(done, runs, starts)
    }

    constructor ()
      ensures Value() == Ticks(map[], [], [])
    {
      done, runs, starts := map[], [], [];
    }

    /** The API call: an error may hide a run that was created all the same. */
    method Dispatch(target: Target, slot: int, now: int, api: Api) returns (ok: bool)
      requires api != QueryFails
      modifies this`runs, this`starts
      ensures ok == (api == Works)
      ensures api == DispatchFails(false) ==> runs == old(runs) && starts == old(starts)
      ensures api != DispatchFails(false) ==>
        runs == old(runs) + [WorkflowRun(target.workflow, now)] && starts == old(starts) + [Start(target.workflow, slot)]
    {
      if api != DispatchFails(false) {
        runs := runs + [WorkflowRun(target.workflow, now)];
        starts := starts + [Start(target.workflow, slot)];
      }
      return api == Works;
    }

    method TickAll(targets: seq<Target>, now: int, api: nat -> Api)
      modifies this
      ensures Value() == Tick(old(Value()), targets, now, api)
    {
      for i := 0 to |targets|
        invariant Value() == Tick(old(Value()), targets[..i], now, api)
      {
        assert targets[..i + 1][..i] == targets[..i];
        var target := targets[i];
        var slot := target.slotAt(now);
        if target.workflow in done && done[target.workflow] == slot {
          continue;
        }
        if api(i) == QueryFails {
          continue;
        }
        if !RanSince(runs, target.workflow, slot) && now - slot <= target.grace {
          var ok := Dispatch(target, slot, now, api(i));
          if !ok {
            continue;
          }
        }
        done := done[target.workflow := slot];
      }
      assert targets[..|targets|] == targets;
    }
  }
}
