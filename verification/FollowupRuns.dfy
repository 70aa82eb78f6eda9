/** The three-step follow-up of one estimate over whole runs: planning passes, Twilio answers with and
    without a message id, and the owner closing the estimate, compared with the preview shown to the owner. */
module FollowupRuns {
  import opened Common
  import opened WallClock
  import opened Templates
  import opened Planner

  datatype PreviewStep = PreviewStep(at: int, body: string)

  function PreviewFollowupSequence(shop: Shop, e: Estimate): (steps: seq<PreviewStep>)
    ensures |steps| == 3
  {
    [PreviewStep(InitialNextSendAt(e.createdAt, shop.zone, shop.window), FollowupBody(shop, e, 0)),
     PreviewStep(AddLocalDays(e.createdAt, shop.zone, 2, 600), FollowupBody(shop, e, 1)),
     PreviewStep(AddLocalDays(e.createdAt, shop.zone, 5, 600), FollowupBody(shop, e, 2))]
  }

  /** The second and third texts are previewed for ten o'clock two and five local days after the estimate was made; in a zone
      with a fixed offset that is the instant at which its clock shows so. */
  lemma PreviewTimesAre(shop: Shop, e: Estimate)
    ensures var preview, day := PreviewFollowupSequence(shop, e), (e.createdAt + shop.zone(e.createdAt)) / 86400000;
            preview[1].at == Instant(day + 2, 600, shop.zone) && preview[2].at == Instant(day + 5, 600, shop.zone)
    ensures forall offset: int :: FixedOffset(shop.zone, offset) ==>
              var preview, day := PreviewFollowupSequence(shop, e), (e.createdAt + offset) / 86400000;
              && preview[1].at + offset == (day + 2) * 86400000 + 36000000
              && preview[2].at + offset == (day + 5) * 86400000 + 36000000
  {
    PartsMinute(e.createdAt, shop.zone);
    forall offset: int | FixedOffset(shop.zone, offset)
      ensures Instant((e.createdAt + offset) / 86400000 + 2, 600, shop.zone) == Wall((e.createdAt + offset) / 86400000 + 2, 600) - offset
      ensures Instant((e.createdAt + offset) / 86400000 + 5, 600, shop.zone) == Wall((e.createdAt + offset) / 86400000 + 5, 600) - offset
    {
      FixedInstant(shop.zone, offset, (e.createdAt + offset) / 86400000 + 2, 600);
      FixedInstant(shop.zone, offset, (e.createdAt + offset) / 86400000 + 5, 600);
    }
  }

  /** The stored side of an estimate; `confirmed` lists the bodies the provider accepted, and `sentAt` the times of the
      passes that sent them. */
  datatype Track = Track(stepIndex: nat, status: EstimateStatus, nextSendAt: Option<int>, confirmed: seq<string>, sentAt: seq<int>)

  datatype Event =
    | Pass(now: int, suppressed: bool, sentToday: int, sentTo: int, live: bool, sid: bool, clock: int)
    | Close(status: EstimateStatus)

  /** A live send without a message id goes back to its old step and is retried in fifteen minutes. */
  function Adopt(mark: Mark, sid: bool, clock: int): Mark
    requires mark.FollowupMark?
  {
    var m := mark;
    if sid then
      FollowupMark(m.tenantId, m.estimateId, m.to, m.from, Sent, m.stepBefore,
                   m.estimateStatus, m.stepIndex, m.nextSendAt, m.body)
    else
      FollowupMark(m.tenantId, m.estimateId, m.to, m.from, Retry, m.stepBefore,
                   Open, m.stepBefore, Some(clock + 900000), m.body)
  }

  predicate Confirms(mark: Mark) {
    mark.status == Sent || mark.status == MockSent
  }

  function ApplyMark(t: Track, mark: Mark, now: int): Track
    requires mark.FollowupMark?
  {
    Track(mark.stepIndex, mark.estimateStatus, mark.nextSendAt,
          if Confirms(mark) then t.confirmed + [mark.body] else t.confirmed,
          if Confirms(mark) then t.sentAt + [now] else t.sentAt)
  }

  function DueRow(t: Track, shop: Shop, e: Estimate, ev: Event): FollowupRow
    requires ev.Pass?
  {
    FollowupRow("", shop, e, t.stepIndex, ev.suppressed, ev.sentToday, ev.sentTo)
  }

  function Step(t: Track, shop: Shop, e: Estimate, ev: Event): Track {
    match ev
    case Close(status) => if status == Open then t else t.(status := status, nextSendAt := None)
    case Pass(now, _, _, _, live, sid, clock) =>
      if t.status != Open || t.nextSendAt == None || t.nextSendAt.value > now then t
      else
        var plan := PlanOneFollowup(DueRow(t, shop, e, ev), now);
        ApplyMark(t, if live && plan.send then Adopt(plan.mark, sid, clock) else plan.mark, now)
  }

  function Run(t: Track, shop: Shop, e: Estimate, events: seq<Event>): Track {
    if events == [] then t
    else Step(Run(t, shop, e, events[..|events| - 1]), shop, e, events[|events| - 1])
  }

  function Fresh(shop: Shop, e: Estimate): Track {
    Track(0, Open, Some(InitialNextSendAt(e.createdAt, shop.zone, shop.window)), [], [])
  }

  /** The body the planner sends at a step; it never fills in the owner's phone. */
  function PlannedBody(shop: Shop, e: Estimate, step: nat): string {
    FollowupBody(shop.(ownerPhone := ""), e, step)
  }

  ghost predicate Good(t: Track, shop: Shop, e: Estimate) {
    && (t.status == Open ==> t.stepIndex < 3)
    && (t.nextSendAt == None <==> t.status != Open)
    && |t.confirmed| == t.stepIndex <= 3
    && forall i :: 0 <= i < |t.confirmed| ==> t.confirmed[i] == PlannedBody(shop, e, i)
  }

  /** What a plan says of an open estimate: either it holds the text back, or it sends the body of the current step. */
  lemma PlanShape(row: FollowupRow, now: int)
    requires row.stepIndex < 3
    ensures var plan, mark := PlanOneFollowup(row, now), PlanOneFollowup(row, now).mark;
            && mark.stepBefore == row.stepIndex
            && (plan.send ==>
                  && mark.status == MockSent && mark.stepIndex == row.stepIndex + 1
                  && mark.body == PlannedBody(row.shop, row.estimate, row.stepIndex)
                  && (mark.estimateStatus == if mark.stepIndex == 3 then Finished else Open)
                  && (mark.nextSendAt == None <==> mark.stepIndex == 3))
            && (!plan.send ==>
                  && mark.status != MockSent && mark.status != Sent && mark.stepIndex == row.stepIndex
                  && (mark.nextSendAt == None <==> mark.estimateStatus != Open))
  {
  }

  lemma PlanKeepsGood(t: Track, shop: Shop, e: Estimate, ev: Event)
    requires Good(t, shop, e) && t.status == Open && ev.Pass?
    ensures var plan := PlanOneFollowup(DueRow(t, shop, e, ev), ev.now);
            && Good(ApplyMark(t, plan.mark, ev.now), shop, e)
            && (plan.send ==> Good(ApplyMark(t, Adopt(plan.mark, ev.sid, ev.clock), ev.now), shop, e))
  {
    PlanShape(DueRow(t, shop, e, ev), ev.now);
  }

  lemma StepKeepsGood(t: Track, shop: Shop, e: Estimate, ev: Event)
    requires Good(t, shop, e)
    ensures Good(Step(t, shop, e, ev), shop, e)
  {
    if ev.Pass? && t.status == Open {
      PlanKeepsGood(t, shop, e, ev);
    }
  }

  /** In every run an open estimate has steps left and a time for the next one, a closed one has no time,
      and the confirmed texts are the first `stepIndex` planned bodies, never more than three. */
  lemma {:induction false} RunKeepsGood(shop: Shop, e: Estimate, events: seq<Event>)
    ensures Good(Run(Fresh(shop, e), shop, e, events), shop, e)
  {
    if events != [] {
      RunKeepsGood(shop, e, events[..|events| - 1]);
      StepKeepsGood(Run(Fresh(shop, e), shop, e, events[..|events| - 1]), shop, e, events[|events| - 1]);
    }
  }

  /** A closed estimate is never opened or texted again. */
  lemma {:induction false} ClosedStaysClosed(t: Track, shop: Shop, e: Estimate, events: seq<Event>)
    requires t.status != Open
    ensures var after := Run(t, shop, e, events);
            after.status != Open && after.confirmed == t.confirmed && after.stepIndex == t.stepIndex
  {
    if events != [] {
      ClosedStaysClosed(t, shop, e, events[..|events| - 1]);
    }
  }

  lemma BlankOwnerVars(shop: Shop, e: Estimate)
    ensures FollowupVars(shop.(ownerPhone := ""), e) == FollowupVars(shop, e)["owner_phone" := ""]
    ensures "owner_phone" in FollowupVars(shop, e) && FollowupVars(shop, e)["owner_phone"] == shop.ownerPhone
  {
  }

  /** The planned body of a step is the previewed one exactly when its template does not ask for the owner's
      phone or the shop has none. */
  lemma PlannedBodyIsPreviewed(shop: Shop, e: Estimate, step: nat)
    ensures PlannedBody(shop, e, step) == FollowupBody(shop, e, step) <==>
            shop.ownerPhone == "" || Uses(FollowupTemplate(shop, step), "owner_phone") == 0
  {
    BlankOwnerVars(shop, e);
    RenderDiffers(FollowupTemplate(shop, step), FollowupVars(shop, e), "owner_phone");
    assert FollowupTemplate(shop.(ownerPhone := ""), step) == FollowupTemplate(shop, step);
  }

  /** A template that is one placeholder renders to the variable's value. */
  lemma OnePlaceholder(name: string, vars: map<string, string>)
    requires name != "" && forall c <- name :: IsNameChar(c)
    ensures Render("{" + name + "}", vars) == Lookup(vars, name)
  {
    RenderName(name, "", vars);
    assert "{" + name + "}" + "" == "{" + name + "}" && Lookup(vars, name) + "" == Lookup(vars, name);
  }

  lemma OwnerPhoneIsAName()
    ensures "owner_phone" != "" && (forall c <- "owner_phone" :: IsNameChar(c)) && Lower("owner_phone") == "owner_phone"
  {
  }

  lemma OwnerPhoneBody(shop: Shop, e: Estimate, name: string)
    requires FollowupTemplate(shop, 0) == "{" + name + "}" && name != "" && forall c <- name :: IsNameChar(c)
    requires Lookup(FollowupVars(shop, e), name) == shop.ownerPhone
    ensures FollowupBody(shop, e, 0) == shop.ownerPhone
  {
    OnePlaceholder(name, FollowupVars(shop, e));
  }

  lemma OwnerPhoneLookup(shop: Shop, e: Estimate)
    ensures Lookup(FollowupVars(shop, e), "owner_phone") == shop.ownerPhone
  {
    OwnerPhoneIsAName();
    BlankOwnerVars(shop, e);
  }

  /** A shop whose first template is just the owner's phone previews that phone and sends an empty text. */
  lemma OwnerPhoneIsDropped(shop: Shop, e: Estimate)
    requires shop.followupTemplates[0] == "{" + "owner_phone" + "}"
    ensures PreviewFollowupSequence(shop, e)[0].body == shop.ownerPhone && PlannedBody(shop, e, 0) == ""
  {
    var blank := shop.(ownerPhone := "");
    OwnerPhoneIsAName();
    OwnerPhoneLookup(shop, e);
    OwnerPhoneLookup(blank, e);
    assert FollowupTemplate(shop, 0) == shop.followupTemplates[0] == FollowupTemplate(blank, 0);
    OwnerPhoneBody(shop, e, "owner_phone");
    OwnerPhoneBody(blank, e, "owner_phone");
  }

  /** Over every run the customer receives the previewed texts in order, each one equal to its preview exactly
      under that condition. */
  lemma ConfirmedArePreviewed(shop: Shop, e: Estimate, events: seq<Event>)
    ensures var t := Run(Fresh(shop, e), shop, e, events);
            var preview := PreviewFollowupSequence(shop, e);
            && |t.confirmed| == t.stepIndex <= 3
            && forall i :: 0 <= i < |t.confirmed| ==>
                 (t.confirmed[i] == preview[i].body <==>
                    shop.ownerPhone == "" || Uses(FollowupTemplate(shop, i), "owner_phone") == 0)
  {
    RunKeepsGood(shop, e, events);
    PlannedBodyIsPreviewed(shop, e, 0);
    PlannedBodyIsPreviewed(shop, e, 1);
    PlannedBodyIsPreviewed(shop, e, 2);
  }

  /** Each send schedules the next step for exactly the previewed time, and the last one closes the estimate. */
  lemma SendSchedulesPreview(row: FollowupRow, now: int)
    requires PlanOneFollowup(row, now).send
    ensures var mark := PlanOneFollowup(row, now).mark;
            var preview := PreviewFollowupSequence(row.shop, row.estimate);
            && mark.stepIndex == row.stepIndex + 1 <= 3
            && mark.nextSendAt == (if row.stepIndex < 2 then Some(preview[row.stepIndex + 1].at) else None)
            && (mark.estimateStatus == Finished <==> row.stepIndex == 2)
  {
  }

  /** A live text without a message id changes nothing but the time, which is set to fifteen minutes from then; one with an
      id counts as sent. */
  lemma RetryLeaves(t: Track, shop: Shop, e: Estimate, ev: Event)
    requires Good(t, shop, e) && ev.Pass? && ev.live && t.status == Open && t.nextSendAt.value <= ev.now
    requires PlanOneFollowup(DueRow(t, shop, e, ev), ev.now).send
    ensures Step(t, shop, e, ev)
         == if !ev.sid then t.(nextSendAt := Some(ev.clock + 900000))
            else var mark := PlanOneFollowup(DueRow(t, shop, e, ev), ev.now).mark;
                 Track(t.stepIndex + 1, mark.estimateStatus, mark.nextSendAt, t.confirmed + [PlannedBody(shop, e, t.stepIndex)], t.sentAt + [ev.now])
  {
    PlanShape(DueRow(t, shop, e, ev), ev.now);
  }

  // ---------------------------------------------------------------- not before its time

  /** The time of the last pass, if any. */
  function LastPass(events: seq<Event>): Option<int> {
    if events == [] then None
    else if events[|events| - 1].Pass? then Some(events[|events| - 1].now)
    else LastPass(events[..|events| - 1])
  }

  /** No pass is earlier than the one before it. */
  predicate Ordered(events: seq<Event>) {
    events == [] ||
    var n := |events| - 1;
    && Ordered(events[..n])
    && (events[n].Pass? && LastPass(events[..n]).Some? ==> LastPass(events[..n]).value <= events[n].now)
  }

  /** The time has come, or the estimate waits for it. */
  predicate Waits(t: Track, at: int, clock: Option<int>) {
    (t.nextSendAt.Some? && t.nextSendAt.value >= at) || (clock.Some? && clock.value >= at)
  }

  ghost predicate Timely(t: Track, shop: Shop, e: Estimate, clock: Option<int>) {
    var preview := PreviewFollowupSequence(shop, e);
    && |t.sentAt| == |t.confirmed| <= 3
    && (forall i :: 0 <= i < |t.sentAt| ==> t.sentAt[i] >= preview[i].at)
    && (t.status == Open && t.stepIndex < 3 ==> Waits(t, preview[t.stepIndex].at, clock))
  }

  /** A due pass comes at or after the previewed time of the step, and leaves the next step waiting for its own. */
  lemma PassIsTimely(t: Track, shop: Shop, e: Estimate, ev: Event, clock: Option<int>)
    requires Good(t, shop, e) && Timely(t, shop, e, clock) && t.status == Open && ev.Pass?
    requires t.nextSendAt.value <= ev.now && (clock.Some? ==> clock.value <= ev.now)
    ensures Timely(Step(t, shop, e, ev), shop, e, Some(ev.now))
  {
    var row := DueRow(t, shop, e, ev);
    var plan := PlanOneFollowup(row, ev.now);
    assert ev.now >= PreviewFollowupSequence(shop, e)[t.stepIndex].at;
    PlanShape(row, ev.now);
    if plan.send {
      SendSchedulesPreview(row, ev.now);
    }
  }

  lemma StepIsTimely(t: Track, shop: Shop, e: Estimate, ev: Event, clock: Option<int>)
    requires Good(t, shop, e) && Timely(t, shop, e, clock)
    requires ev.Pass? && clock.Some? ==> clock.value <= ev.now
    ensures Timely(Step(t, shop, e, ev), shop, e, if ev.Pass? then Some(ev.now) else clock)
  {
    if ev.Pass? && t.status == Open && t.nextSendAt.value <= ev.now {
      PassIsTimely(t, shop, e, ev, clock);
    }
  }

  /** Over every run whose passes do not go back in time, with deferrals, retries and closings anywhere: no text goes out
      before its previewed time. */
  lemma {:induction false} SentNotBeforePreview(shop: Shop, e: Estimate, events: seq<Event>)
    requires Ordered(events)
    ensures Timely(Run(Fresh(shop, e), shop, e, events), shop, e, LastPass(events))
  {
    if events != [] {
      var n := |events| - 1;
      SentNotBeforePreview(shop, e, events[..n]);
      RunKeepsGood(shop, e, events[..n]);
      StepIsTimely(Run(Fresh(shop, e), shop, e, events[..n]), shop, e, events[n], LastPass(events[..n]));
    }
  }
}
