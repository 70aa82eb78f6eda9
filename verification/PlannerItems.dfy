/** What each item of a batch says, read off its row: numbers, text, credentials and how the row is marked. */
module PlannerItems {
  import opened Common
  import opened WallClock
  import opened Templates
  import opened Planner
  import opened FollowupRuns

  // ---------------------------------------------------------------- addresses and credentials

  /** The number a row is sent from. */
  ghost predicate FromNumber(row: Row, number: string) {
    match row
    case Followup(f) => number == f.shop.twilioNumber
    case Queued(q) => number == q.fromNumber
    case Review(r) => number == r.shop.twilioNumber
  }

  /** The number a row is sent to, and the shop it belongs to. */
  ghost predicate ToNumber(row: Row, tenant: string, number: string) {
    match row
    case Followup(f) => tenant == f.tenantId && number == f.estimate.phone
    case Queued(q) => tenant == q.tenantId && number == q.toNumber
    case Review(r) => tenant == r.tenantId && number == r.phone
  }

  /** The mark is about the row's own estimate, queued text or review. */
  ghost predicate MarksRow(row: Row, mark: Mark) {
    match row
    case Followup(f) => mark.FollowupMark? && mark.estimateId == f.estimate.id && mark.stepBefore == f.stepIndex
    case Queued(q) => mark.QueueMark? && mark.queueId == q.queueId && mark.purpose == q.purpose
    case Review(r) => mark.ReviewMark? && mark.reviewId == r.reviewId
                      && mark.purpose == if r.reminder then "review_reminder" else "review_request"
  }

  /** The row of an item with the sends before it added to its counts: all else is as in the row. */
  lemma ItemOf(rows: seq<Row>, items: seq<Item>, now: int, env: Env, k: nat) returns (row: Row)
    requires Planned(rows, items, PlanFor(now, env)) && k < |rows|
    ensures items[k] == PlanRow(row, now, env)
    ensures row == rows[k].Adjusted(Sends(items[..k], rows[k].Tenant()), SendsTo(items[..k], rows[k].Tenant(), rows[k].To()))
  {
    row := rows[k].Adjusted(Sends(items[..k], rows[k].Tenant()), SendsTo(items[..k], rows[k].Tenant(), rows[k].To()));
  }

  lemma FollowupIsAddressed(f: FollowupRow, now: int)
    ensures var mark := PlanOneFollowup(f, now).mark;
            mark.from == f.shop.twilioNumber && mark.to == f.estimate.phone && mark.tenantId == f.tenantId && MarksRow(Followup(f), mark)
  {
  }

  lemma QueuedIsAddressed(q: QueuedRow, now: int)
    ensures var mark := PlanOneQueued(q, now).mark;
            mark.from == q.fromNumber && mark.to == q.toNumber && mark.tenantId == q.tenantId && MarksRow(Queued(q), mark)
  {
  }

  lemma ReviewIsAddressed(r: ReviewRow, now: int, env: Env)
    ensures var mark := PlanOneReview(r, now, env).mark;
            mark.from == r.shop.twilioNumber && mark.to == r.phone && mark.tenantId == r.tenantId && MarksRow(Review(r), mark)
  {
  }

  lemma RowIsAddressed(row: Row, now: int, env: Env)
    ensures var item := PlanRow(row, now, env);
            && FromNumber(row, item.from) && item.mark.from == item.from
            && ToNumber(row, item.mark.tenantId, item.to) && item.mark.to == item.to
            && MarksRow(row, item.mark)
  {
    match row {
      case Followup(f) => FollowupIsAddressed(f, now);
      case Queued(q) => QueuedIsAddressed(q, now);
      case Review(r) => ReviewIsAddressed(r, now, env);
    }
  }

  lemma RowIsMarked(row: Row, now: int, env: Env)
    ensures var item := PlanRow(row, now, env);
            var live := env.mode == "live" && env.accountSid != "" && env.authToken != "";
            && (item.mark.status == Sent <==> live && IsSend(item)) && (item.mark.status == MockSent <==> !live && IsSend(item))
  {
    match row {
      case Followup(f) => FollowupWhenReady(f, now, env);
      case Queued(q) => QueuedWhenReady(q, now, env);
      case Review(r) => ReviewWhenReady(r, now, env);
    }
  }

  /** Every item and its mark carry the row's own numbers, shop and id; the credentials go along exactly in live mode with
      both of them set; and a send is marked sent in live mode and mock-sent otherwise. */
  lemma ItemIsAddressed(rows: seq<Row>, items: seq<Item>, now: int, env: Env, k: nat)
    requires Planned(rows, items, PlanFor(now, env)) && k < |rows|
    ensures var row, item := rows[k], items[k];
            && FromNumber(row, item.from) && item.mark.from == item.from
            && ToNumber(row, item.mark.tenantId, item.to) && item.mark.to == item.to
            && MarksRow(row, item.mark)
    ensures var live := env.mode == "live" && env.accountSid != "" && env.authToken != "";
            && items[k].auth == (if live then "Basic " + env.base64(env.accountSid + ":" + env.authToken) else "")
            && (items[k].auth == "" <==> !live)
            && (items[k].mark.status == Sent ==> live) && (items[k].mark.status == MockSent ==> !live)
            && (items[k].live <==> items[k].mark.status == Sent)
  {
    var row := ItemOf(rows, items, now, env, k);
    RowIsAddressed(row, now, env);
    RowIsMarked(row, now, env);
    SentWhenReady(row, now, env);
  }

  // ---------------------------------------------------------------- texts

  lemma FollowupText(f: FollowupRow, now: int)
    ensures var plan := PlanOneFollowup(f, now);
            if plan.send then
              f.stepIndex < 3 && plan.mark.body == PreviewFollowupSequence(f.shop.(ownerPhone := ""), f.estimate)[f.stepIndex].body
            else plan.mark.body == ""
  {
  }

  /** A follow-up that goes out carries the text that the owner was shown for its step, with the owner's phone blanked;
      a held one carries none. */
  lemma FollowupItem(rows: seq<Row>, items: seq<Item>, now: int, env: Env, k: nat)
    requires Planned(rows, items, PlanFor(now, env)) && k < |rows| && rows[k].Followup?
    ensures var f, item := rows[k].f, items[k];
            && item.mark.body == item.body
            && if IsSend(item) then
                 f.stepIndex < 3 && item.body == PreviewFollowupSequence(f.shop.(ownerPhone := ""), f.estimate)[f.stepIndex].body
               else item.body == ""
  {
    var row := ItemOf(rows, items, now, env, k);
    FollowupText(row.f, now);
    FollowupWhenReady(row.f, now, env);
    SentWhenReady(row, now, env);
  }

  lemma QueuedText(q: QueuedRow, now: int)
    ensures PlanOneQueued(q, now).mark.body == q.body
  {
  }

  /** A queued item carries its row's text. */
  lemma QueuedItem(rows: seq<Row>, items: seq<Item>, now: int, env: Env, k: nat)
    requires Planned(rows, items, PlanFor(now, env)) && k < |rows| && rows[k].Queued?
    ensures items[k].body == items[k].mark.body == rows[k].q.body
  {
    var row := ItemOf(rows, items, now, env, k);
    QueuedText(row.q, now);
    assert items[k].mark == Finish(PlanOneQueued(row.q, now), env);
  }

  /** The public address is this one, with or without one slash behind it. */
  ghost predicate PublicAddress(env: Env, base: string) {
    env.publicBaseUrl == base + "/" || (env.publicBaseUrl == base && (base == "" || base[|base| - 1] != '/'))
  }

  /** What a review request says. */
  ghost predicate AsksForReview(body: string, name: string, link: string, reminder: bool) {
    && Contains(body, name) && Contains(body, link) && Contains(body, " Reply STOP to opt out.")
    && ("Reminder" <= body <==> reminder)
  }

  lemma ReviewBodyAsks(name: string, link: string, reminder: bool)
    ensures AsksForReview(ReviewBody(name, link, reminder), name, link, reminder)
  {
    var end := " Reply STOP to opt out.";
    if reminder {
      var a, b := "Reminder from ", ": a short Google review still helps neighbors find us. ";
      PartsAreInside(a, name, b, link, end);
      assert ReviewBody(name, link, reminder) == a + name + b + link + end;
      assert "Reminder" <= a;
    } else {
      var a, b := "Thanks for choosing ", ". If we earned it, a Google review helps neighbors find us: ";
      PartsAreInside(a, name, b, link, end);
      assert ReviewBody(name, link, reminder) == a + name + b + link + end;
      assert a[0] == 'T' && "Reminder"[0] == 'R';
    }
  }

  lemma PartsAreInside(a: string, name: string, b: string, link: string, end: string)
    ensures var s := a + name + b + link + end;
            Contains(s, name) && Contains(s, link) && Contains(s, end)
  {
    var s := a + name + b + link + end;
    assert s == a + name + (b + link + end);
    ContainsInside(a, name, b + link + end);
    ContainsInside(a + name + b, link, end);
    assert s == (a + name + b + link) + end + "";
    ContainsInside(a + name + b + link, end, "");
  }

  lemma OriginIs(env: Env, base: string)
    requires PublicAddress(env, base)
    ensures Origin(env.publicBaseUrl) == base
  {
  }

  lemma ReviewPlan(r: ReviewRow, now: int, env: Env)
    requires PlanOneReview(r, now, env).send
    ensures var name := if r.shop.businessName == "" then "us" else r.shop.businessName;
            PlanOneReview(r, now, env).mark.body == ReviewBody(name, ReviewLink(r, env), r.reminder)
    ensures Origin(env.publicBaseUrl) != "" && r.token != ""
  {
  }

  lemma HeldReviewIsBlank(r: ReviewRow, now: int, env: Env)
    requires !PlanOneReview(r, now, env).send
    ensures PlanOneReview(r, now, env).mark.body == ""
  {
  }

  /** A sent request says its part with this link on the address; a held one says nothing. */
  ghost predicate ReviewReads(body: string, sent: bool, businessName: string, base: string, token: string, reminder: bool) {
    if sent then
      AsksForReview(body, if businessName == "" then "us" else businessName, base + "/webhook/mctb-r?t=" + token, reminder)
      && base != "" && token != ""
    else body == ""
  }

  lemma ReviewText(r: ReviewRow, now: int, env: Env, base: string)
    requires PublicAddress(env, base)
    ensures var plan := PlanOneReview(r, now, env);
            ReviewReads(plan.mark.body, plan.send, r.shop.businessName, base, r.token, r.reminder)
  {
    OriginIs(env, base);
    if PlanOneReview(r, now, env).send {
      ReviewPlan(r, now, env);
      ReviewBodyAsks(if r.shop.businessName == "" then "us" else r.shop.businessName, base + "/webhook/mctb-r?t=" + r.token, r.reminder);
    } else {
      HeldReviewIsBlank(r, now, env);
    }
  }

  /** A review request that goes out names the shop and holds the link with its own token on the public address, tells how
      to opt out, and begins as a reminder exactly when it is one; a held one carries no text. */
  lemma ReviewItem(rows: seq<Row>, items: seq<Item>, now: int, env: Env, k: nat, base: string)
    requires Planned(rows, items, PlanFor(now, env)) && k < |rows| && rows[k].Review? && PublicAddress(env, base)
    ensures var r, item := rows[k].r, items[k];
            && item.mark.body == item.body
            && ReviewReads(item.body, IsSend(item), r.shop.businessName, base, r.token, r.reminder)
  {
    var row := ItemOf(rows, items, now, env, k);
    ReviewText(row.r, now, env, base);
    ReviewWhenReady(row.r, now, env);
    SentWhenReady(row, now, env);
  }

  // ---------------------------------------------------------------- marks

  /** A text has gone out, live or mock. */
  predicate Gone(status: Planner.Status) {
    status == Sent || status == MockSent
  }

  /** When a held text comes up again: at the end of quiet hours, in an hour, or never. */
  ghost predicate ComesAgain(status: Planner.Status, at: Option<int>, now: int, shop: Shop, quiet: bool) {
    && (status == Suppressed || status == Completed || status == Skipped ==> at == None)
    && (status == Deferred ==> at == Some(if quiet then NextWindowOpen(now, shop.zone, shop.window) else now + 3600000))
    && (status == RateLimited ==> at == Some(now + 3600000))
  }

  /** The mark of a follow-up after `total` texts of its shop and `number` to its customer on this day. */
  ghost predicate FollowupIsMarked(f: FollowupRow, total: int, number: int, now: int, mark: Mark)
    requires mark.FollowupMark?
  {
    var quiet := InQuietHours(now, f.shop.zone, f.shop.window);
    var room := total < f.shop.dailyLimit && number < f.shop.perNumberLimit;
    && (mark.status == Suppressed <==> f.suppressed)
    && (mark.status == Deferred <==> !f.suppressed && quiet)
    && (mark.status == RateLimited <==> !f.suppressed && !quiet && !room)
    && (mark.status == Completed <==> !f.suppressed && !quiet && room && f.stepIndex >= 3)
    && (Gone(mark.status) <==> !f.suppressed && !quiet && room && f.stepIndex < 3)
    && ComesAgain(mark.status, mark.nextSendAt, now, f.shop, quiet)
    && mark.stepIndex == f.stepIndex + (if Gone(mark.status) then 1 else 0)
    && (mark.estimateStatus == OptedOut <==> f.suppressed)
    && (mark.estimateStatus == Finished <==> mark.status == Completed || (Gone(mark.status) && f.stepIndex == 2))
    && mark.estimateStatus in {OptedOut, Finished, Open}
    && (Gone(mark.status) ==>
          mark.nextSendAt == if f.stepIndex == 2 then None
                             else Some(PreviewFollowupSequence(f.shop, f.estimate)[f.stepIndex + 1].at))
  }

  lemma FollowupMarked(f: FollowupRow, now: int)
    ensures FollowupIsMarked(f, f.sentToday, f.sentToToday, now, PlanOneFollowup(f, now).mark)
  {
  }

  /** The mark of a queued text: health alerts pass both limits by, revenue reports count against the owner's. */
  ghost predicate QueuedIsMarked(q: QueuedRow, total: int, number: int, now: int, mark: Mark)
    requires mark.QueueMark?
  {
    var quiet := InQuietHours(now, q.shop.zone, q.shop.window);
    var limit := if "revenue_report" <= q.purpose then (if q.shop.ownerLimit > 0 then q.shop.ownerLimit else 60) else q.shop.perNumberLimit;
    var room := "health_" <= q.purpose || (total < q.shop.dailyLimit && number < limit);
    && (mark.status == Suppressed <==> q.suppressed)
    && (mark.status == Deferred <==> !q.suppressed && quiet)
    && (mark.status == RateLimited <==> !q.suppressed && !quiet && !room)
    && (Gone(mark.status) <==> !q.suppressed && !quiet && room)
    && ComesAgain(mark.status, mark.nextSendAt, now, q.shop, quiet)
  }

  lemma QueuedMarked(q: QueuedRow, now: int)
    ensures QueuedIsMarked(q, q.sentToday, q.sentToToday, now, PlanOneQueued(q, now).mark)
  {
  }

  /** The mark of a review request, which needs a secure review page, and a public address and a token for its link. */
  ghost predicate ReviewIsMarked(r: ReviewRow, total: int, number: int, now: int, linked: bool, mark: Mark)
    requires mark.ReviewMark?
  {
    var quiet := InQuietHours(now, r.shop.zone, r.shop.window);
    var secure := "https://" <= Lower(r.googleReviewUrl);
    var room := total < r.shop.dailyLimit && number < r.shop.perNumberLimit;
    && (mark.status == Suppressed <==> r.suppressed)
    && (mark.status == Skipped <==> !r.suppressed && !secure)
    && (mark.status == Deferred <==> !r.suppressed && secure && (quiet || (room && !linked)))
    && (mark.status == RateLimited <==> !r.suppressed && secure && !quiet && !room)
    && (Gone(mark.status) <==> !r.suppressed && secure && !quiet && room && linked)
    && ComesAgain(mark.status, mark.nextSendAt, now, r.shop, quiet)
  }

  lemma ReviewMarked(r: ReviewRow, now: int, env: Env, base: string)
    requires PublicAddress(env, base)
    ensures ReviewIsMarked(r, r.sentToday, r.sentToToday, now, base != "" && r.token != "", PlanOneReview(r, now, env).mark)
  {
    OriginIs(env, base);
  }

  /** Every follow-up is marked for the first of its reasons that applies under the recount at its position, with the time
      at which it comes up again. */
  lemma FollowupItemIsMarked(rows: seq<Row>, items: seq<Item>, now: int, env: Env, k: nat)
    requires Planned(rows, items, PlanFor(now, env)) && k < |rows| && rows[k].Followup?
    ensures var f, mark := rows[k].f, items[k].mark;
            mark.FollowupMark?
            && FollowupIsMarked(f, f.sentToday + Sends(items[..k], f.tenantId), f.sentToToday + SendsTo(items[..k], f.tenantId, f.estimate.phone), now, mark)
  {
    var row := ItemOf(rows, items, now, env, k);
    FollowupMarked(row.f, now);
    FollowupWhenReady(row.f, now, env);
    FinishedFollowup(row.f, row.f.sentToday, row.f.sentToToday, now, PlanOneFollowup(row.f, now), env);
    assert items[k].mark == Finish(PlanOneFollowup(row.f, now), env);
  }

  /** Marking a send as sent changes none of that. */
  lemma FinishedFollowup(f: FollowupRow, total: int, number: int, now: int, plan: Plan, env: Env)
    requires plan.mark.FollowupMark? && FollowupIsMarked(f, total, number, now, plan.mark)
    requires plan.send <==> plan.mark.status == MockSent
    ensures Finish(plan, env).FollowupMark? && FollowupIsMarked(f, total, number, now, Finish(plan, env))
  {
  }

  /** So is every queued text. */
  lemma QueuedItemIsMarked(rows: seq<Row>, items: seq<Item>, now: int, env: Env, k: nat)
    requires Planned(rows, items, PlanFor(now, env)) && k < |rows| && rows[k].Queued?
    ensures var q, mark := rows[k].q, items[k].mark;
            mark.QueueMark?
            && QueuedIsMarked(q, q.sentToday + Sends(items[..k], q.tenantId), q.sentToToday + SendsTo(items[..k], q.tenantId, q.toNumber), now, mark)
  {
    var row := ItemOf(rows, items, now, env, k);
    QueuedMarked(row.q, now);
    QueuedWhenReady(row.q, now, env);
    assert items[k].mark == Finish(PlanOneQueued(row.q, now), env);
  }

  /** And every review request. */
  lemma ReviewItemIsMarked(rows: seq<Row>, items: seq<Item>, now: int, env: Env, base: string, k: nat)
    requires Planned(rows, items, PlanFor(now, env)) && k < |rows| && rows[k].Review? && PublicAddress(env, base)
    ensures var r, mark := rows[k].r, items[k].mark;
            mark.ReviewMark?
            && ReviewIsMarked(r, r.sentToday + Sends(items[..k], r.tenantId), r.sentToToday + SendsTo(items[..k], r.tenantId, r.phone),
                              now, base != "" && r.token != "", mark)
  {
    var row := ItemOf(rows, items, now, env, k);
    ReviewMarked(row.r, now, env, base);
    ReviewWhenReady(row.r, now, env);
    FinishedReview(row.r, row.r.sentToday, row.r.sentToToday, now, base != "" && row.r.token != "", PlanOneReview(row.r, now, env), env);
    assert items[k].mark == Finish(PlanOneReview(row.r, now, env), env);
  }

  /** Nor here. */
  lemma FinishedReview(r: ReviewRow, total: int, number: int, now: int, linked: bool, plan: Plan, env: Env)
    requires plan.mark.ReviewMark? && ReviewIsMarked(r, total, number, now, linked, plan.mark)
    requires plan.send <==> plan.mark.status == MockSent
    ensures Finish(plan, env).ReviewMark? && ReviewIsMarked(r, total, number, now, linked, Finish(plan, env))
  {
  }

  // ---------------------------------------------------------------- the recount

  ghost function SendPlaces(items: seq<Item>, tenant: string): set<nat> {
    set i: nat | i < |items| && Gone(items[i].mark.status) && items[i].mark.tenantId == tenant
  }

  ghost function SendPlacesTo(items: seq<Item>, tenant: string, to: string): set<nat> {
    set i: nat | i < |items| && Gone(items[i].mark.status) && items[i].mark.tenantId == tenant && items[i].mark.to == to
  }

  lemma PlacesSnoc(items: seq<Item>, tenant: string, to: string)
    requires items != []
    ensures var n, last := |items| - 1, items[|items| - 1].mark;
            && SendPlaces(items, tenant) == SendPlaces(items[..n], tenant) + (if Gone(last.status) && last.tenantId == tenant then {n} else {})
            && SendPlacesTo(items, tenant, to)
               == SendPlacesTo(items[..n], tenant, to) + if Gone(last.status) && last.tenantId == tenant && last.to == to then {n} else {}
  {
    assert forall i :: 0 <= i < |items| - 1 ==> items[..|items| - 1][i] == items[i];
  }

  /** The recount is the number of places in the list that are sends of the shop, and of the shop to the number. */
  lemma {:induction false} RecountIsCount(items: seq<Item>, tenant: string, to: string)
    ensures Sends(items, tenant) == |SendPlaces(items, tenant)|
    ensures SendsTo(items, tenant, to) == |SendPlacesTo(items, tenant, to)|
  {
    if items != [] {
      RecountIsCount(items[..|items| - 1], tenant, to);
      PlacesSnoc(items, tenant, to);
    }
  }
}
