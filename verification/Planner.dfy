/** The batch planner: what one pass over the due work sends, and why it holds the rest back. */
module Planner {
  import opened Common
  import opened WallClock
  import opened Templates

  datatype FollowupRow = FollowupRow(
    tenantId: string, shop: Shop, estimate: Estimate, stepIndex: nat,
    suppressed: bool, sentToday: int, sentToToday: int)

  datatype QueuedRow = QueuedRow(
    tenantId: string, shop: Shop, queueId: int, toNumber: string, fromNumber: string, body: string, purpose: string,
    suppressed: bool, sentToday: int, sentToToday: int)

  datatype ReviewRow = ReviewRow(
    tenantId: string, shop: Shop, reviewId: int, phone: string, reminder: bool, googleReviewUrl: string, token: string,
    suppressed: bool, sentToday: int, sentToToday: int)

  datatype Status = Suppressed | Deferred | RateLimited | Completed | Skipped | MockSent | Sent | Retry

  datatype EstimateStatus = Open | Won | Lost | Replied | OptedOut | Finished

  datatype Mark =
    | FollowupMark(tenantId: string, estimateId: int, to: string, from: string, status: Status,
                   stepBefore: nat, estimateStatus: EstimateStatus, stepIndex: nat, nextSendAt: Option<int>, body: string)
    | QueueMark(tenantId: string, queueId: int, to: string, from: string, status: Status,
                purpose: string, nextSendAt: Option<int>, body: string)
    | ReviewMark(tenantId: string, reviewId: int, to: string, from: string, status: Status,
                 purpose: string, nextSendAt: Option<int>, body: string)

  datatype Plan = Plan(send: bool, mark: Mark)

  /** The environment of a pass: the Twilio mode and credentials, the base64 encoder, and the public address. */
  datatype Env = Env(mode: string, accountSid: string, authToken: string, base64: string -> string, publicBaseUrl: string)
  {
    predicate Live() {
      mode == "live" && accountSid != "" && authToken != ""
    }

    function BasicAuth(): string {
      if accountSid == "" || authToken == "" then "" else "Basic " + base64(accountSid + ":" + authToken)
    }
  }

  datatype Item = Item(live: bool, from: string, to: string, body: string, auth: string, mark: Mark)

  predicate CanText(shop: Shop, sentToday: int, sentTo: int) {
    sentToday < shop.dailyLimit && sentTo < shop.perNumberLimit
  }

  /** Zero, missing and negative owner limits all mean sixty a day. */
  function OwnerLimit(limit: int): int {
    if limit > 0 then limit else 60
  }

  predicate CanTextOwner(shop: Shop, sentToday: int, sentToOwner: int) {
    sentToday < shop.dailyLimit && sentToOwner < OwnerLimit(shop.ownerLimit)
  }

  /** Step 1 goes out two local days after the estimate at ten, step 2 five days after, and nothing follows. */
  function NextFollowupAt(createdAt: int, stepAfter: int, shop: Shop): Option<int> {
    if stepAfter >= 3 then None
    else Some(AddLocalDays(createdAt, shop.zone, if stepAfter == 1 then 2 else 5, 600))
  }

  function HoldFollowup(row: FollowupRow, status: Status, estimateStatus: EstimateStatus, at: Option<int>): Plan {
    Plan(false, FollowupMark(row.tenantId, row.estimate.id, row.estimate.phone, row.shop.twilioNumber, status,
                             row.stepIndex, estimateStatus, row.stepIndex, at, ""))
  }

  function PlanOneFollowup(row: FollowupRow, now: int): Plan {
    var e, step := row.estimate, row.stepIndex;
    var shop := row.shop.(ownerPhone := "");   // the planner copies every template field but this one
    if row.suppressed then HoldFollowup(row, Suppressed, OptedOut, None)
    else if InQuietHours(now, shop.zone, shop.window) then
      HoldFollowup(row, Deferred, Open, Some(NextWindowOpen(now, shop.zone, shop.window)))
    else if !CanText(shop, row.sentToday, row.sentToToday) then HoldFollowup(row, RateLimited, Open, Some(now + 3600000))
    else if step >= 3 then HoldFollowup(row, Completed, Finished, None)
    else
      Plan(true, FollowupMark(row.tenantId, e.id, e.phone, shop.twilioNumber, MockSent, step,
                              if step + 1 >= 3 then Finished else Open, step + 1,
                              NextFollowupAt(e.createdAt, step + 1, shop), FollowupBody(shop, e, step)))
  }

  predicate IsHealth(purpose: string) {
    "health_" <= purpose
  }

  predicate IsRevenue(purpose: string) {
    "revenue_report" <= purpose
  }

  function MarkQueued(row: QueuedRow, status: Status, at: Option<int>): Mark {
    QueueMark(row.tenantId, row.queueId, row.toNumber, row.fromNumber, status, row.purpose, at, row.body)
  }

  predicate QueuedAllowed(row: QueuedRow) {
    if IsHealth(row.purpose) then true
    else if IsRevenue(row.purpose) then CanTextOwner(row.shop, row.sentToday, row.sentToToday)
    else CanText(row.shop, row.sentToday, row.sentToToday)
  }

  function PlanOneQueued(row: QueuedRow, now: int): Plan {
    if row.suppressed then Plan(false, MarkQueued(row, Suppressed, None))
    else if InQuietHours(now, row.shop.zone, row.shop.window) then
      Plan(false, MarkQueued(row, Deferred, Some(NextWindowOpen(now, row.shop.zone, row.shop.window))))
    else if !QueuedAllowed(row) then Plan(false, MarkQueued(row, RateLimited, Some(now + 3600000)))
    else Plan(true, MarkQueued(row, MockSent, None))
  }

  function ReviewBody(businessName: string, link: string, reminder: bool): string {
    if reminder then
      "Reminder from " + businessName + ": a short Google review still helps neighbors find us. " + link
      + " Reply STOP to opt out."
    else
      "Thanks for choosing " + businessName + ". If we earned it, a Google review helps neighbors find us: " + link
      + " Reply STOP to opt out."
  }

  /** The public address without one trailing slash. */
  function Origin(url: string): string {
    if url != "" && url[|url| - 1] == '/' then url[..|url| - 1] else url
  }

  function MarkReview(row: ReviewRow, status: Status, at: Option<int>, body: string): Mark {
    ReviewMark(row.tenantId, row.reviewId, row.phone, row.shop.twilioNumber, status,
               if row.reminder then "review_reminder" else "review_request", at, body)
  }

  function ReviewLink(row: ReviewRow, env: Env): string {
    Origin(env.publicBaseUrl) + "/webhook/mctb-r?t=" + row.token
  }

  function PlanOneReview(row: ReviewRow, now: int, env: Env): Plan {
    var shop := row.shop;
    if row.suppressed then Plan(false, MarkReview(row, Suppressed, None, ""))
    else if !("https://" <= Lower(row.googleReviewUrl)) then Plan(false, MarkReview(row, Skipped, None, ""))
    else if InQuietHours(now, shop.zone, shop.window) then
      Plan(false, MarkReview(row, Deferred, Some(NextWindowOpen(now, shop.zone, shop.window)), ""))
    else if !CanText(shop, row.sentToday, row.sentToToday) then
      Plan(false, MarkReview(row, RateLimited, Some(now + 3600000), ""))
    else if Origin(env.publicBaseUrl) == "" || row.token == "" then
      Plan(false, MarkReview(row, Deferred, Some(now + 3600000), ""))
    else
      var name := if shop.businessName == "" then "us" else shop.businessName;
      Plan(true, MarkReview(row, MockSent, None, ReviewBody(name, ReviewLink(row, env), row.reminder)))
  }

  // ---------------------------------------------------------------- one row at a time

  /** The three kinds of due work, in the order the planner takes them. */
  datatype Row = Followup(f: FollowupRow) | Queued(q: QueuedRow) | Review(r: ReviewRow)
  {
    function Tenant(): string {
      match this case Followup(f) => f.tenantId case Queued(q) => q.tenantId case Review(r) => r.tenantId
    }

    function To(): string {
      match this case Followup(f) => f.estimate.phone case Queued(q) => q.toNumber case Review(r) => r.phone
    }

    function GetShop(): Shop {
      match this case Followup(f) => f.shop case Queued(q) => q.shop case Review(r) => r.shop
    }

    function SentToday(): int {
      match this case Followup(f) => f.sentToday case Queued(q) => q.sentToday case Review(r) => r.sentToday
    }

    function SentTo(): int {
      match this case Followup(f) => f.sentToToday case Queued(q) => q.sentToToday case Review(r) => r.sentToToday
    }

    predicate IsSuppressed() {
      match this case Followup(f) => f.suppressed case Queued(q) => q.suppressed case Review(r) => r.suppressed
    }

    predicate Health() {
      Queued? && IsHealth(q.purpose)
    }

    predicate Revenue() {
      Queued? && IsRevenue(q.purpose)
    }

    /** The row as the database would have shown it after `total` and `toNumber` more texts. */
    function Adjusted(total: nat, toNumber: nat): Row {
      match this
      case Followup(f) => Followup(f.(sentToday := f.sentToday + total, sentToToday := f.sentToToday + toNumber))
      case Queued(q) => Queued(q.(sentToday := q.sentToday + total, sentToToday := q.sentToToday + toNumber))
      case Review(r) => Review(r.(sentToday := r.sentToday + total, sentToToday := r.sentToToday + toNumber))
    }
  }

  function PlanOne(row: Row, now: int, env: Env): Plan {
    match row
    case Followup(f) => PlanOneFollowup(f, now)
    case Queued(q) => PlanOneQueued(q, now)
    case Review(r) => PlanOneReview(r, now, env)
  }

  /** A planned send is marked with how it goes out. */
  function Finish(plan: Plan, env: Env): Mark {
    if plan.send then plan.mark.(status := if env.Live() then Sent else MockSent) else plan.mark
  }

  function PlanRow(row: Row, now: int, env: Env): Item {
    var plan := PlanOne(row, now, env);
    var from := match row
      case Followup(f) => f.shop.twilioNumber
      case Queued(q) => q.fromNumber
      case Review(r) => r.shop.twilioNumber;
    Item(env.Live() && plan.send, from, row.To(), plan.mark.body, if env.Live() then env.BasicAuth() else "", Finish(plan, env))
  }

  predicate IsSend(item: Item) {
    item.mark.status == Sent || item.mark.status == MockSent
  }

  /** Nothing but the row's own guards stands between it and being sent. */
  predicate Ready(row: Row, now: int, env: Env) {
    var shop := row.GetShop();
    && !row.IsSuppressed()
    && !InQuietHours(now, shop.zone, shop.window)
    && match row
       case Followup(f) => CanText(shop, f.sentToday, f.sentToToday) && f.stepIndex < 3
       case Queued(q) =>
         if IsHealth(q.purpose) then true
         else if IsRevenue(q.purpose) then CanTextOwner(shop, q.sentToday, q.sentToToday)
         else CanText(shop, q.sentToday, q.sentToToday)
       case Review(r) =>
         && "https://" <= Lower(r.googleReviewUrl)
         && CanText(shop, r.sentToday, r.sentToToday)
         && Origin(env.publicBaseUrl) != "" && r.token != ""
  }

  lemma FollowupWhenReady(f: FollowupRow, now: int, env: Env)
    ensures var plan := PlanOneFollowup(f, now);
            && (plan.send <==> Ready(Followup(f), now, env)) && (plan.send <==> plan.mark.status == MockSent)
            && plan.mark.status != Sent && plan.mark.tenantId == f.tenantId && plan.mark.to == f.estimate.phone
  {
  }

  lemma QueuedWhenReady(q: QueuedRow, now: int, env: Env)
    ensures var plan := PlanOneQueued(q, now);
            && (plan.send <==> Ready(Queued(q), now, env)) && (plan.send <==> plan.mark.status == MockSent)
            && plan.mark.status != Sent && plan.mark.tenantId == q.tenantId && plan.mark.to == q.toNumber
  {
  }

  lemma ReviewWhenReady(r: ReviewRow, now: int, env: Env)
    ensures var plan := PlanOneReview(r, now, env);
            && (plan.send <==> Ready(Review(r), now, env)) && (plan.send <==> plan.mark.status == MockSent)
            && plan.mark.status != Sent && plan.mark.tenantId == r.tenantId && plan.mark.to == r.phone
  {
  }

  /** A row is sent exactly when it is ready, to its own tenant's number, and a live item is a live send. */
  lemma SentWhenReady(row: Row, now: int, env: Env)
    ensures var item := PlanRow(row, now, env);
            && (IsSend(item) <==> Ready(row, now, env))
            && (item.live <==> env.Live() && IsSend(item))
            && item.mark.tenantId == row.Tenant() && item.mark.to == row.To() == item.to
  {
    match row {
      case Followup(f) => FollowupWhenReady(f, now, env);
      case Queued(q) => QueuedWhenReady(q, now, env);
      case Review(r) => ReviewWhenReady(r, now, env);
    }
  }

  // ---------------------------------------------------------------- recount

  /** Texts to `tenant` among the items emitted so far. */
  function Sends(items: seq<Item>, tenant: string): nat {
    if items == [] then 0
    else
      var last := items[|items| - 1];
      Sends(items[..|items| - 1], tenant) + if IsSend(last) && last.mark.tenantId == tenant then 1 else 0
  }

  /** Those of them to one number. */
  function SendsTo(items: seq<Item>, tenant: string, to: string): nat {
    if items == [] then 0
    else
      var last := items[|items| - 1];
      SendsTo(items[..|items| - 1], tenant, to)
      + if IsSend(last) && last.mark.tenantId == tenant && last.mark.to == to then 1 else 0
  }

  /** How a row is planned after `total` texts to its tenant, `toNumber` of them to its own number. */
  type RowPlanner = (Row, nat, nat) -> Item

  function PlanFor(now: int, env: Env): RowPlanner {
    (row: Row, total: nat, toNumber: nat) => PlanRow(row.Adjusted(total, toNumber), now, env)
  }

  /** What the batch needs of its planner: an item carries its row's address, and apart from health alerts a
      text is sent only while the daily limit, and the limit of its number, still leave room. */
  ghost predicate Careful(plan: RowPlanner) {
    forall row: Row, total: nat, toNumber: nat ::
      var item := plan(row, total, toNumber);
      && item.mark.tenantId == row.Tenant() && item.mark.to == row.To()
      && (IsSend(item) && !row.Health() ==>
            && row.SentToday() + total < row.GetShop().dailyLimit
            && row.SentTo() + toNumber < if row.Revenue() then OwnerLimit(row.GetShop().ownerLimit) else row.GetShop().perNumberLimit)
  }

  lemma PlanForIsCareful(now: int, env: Env)
    ensures Careful(PlanFor(now, env))
  {
    var plan := PlanFor(now, env);
    forall row: Row, total: nat, toNumber: nat
      ensures plan(row, total, toNumber) == PlanRow(row.Adjusted(total, toNumber), now, env)
    {
    }
    forall row: Row, total: nat, toNumber: nat {
      SentWhenReady(row.Adjusted(total, toNumber), now, env);
    }
  }

  /** The item a row must give when `before` has been emitted: planned with a full recount of the sends in it. */
  function Recounted(row: Row, before: seq<Item>, plan: RowPlanner): Item {
    plan(row, Sends(before, row.Tenant()), SendsTo(before, row.Tenant(), row.To()))
  }

  /** One item per row, in order, each planned with the recount at its own position. */
  ghost predicate Planned(rows: seq<Row>, items: seq<Item>, plan: RowPlanner) {
    && |items| == |rows|
    && forall k :: 0 <= k < |rows| ==> items[k] == Recounted(rows[k], items[..k], plan)
  }

  datatype Adjust = Adjust(total: nat, byNumber: map<string, nat>)

  /** The counters the planner keeps while it emits items. */
  class SentAdjust {
    var counts: map<string, Adjust>

    constructor ()
      ensures counts == map[]
    {
      counts := map[];
    }

    function Total(tenant: string): nat
      reads this
    {
      if tenant in counts then counts[tenant].total else 0
    }

    function ToNumber(tenant: string, to: string): nat
      reads this
    {
      if tenant in counts && to in counts[tenant].byNumber then counts[tenant].byNumber[to] else 0
    }

    /** The counters equal a recount of the items. */
    ghost predicate Recounts(items: seq<Item>)
      reads this
    {
      && (forall tenant :: Total(tenant) == Sends(items, tenant))
      && (forall tenant, to :: ToNumber(tenant, to) == SendsTo(items, tenant, to))
    }

    method Bump(tenant: string, to: string)
      modifies this
      ensures forall t :: Total(t) == old(Total(t)) + if t == tenant then 1 else 0
      ensures forall t, n :: ToNumber(t, n) == old(ToNumber(t, n)) + if t == tenant && n == to then 1 else 0
    {
      if tenant !in counts {
        counts := counts[tenant := Adjust(0, map[])];
      }
      var a := counts[tenant];
      var soFar := if to in a.byNumber then a.byNumber[to] else 0;
      counts := counts[tenant := Adjust(a.total + 1, a.byNumber[to := soFar + 1])];
    }

    /** Plans one row with the adjusted counters and counts it if it is sent. */
    method PlanAndCount(row: Row, ghost before: seq<Item>, plan: RowPlanner) returns (item: Item)
      requires Careful(plan) && Recounts(before)
      modifies this
      ensures item == Recounted(row, before, plan)
      ensures Recounts(before + [item])
    {
      item := plan(row, Total(row.Tenant()), ToNumber(row.Tenant(), row.To()));
      assert (before + [item])[..|before|] == before;
      if IsSend(item) {
        Bump(row.Tenant(), row.To());
      }
    }
  }

  /** The plan so far, extended by the item of the next row. */
  lemma PlannedNext(rows: seq<Row>, n: nat, items: seq<Item>, item: Item, plan: RowPlanner)
    requires n < |rows| && Planned(rows[..n], items, plan)
    requires item == Recounted(rows[n], items, plan)
    ensures Planned(rows[..n + 1], items + [item], plan)
  {
    var all := items + [item];
    forall k | 0 <= k <= n
      ensures all[k] == Recounted(rows[k], all[..k], plan)
    {
      assert all[..k] == items[..k];
      if k < n {
        assert rows[..n][k] == rows[k];
      }
    }
  }

  function FollowupRows(rows: seq<FollowupRow>): seq<Row> {
    seq(|rows|, i requires 0 <= i < |rows| => Followup(rows[i]))
  }

  function QueuedRows(rows: seq<QueuedRow>): seq<Row> {
    seq(|rows|, i requires 0 <= i < |rows| => Queued(rows[i]))
  }

  function ReviewRows(rows: seq<ReviewRow>): seq<Row> {
    seq(|rows|, i requires 0 <= i < |rows| => Review(rows[i]))
  }

  /** The due work in the order it is planned. */
  function AsRows(followups: seq<FollowupRow>, queued: seq<QueuedRow>, reviews: seq<ReviewRow>): seq<Row> {
    FollowupRows(followups) + QueuedRows(queued) + ReviewRows(reviews)
  }

  /** One of the planner's three loops: its rows follow the `start` rows already planned. */
  method PlanLoop(part: seq<Row>, start: nat, ghost rows: seq<Row>, before: seq<Item>, adjust: SentAdjust, plan: RowPlanner)
    returns (items: seq<Item>)
    requires Careful(plan) && adjust.Recounts(before)
    requires start + |part| <= |rows| && rows[start..start + |part|] == part && Planned(rows[..start], before, plan)
    modifies adjust
    ensures Planned(rows[..start + |part|], items, plan) && adjust.Recounts(items)
  {
    items := before;
    for i := 0 to |part|
      invariant Planned(rows[..start + i], items, plan) && adjust.Recounts(items)
    {
      var item := adjust.PlanAndCount(part[i], items, plan);
      assert rows[start + i] == part[i];
      PlannedNext(rows, start + i, items, item, plan);
      items := items + [item];
    }
  }

  lemma ThreeParts(f: seq<Row>, q: seq<Row>, r: seq<Row>)
    ensures var rows := f + q + r;
            && rows[..|f|] == f && rows[0..|f|] == f && rows[|f|..|f| + |q|] == q
            && rows[|f| + |q|..|f| + |q| + |r|] == r && rows[..|f| + |q| + |r|] == rows
  {
  }

  /** Follow-ups, queued texts and reviews in turn: the incremental counters never drift from a recount, at any row. */
  method PlanRows(followups: seq<FollowupRow>, queued: seq<QueuedRow>, reviews: seq<ReviewRow>, plan: RowPlanner)
    returns (items: seq<Item>)
    requires Careful(plan)
    ensures Planned(AsRows(followups, queued, reviews), items, plan)
  {
    var adjust := new SentAdjust();
    ghost var rows := AsRows(followups, queued, reviews);
    var f, q, r := FollowupRows(followups), QueuedRows(queued), ReviewRows(reviews);
    ThreeParts(f, q, r);
    items := PlanLoop(f, 0, rows, [], adjust, plan);
    items := PlanLoop(q, |f|, rows, items, adjust, plan);
    items := PlanLoop(r, |f| + |q|, rows, items, adjust, plan);
  }

  method PlanWork(followups: seq<FollowupRow>, queued: seq<QueuedRow>, reviews: seq<ReviewRow>, now: int, env: Env)
    returns (items: seq<Item>)
    ensures Planned(AsRows(followups, queued, reviews), items, PlanFor(now, env))
  {
    PlanForIsCareful(now, env);
    items := PlanRows(followups, queued, reviews, PlanFor(now, env));
  }

  // ---------------------------------------------------------------- caps

  /** The rows that are sent to `tenant` and belong to the class `who`. */
  function Counted(rows: seq<Row>, items: seq<Item>, tenant: string, who: Row -> bool): nat
    requires |rows| == |items|
  {
    if rows == [] then 0
    else
      var n := |rows| - 1;
      Counted(rows[..n], items[..n], tenant, who)
      + if IsSend(items[n]) && rows[n].Tenant() == tenant && who(rows[n]) then 1 else 0
  }

  /** The database snapshot agrees with itself about one tenant. */
  ghost predicate TenantSnapshot(rows: seq<Row>, tenant: string, dailyLimit: int, sentToday: int) {
    forall row <- rows :: row.Tenant() == tenant ==> row.GetShop().dailyLimit == dailyLimit && row.SentToday() == sentToday
  }

  /** And about one of its numbers. */
  ghost predicate NumberSnapshot(rows: seq<Row>, tenant: string, to: string, perNumber: int, owner: int, sentTo: int) {
    forall row <- rows :: row.Tenant() == tenant && row.To() == to ==>
      row.GetShop().perNumberLimit == perNumber && row.GetShop().ownerLimit == owner && row.SentTo() == sentTo
  }

  function Room(limit: int, used: int): nat {
    if used < limit then limit - used else 0
  }

  lemma PlannedPrefix(rows: seq<Row>, items: seq<Item>, plan: RowPlanner)
    requires Planned(rows, items, plan) && rows != []
    ensures var n := |rows| - 1;
            Planned(rows[..n], items[..n], plan) && items[n] == Recounted(rows[n], items[..n], plan)
  {
    var n := |rows| - 1;
    forall k | 0 <= k < n
      ensures items[..n][k] == Recounted(rows[..n][k], items[..n][..k], plan)
    {
      assert items[..n][..k] == items[..k];
    }
  }

  lemma {:induction false} DailyCount(rows: seq<Row>, items: seq<Item>, plan: RowPlanner,
                                      tenant: string, dailyLimit: int, sentToday: int)
    requires Careful(plan) && Planned(rows, items, plan) && TenantSnapshot(rows, tenant, dailyLimit, sentToday)
    ensures var counted := Counted(rows, items, tenant, (row: Row) => !row.Health());
            counted <= Sends(items, tenant) && counted <= Room(dailyLimit, sentToday)
  {
    if rows != [] {
      var n := |rows| - 1;
      PlannedPrefix(rows, items, plan);
      DailyCount(rows[..n], items[..n], plan, tenant, dailyLimit, sentToday);
      assert rows[n] in rows;
    }
  }

  predicate Customer(row: Row, to: string) {
    row.To() == to && !row.Health() && !row.Revenue()
  }

  lemma {:induction false} NumberCount(rows: seq<Row>, items: seq<Item>, plan: RowPlanner,
                                       tenant: string, to: string, perNumber: int, owner: int, sentTo: int)
    requires Careful(plan) && Planned(rows, items, plan) && NumberSnapshot(rows, tenant, to, perNumber, owner, sentTo)
    ensures var counted := Counted(rows, items, tenant, (row: Row) => Customer(row, to));
            counted <= SendsTo(items, tenant, to) && counted <= Room(perNumber, sentTo)
  {
    if rows != [] {
      var n := |rows| - 1;
      PlannedPrefix(rows, items, plan);
      NumberCount(rows[..n], items[..n], plan, tenant, to, perNumber, owner, sentTo);
      assert rows[n] in rows;
    }
  }

  predicate Report(row: Row, to: string) {
    row.To() == to && row.Revenue() && !row.Health()
  }

  lemma {:induction false} ReportCount(rows: seq<Row>, items: seq<Item>, plan: RowPlanner,
                                       tenant: string, to: string, perNumber: int, owner: int, sentTo: int)
    requires Careful(plan) && Planned(rows, items, plan) && NumberSnapshot(rows, tenant, to, perNumber, owner, sentTo)
    ensures var counted := Counted(rows, items, tenant, (row: Row) => Report(row, to));
            counted <= SendsTo(items, tenant, to) && counted <= Room(OwnerLimit(owner), sentTo)
  {
    if rows != [] {
      var n := |rows| - 1;
      PlannedPrefix(rows, items, plan);
      ReportCount(rows[..n], items[..n], plan, tenant, to, perNumber, owner, sentTo);
      assert rows[n] in rows;
    }
  }

  /** Texts other than health alerts never take a tenant past what its daily limit leaves, whatever mix of
      follow-ups, queued texts and reviews is due. */
  lemma DailyCap(rows: seq<Row>, items: seq<Item>, now: int, env: Env, tenant: string, dailyLimit: int, sentToday: int)
    requires Planned(rows, items, PlanFor(now, env)) && TenantSnapshot(rows, tenant, dailyLimit, sentToday)
    ensures Counted(rows, items, tenant, (row: Row) => !row.Health()) <= Room(dailyLimit, sentToday)
  {
    PlanForIsCareful(now, env);
    DailyCount(rows, items, PlanFor(now, env), tenant, dailyLimit, sentToday);
  }

  /** Nor do texts to one number pass its limit, nor revenue reports to it the owner's limit. */
  lemma NumberCap(rows: seq<Row>, items: seq<Item>, now: int, env: Env,
                  tenant: string, to: string, perNumber: int, owner: int, sentTo: int)
    requires Planned(rows, items, PlanFor(now, env)) && NumberSnapshot(rows, tenant, to, perNumber, owner, sentTo)
    ensures Counted(rows, items, tenant, (row: Row) => Customer(row, to)) <= Room(perNumber, sentTo)
    ensures Counted(rows, items, tenant, (row: Row) => Report(row, to)) <= Room(OwnerLimit(owner), sentTo)
  {
    PlanForIsCareful(now, env);
    NumberCount(rows, items, PlanFor(now, env), tenant, to, perNumber, owner, sentTo);
    ReportCount(rows, items, PlanFor(now, env), tenant, to, perNumber, owner, sentTo);
  }

  /** A row goes out exactly when it is ready under the recount at its position; in particular nothing goes to a
      number that opted out and nothing goes out in quiet hours, health alerts included. */
  lemma SentExactlyWhenReady(rows: seq<Row>, items: seq<Item>, now: int, env: Env, k: nat)
    requires Planned(rows, items, PlanFor(now, env)) && k < |rows|
    ensures var row, shop := rows[k], rows[k].GetShop();
            var total, toNumber := Sends(items[..k], row.Tenant()), SendsTo(items[..k], row.Tenant(), row.To());
            && (IsSend(items[k]) <==> Ready(row.Adjusted(total, toNumber), now, env))
            && (row.IsSuppressed() || InQuietHours(now, shop.zone, shop.window) ==> !IsSend(items[k]) && !items[k].live)
  {
    var row := rows[k];
    SentWhenReady(row.Adjusted(Sends(items[..k], row.Tenant()), SendsTo(items[..k], row.Tenant(), row.To())), now, env);
  }
}
