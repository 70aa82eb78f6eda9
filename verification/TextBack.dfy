/** The text-back engine's handlers: a context becomes a record, and `Project` folds records into state.
    Message wording is left out; a text is its recipient, purpose, delivery and time. */
module TextBack {
  import opened Common
  import opened WallClock
  import opened Templates
  import opened Planner

  // ---------------------------------------------------------------- phones and words

  function NormalizePhone(input: string): Option<string> {
    var raw := Trim(input);
    var digits := DigitsOf(raw);
    if digits == "" then None
    else if raw[0] == '+' then if 10 <= |digits| <= 15 then Some("+" + digits) else None
    else if |digits| == 10 then Some("+1" + digits)
    else if |digits| == 11 && digits[0] == '1' then Some("+" + digits)
    else None
  }

  predicate EndsSentence(c: char) {
    c == '.' || c == '!' || c == ','
  }

  function StripSentenceEnd(s: string): string {
    if s != "" && EndsSentence(s[|s| - 1]) then StripSentenceEnd(s[..|s| - 1]) else s
  }

  datatype Keyword = Stop | Help | Start | NoKeyword

  function KeywordOf(body: string): Keyword {
    var cleaned := Trim(StripSentenceEnd(Upper(Trim(body))));
    if exists c <- cleaned :: IsSpace(c) then NoKeyword
    else if cleaned in {"STOP", "STOPALL", "UNSUBSCRIBE", "CANCEL", "END", "QUIT"} then Stop
    else if cleaned in {"HELP", "INFO"} then Help
    else if cleaned in {"START", "UNSTOP"} then Start
    else NoKeyword
  }

  function Clip(s: string, max: nat): string {
    var text := Trim(s);
    if |text| <= max then text else text[..max]
  }

  function NormalizeUrgency(text: string): string {
    var value := Lower(Trim(text));
    if Contains(value, "today") || Contains(value, "asap") || Contains(value, "emergency") || Contains(value, "now")
       || Contains(value, "urgent") then "today"
    else if Contains(value, "week") then "this_week"
    else if Contains(value, "flex") || Contains(value, "whenever") || Contains(value, "no rush") || Contains(value, "not urgent")
    then "flexible"
    else Clip(text, 80)
  }

  // ---------------------------------------------------------------- data

  datatype Purpose =
    | MissedCall | Qualify | QualifyDone | RelayAck | OwnerReply | OwnerNotify | OwnerCapNotice
    | OwnerHelp | OwnerConfirm | HelpText | StopConfirm | StartConfirm

  datatype Delivery = Twiml | Queue | Mock

  datatype Outbound = Outbound(to: string, purpose: Purpose, delivery: Delivery, sendAt: Option<int>)

  datatype Stage = AwaitingNeed | AwaitingLocation | AwaitingUrgency | HandedOff | StoppedTexts

  datatype Conversation = Conversation(stage: Stage, need: Option<string>, location: Option<string>, urgency: Option<string>)

  datatype Topic = CallTopic | StopTopic | OptedOutTexted | RateLimitTopic | QualifiedLead | ReplyTopic | RestartTopic | OwnerTopic

  /** A notice on the owner's board; `texted` tells whether it also went out as an SMS. */
  datatype Notice = Notice(texted: bool, topic: Topic)

  datatype Record = Record(
    from: string, suppress: bool, clearSuppression: bool, conversation: Option<Conversation>,
    outbound: seq<Outbound>, notice: Option<Notice>)

  datatype Tenant = Tenant(shop: Shop, respectsQuietHours: bool, dialMode: bool)

  /** What parseOwnerCommand makes of an owner's text. */
  datatype OwnerCommand =
    | CommandHelp | Malformed | LogEstimate | CloseEstimate(found: bool) | RequestReview(phone: string) | ReplyTo(phone: string, message: string)

  datatype Context = Context(
    now: int, from: string, body: string, command: OwnerCommand, duplicate: bool,
    suppressed: bool, suppressedPhones: seq<string>, capNoticeSent: bool, conversation: Option<Conversation>,
    sentToday: nat, sentToToday: nat, sentToOwnerToday: nat)

  function Owner(t: Tenant): Option<string> {
    NormalizePhone(t.shop.ownerPhone)
  }

  const BLANK := Conversation(AwaitingNeed, None, None, None)

  // ---------------------------------------------------------------- owner alerts

  /** The texts collected by one handler and the counters it keeps beside them. */
  datatype Batch = Batch(outbound: seq<Outbound>, sentToday: nat, sentToCaller: nat, sentToOwner: nat, capNoticeSent: bool)

  function NewBatch(ctx: Context): Batch {
    Batch([], ctx.sentToday, ctx.sentToToday, ctx.sentToOwnerToday, ctx.capNoticeSent)
  }

  function AddText(b: Batch, o: Outbound): Batch {
    b.(outbound := b.outbound + [o])
  }

  /** Alerts the owner by text while both limits leave room; once the owner's own limit is reached, one pause
      notice goes out instead, if the shop still has room. */
  function PushOwnerAlert(b: Batch, t: Tenant): (Batch, bool) {
    match Owner(t)
    case None => (b, false)
    case Some(owner) =>
      if CanTextOwner(t.shop, b.sentToday, b.sentToOwner) then
        (AddText(b, Outbound(owner, OwnerNotify, Twiml, None))
         .(sentToday := b.sentToday + 1, sentToOwner := b.sentToOwner + 1), true)
      else if b.sentToday < t.shop.dailyLimit && b.sentToOwner >= OwnerLimit(t.shop.ownerLimit) && !b.capNoticeSent then
        (AddText(b, Outbound(owner, OwnerCapNotice, Twiml, None))
         .(sentToday := b.sentToday + 1, sentToOwner := b.sentToOwner + 1, capNoticeSent := true), false)
      else (b, false)
  }

  /** A text to the caller that counts against both limits. */
  function PushToCaller(b: Batch, to: string, purpose: Purpose): Batch {
    AddText(b, Outbound(to, purpose, Twiml, None)).(sentToday := b.sentToday + 1, sentToCaller := b.sentToCaller + 1)
  }

  // ---------------------------------------------------------------- calls

  datatype CallOutcome = InvalidCallerId | OwnerCalled | CallerOptedOut | DuplicateCall | QuietHoursDeferred | OverLimit | Texted

  function OutcomeOfCall(ctx: Context, t: Tenant): CallOutcome {
    if ctx.from == "" then InvalidCallerId
    else if Owner(t) == Some(ctx.from) then OwnerCalled
    else if ctx.suppressed then CallerOptedOut
    else if ctx.duplicate then DuplicateCall
    else if !CanText(t.shop, ctx.sentToday, ctx.sentToToday) then OverLimit
    else if t.respectsQuietHours && InQuietHours(ctx.now, t.shop.zone, t.shop.window) then QuietHoursDeferred
    else Texted
  }

  function CallText(ctx: Context, t: Tenant): Batch {
    match OutcomeOfCall(ctx, t)
    case Texted => PushToCaller(NewBatch(ctx), ctx.from, MissedCall)
    case QuietHoursDeferred =>
      AddText(NewBatch(ctx), Outbound(ctx.from, MissedCall, Queue, Some(NextWindowOpen(ctx.now, t.shop.zone, t.shop.window))))
    case _ => NewBatch(ctx)
  }

  function MissedCallRecord(ctx: Context, t: Tenant): Option<Record> {
    if ctx.duplicate then None
    else
      var (b, texted) := PushOwnerAlert(CallText(ctx, t), t);
      var outcome := OutcomeOfCall(ctx, t);
      var begins := ctx.conversation == None && (outcome == Texted || outcome == QuietHoursDeferred);
      Some(Record(ctx.from, false, false, if begins then Some(BLANK) else None, b.outbound, Some(Notice(texted, CallTopic))))
  }

  function QuietRecord(from: string, notice: Option<Notice>): Option<Record> {
    Some(Record(from, false, false, None, [], notice))
  }

  function HandleVoice(ctx: Context, t: Tenant, hasBaseUrl: bool): Option<Record> {
    if ctx.duplicate then None
    else if !t.dialMode then MissedCallRecord(ctx, t)
    else QuietRecord(ctx.from, if hasBaseUrl then None else Some(Notice(false, CallTopic)))
  }

  function HandleDialStatus(ctx: Context, t: Tenant, answered: bool): Option<Record> {
    if answered then QuietRecord(ctx.from, None) else MissedCallRecord(ctx, t)
  }

  // ---------------------------------------------------------------- texts

  predicate IsOptedOut(ctx: Context, phone: string) {
    NormalizePhone(phone).Some?
    && (NormalizePhone(phone) in Normalized(ctx.suppressedPhones)
        || (ctx.suppressed && NormalizePhone(ctx.from) == NormalizePhone(phone)))
  }

  function Normalized(phones: seq<string>): seq<Option<string>> {
    seq(|phones|, i requires 0 <= i < |phones| => NormalizePhone(phones[i]))
  }

  function ToOwner(owner: string, purpose: Purpose): Outbound {
    Outbound(owner, purpose, Twiml, None)
  }

  /** What an owner's text sends: a reply to a customer who may still be texted, and always an answer to the owner. */
  function OwnerTexts(ctx: Context, t: Tenant, owner: string): seq<Outbound> {
    match ctx.command
    case CommandHelp => [ToOwner(owner, OwnerHelp)]
    case Malformed => [ToOwner(owner, OwnerHelp)]
    case RequestReview(phone) => [ToOwner(owner, if NormalizePhone(phone) == None then OwnerHelp else OwnerConfirm)]
    case ReplyTo(phone, message) =>
      (match NormalizePhone(phone)
       case None => [ToOwner(owner, OwnerHelp)]
       case Some(to) =>
         if message == "" then [ToOwner(owner, OwnerHelp)]
         else if IsOptedOut(ctx, to) || !CanText(t.shop, ctx.sentToday, ctx.sentToToday) then [ToOwner(owner, OwnerConfirm)]
         else [Outbound(to, OwnerReply, Twiml, None), ToOwner(owner, OwnerConfirm)])
    case _ => [ToOwner(owner, OwnerConfirm)]
  }

  /** Commands that were understood and did something are noted on the board. */
  predicate Noted(command: OwnerCommand) {
    match command
    case CommandHelp => false
    case Malformed => false
    case LogEstimate => true
    case CloseEstimate(found) => found
    case RequestReview(phone) => NormalizePhone(phone).Some?
    case ReplyTo(phone, message) => NormalizePhone(phone).Some? && message != ""
  }

  function HandleOwnerSms(ctx: Context, t: Tenant, owner: string): Record {
    Record(ctx.from, false, false, None, OwnerTexts(ctx, t, owner),
           if Noted(ctx.command) then Some(Notice(true, OwnerTopic)) else None)
  }

  /** The conversation after a text, the purpose of the answer, and whether the lead is now qualified. */
  function Advance(conversation: Option<Conversation>, text: string): (Conversation, Purpose, bool) {
    match conversation
    case None => if text == "" then (BLANK, Qualify, false)
                 else (Conversation(AwaitingLocation, Some(Clip(text, 500)), None, None), Qualify, false)
    case Some(c) =>
      if text == "" then (c, Qualify, false)
      else match c.stage
        case AwaitingNeed => (c.(stage := AwaitingLocation, need := Some(Clip(text, 500))), Qualify, false)
        case StoppedTexts => (c.(stage := AwaitingLocation, need := Some(Clip(text, 500))), Qualify, false)
        case AwaitingLocation => (c.(stage := AwaitingUrgency, location := Some(Clip(text, 160))), Qualify, false)
        case AwaitingUrgency => (c.(stage := HandedOff, urgency := Some(NormalizeUrgency(text))), QualifyDone, true)
        case HandedOff => (c, RelayAck, false)
  }

  function StopRecord(ctx: Context, t: Tenant): Record {
    var c := if ctx.conversation.Some? then ctx.conversation.value else BLANK;
    var (b, texted) := PushOwnerAlert(AddText(NewBatch(ctx), Outbound(ctx.from, StopConfirm, Twiml, None)), t);
    Record(ctx.from, true, false, Some(c.(stage := StoppedTexts)), b.outbound, Some(Notice(texted, StopTopic)))
  }

  /** A record that only tells the owner. */
  function AlertRecord(ctx: Context, t: Tenant, topic: Topic): Record {
    var (b, texted) := PushOwnerAlert(NewBatch(ctx), t);
    Record(ctx.from, false, false, if topic == RateLimitTopic then ctx.conversation else None, b.outbound, Some(Notice(texted, topic)))
  }

  function AnswerRecord(ctx: Context, t: Tenant): Record {
    var (conversation, purpose, qualified) := Advance(ctx.conversation, Trim(ctx.body));
    var (b, texted) := PushOwnerAlert(PushToCaller(NewBatch(ctx), ctx.from, purpose), t);
    Record(ctx.from, false, false, Some(conversation), b.outbound,
           Some(Notice(texted, if qualified then QualifiedLead else ReplyTopic)))
  }

  function HandleInboundSms(ctx: Context, t: Tenant): Option<Record> {
    if ctx.from == "" then None
    else if Owner(t) == Some(ctx.from) then Some(HandleOwnerSms(ctx, t, ctx.from))
    else match KeywordOf(ctx.body)
      case Help => Some(Record(ctx.from, false, false, None, [Outbound(ctx.from, HelpText, Twiml, None)], None))
      case Stop => Some(StopRecord(ctx, t))
      case Start =>
        Some(Record(ctx.from, false, true, Some(BLANK), [Outbound(ctx.from, StartConfirm, Twiml, None)],
                    Some(Notice(true, RestartTopic))))
      case NoKeyword =>
        if ctx.suppressed then Some(AlertRecord(ctx, t, OptedOutTexted))
        else if !CanText(t.shop, ctx.sentToday, ctx.sentToToday) then Some(AlertRecord(ctx, t, RateLimitTopic))
        else Some(AnswerRecord(ctx, t))
  }

  // ---------------------------------------------------------------- dashboard

  datatype DashboardAction = DashEstimate(complete: bool) | DashReply(phone: string, message: string) | DashClose(found: bool) | DashUnknown

  function DashboardTexts(ctx: Context, t: Tenant, action: DashboardAction, delivery: Delivery): seq<Outbound> {
    match action
    case DashEstimate(complete) =>
      if complete && Owner(t).Some? then
        var at := if delivery == Queue then Some(InitialNextSendAt(ctx.now, t.shop.zone, t.shop.window)) else None;
        [Outbound(Owner(t).value, OwnerConfirm, delivery, at)]
      else []
    case DashReply(phone, message) =>
      if NormalizePhone(phone).Some? && Clip(message, 500) != "" && !IsOptedOut(ctx, phone) && CanText(t.shop, ctx.sentToday, 0)
      then [Outbound(NormalizePhone(phone).value, OwnerReply, delivery, None)] else []
    case _ => []
  }

  function HandleAction(ctx: Context, t: Tenant, action: DashboardAction, live: bool): Option<Record> {
    var texts := DashboardTexts(ctx, t, action, if live then Queue else Mock);
    var saved := match action
      case DashEstimate(complete) => complete
      case DashReply(_, _) => texts != []
      case DashClose(found) => found
      case DashUnknown => false;
    var from := if Owner(t).Some? then Owner(t).value else "";
    if saved then Some(Record(from, false, false, None, texts, Some(Notice(false, OwnerTopic)))) else None
  }

  // ---------------------------------------------------------------- state

  datatype State = State(
    conversation: Option<Conversation>, suppressed: bool, suppressedPhones: seq<string>, capNoticeSent: bool,
    outbound: seq<Outbound>, notices: seq<Notice>, sentToday: nat, sentToNumber: map<string, nat>)

  function FreshState(): State {
    State(None, false, [], false, [], [], 0, map[])
  }

  function SentTo(s: State, number: string): nat {
    if number in s.sentToNumber then s.sentToNumber[number] else 0
  }

  function AddOutbound(s: State, o: Outbound): State {
    var counted :=
      if o.delivery == Queue then s
      else s.(sentToday := s.sentToday + 1, sentToNumber := s.sentToNumber[o.to := SentTo(s, o.to) + 1]);
    counted.(outbound := s.outbound + [o], capNoticeSent := s.capNoticeSent || o.purpose == OwnerCapNotice)
  }

  function AddAllOutbound(s: State, items: seq<Outbound>): State {
    if items == [] then s else AddOutbound(AddAllOutbound(s, items[..|items| - 1]), items[|items| - 1])
  }

  function Without(phones: seq<string>, phone: Option<string>): seq<string> {
    if phones == [] then []
    else if Some(phones[0]) == phone then Without(phones[1..], phone)
    else [phones[0]] + Without(phones[1..], phone)
  }

  function WithSuppression(s: State, r: Record): State {
    var stopped := NormalizePhone(r.from);
    var afterStop :=
      if !r.suppress then s
      else s.(suppressed := true,
              suppressedPhones := if stopped.Some? && stopped.value !in s.suppressedPhones
                                  then s.suppressedPhones + [stopped.value] else s.suppressedPhones);
    if !r.clearSuppression then afterStop
    else afterStop.(suppressed := false, suppressedPhones := Without(afterStop.suppressedPhones, stopped))
  }

  function Project(s: State, record: Option<Record>): State {
    match record
    case None => s
    case Some(r) =>
      var talked := if r.conversation.Some? then s.(conversation := r.conversation) else s;
      var sent := AddAllOutbound(WithSuppression(talked, r), r.outbound);
      if r.notice.Some? then sent.(notices := sent.notices + [r.notice.value]) else sent
  }

  // ---------------------------------------------------------------- runs

  datatype Event =
    | Voice(from: string, now: int, duplicate: bool, hasBaseUrl: bool)
    | DialStatus(from: string, now: int, duplicate: bool, answered: bool)
    | Sms(from: string, now: int, body: string, command: OwnerCommand)
    | Dashboard(now: int, action: DashboardAction, live: bool)

  function ContextOf(s: State, t: Tenant, ev: Event): Context {
    var from := if ev.Dashboard? then "" else ev.from;
    var owner := if Owner(t).Some? then SentTo(s, Owner(t).value) else 0;
    Context(ev.now, from, if ev.Sms? then ev.body else "", if ev.Sms? then ev.command else CommandHelp,
            if ev.Voice? || ev.DialStatus? then ev.duplicate else false,
            s.suppressed, s.suppressedPhones, s.capNoticeSent, s.conversation,
            s.sentToday, SentTo(s, from), owner)
  }

  function Decide(s: State, t: Tenant, ev: Event): Option<Record> {
    var ctx := ContextOf(s, t, ev);
    match ev
    case Voice(_, _, _, hasBaseUrl) => HandleVoice(ctx, t, hasBaseUrl)
    case DialStatus(_, _, _, answered) => HandleDialStatus(ctx, t, answered)
    case Sms(_, _, _, _) => HandleInboundSms(ctx, t)
    case Dashboard(_, action, live) => HandleAction(ctx, t, action, live)
  }

  function Texts(s: State, t: Tenant, ev: Event): seq<Outbound> {
    match Decide(s, t, ev)
    case None => []
    case Some(r) => r.outbound
  }

  function Step(s: State, t: Tenant, ev: Event): State {
    Project(s, Decide(s, t, ev))
  }

  function Run(s: State, t: Tenant, events: seq<Event>): State {
    if events == [] then s
    else Step(Run(s, t, events[..|events| - 1]), t, events[|events| - 1])
  }
}
