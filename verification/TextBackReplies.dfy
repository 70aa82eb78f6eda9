/** What every run of the text-back engine owes to the events behind it: who is answered and how often, what a qualified
    lead said, and what the owner may send by text. */
module TextBackReplies {
  import opened Common
  import opened WallClock
  import opened Planner
  import opened TextBack
  import opened TextBackCaps
  import opened TextBackLeads

  predicate ForOwnerOnly(o: Outbound) {
    o.purpose == OwnerNotify || o.purpose == OwnerCapNotice
  }

  /** The list starts with this text, if any, and the rest is for the owner only. */
  ghost predicate Shape(texts: seq<Outbound>, first: Option<Outbound>) {
    match first
    case None => forall o <- texts :: ForOwnerOnly(o)
    case Some(o) => texts != [] && texts[0] == o && forall i :: 1 <= i < |texts| ==> ForOwnerOnly(texts[i])
  }

  lemma AlertShape(b: Batch, t: Tenant, first: Option<Outbound>)
    requires b.outbound == match first { case None => [] case Some(o) => [o] }
    ensures Shape(PushOwnerAlert(b, t).0.outbound, first)
  {
  }

  // ---------------------------------------------------------------- missed calls

  predicate IsMissedCall(t: Tenant, ev: Event) {
    (ev.Voice? && !t.dialMode) || (ev.DialStatus? && !ev.answered)
  }

  /** The caller may be texted back: known, new, not the owner, not opted out, and within both limits. */
  predicate MayTextBack(s: State, t: Tenant, ev: Event)
    requires IsMissedCall(t, ev)
  {
    && ev.from != "" && Owner(t) != Some(ev.from) && !s.suppressed && !ev.duplicate
    && CanText(t.shop, s.sentToday, SentTo(s, ev.from))
  }

  /** When and how a missed call is texted back: at once, or queued for the end of quiet hours if the shop respects them. */
  function TextBackFor(t: Tenant, ev: Event): Outbound
    requires IsMissedCall(t, ev)
  {
    if t.respectsQuietHours && InQuietHours(ev.now, t.shop.zone, t.shop.window) then
      Outbound(ev.from, MissedCall, Queue, Some(NextWindowOpen(ev.now, t.shop.zone, t.shop.window)))
    else Outbound(ev.from, MissedCall, Twiml, None)
  }

  lemma CallTextExactly(s: State, t: Tenant, ev: Event)
    requires IsMissedCall(t, ev)
    ensures var ctx := ContextOf(s, t, ev);
            && CallText(ctx, t).outbound == (if MayTextBack(s, t, ev) then [TextBackFor(t, ev)] else [])
            && (OutcomeOfCall(ctx, t) in {Texted, QuietHoursDeferred} <==> MayTextBack(s, t, ev))
  {
  }

  /** A missed call is texted back if and only if the caller may be texted, and nothing else goes out but an alert. */
  lemma MissedCallIsTextedExactly(s: State, t: Tenant, ev: Event)
    requires IsMissedCall(t, ev)
    ensures Shape(Texts(s, t, ev), if MayTextBack(s, t, ev) then Some(TextBackFor(t, ev)) else None)
  {
    CallTextExactly(s, t, ev);
    AlertShape(CallText(ContextOf(s, t, ev), t), t, if MayTextBack(s, t, ev) then Some(TextBackFor(t, ev)) else None);
  }

  // ---------------------------------------------------------------- customers' texts

  predicate FromCustomer(t: Tenant, ev: Event) {
    ev.Sms? && ev.from != "" && Owner(t) != Some(ev.from)
  }

  /** The purpose of the answer to a customer's text, or None when there is none. */
  function AnswerTo(s: State, t: Tenant, ev: Event): Option<Purpose>
    requires FromCustomer(t, ev)
  {
    match KeywordOf(ev.body)
    case Help => Some(HelpText)
    case Stop => Some(StopConfirm)
    case Start => Some(StartConfirm)
    case NoKeyword => if Answered(s, t, ev) then Some(Advance(s.conversation, Trim(ev.body)).1) else None
  }

  /** The text that answers it. */
  function Answer(s: State, t: Tenant, ev: Event): Option<Outbound>
    requires FromCustomer(t, ev)
  {
    match AnswerTo(s, t, ev)
    case None => None
    case Some(purpose) => Some(Outbound(ev.from, purpose, Twiml, None))
  }

  lemma KeywordAnswered(s: State, t: Tenant, ev: Event)
    requires FromCustomer(t, ev) && KeywordOf(ev.body) != NoKeyword
    ensures Shape(Texts(s, t, ev), Answer(s, t, ev))
  {
    var ctx := ContextOf(s, t, ev);
    if KeywordOf(ev.body) == Stop {
      AlertShape(AddText(NewBatch(ctx), Outbound(ctx.from, StopConfirm, Twiml, None)), t, Answer(s, t, ev));
    }
  }

  lemma PlainTextAnswered(s: State, t: Tenant, ev: Event)
    requires FromCustomer(t, ev) && KeywordOf(ev.body) == NoKeyword
    ensures Shape(Texts(s, t, ev), Answer(s, t, ev))
  {
    var ctx := ContextOf(s, t, ev);
    if Answered(s, t, ev) {
      AlertShape(PushToCaller(NewBatch(ctx), ctx.from, Advance(ctx.conversation, Trim(ctx.body)).1), t, Answer(s, t, ev));
    } else {
      AlertShape(NewBatch(ctx), t, None);
    }
  }

  /** A customer's text gets exactly one answer when it is a keyword or the limits allow one, otherwise none; whatever
      else goes out is an alert to the owner. */
  lemma TextIsAnsweredExactly(s: State, t: Tenant, ev: Event)
    requires FromCustomer(t, ev)
    ensures Shape(Texts(s, t, ev), Answer(s, t, ev))
  {
    if KeywordOf(ev.body) == NoKeyword {
      PlainTextAnswered(s, t, ev);
    } else {
      KeywordAnswered(s, t, ev);
    }
  }

  // ---------------------------------------------------------------- nobody is texted unprompted

  /** A text that the engine itself sends to a caller. */
  predicate ForCaller(o: Outbound, number: string) {
    o.to == number && (IsAutomatic(o.purpose) || o.purpose == HelpText || o.purpose == StopConfirm || o.purpose == StartConfirm)
  }

  function Tally(out: seq<Outbound>, who: Outbound -> bool): nat {
    if out == [] then 0 else Tally(out[..|out| - 1], who) + if who(out[|out| - 1]) then 1 else 0
  }

  lemma {:induction false} TallyJoin(a: seq<Outbound>, b: seq<Outbound>, who: Outbound -> bool)
    ensures Tally(a + b, who) == Tally(a, who) + Tally(b, who)
  {
    if b == [] {
      assert a + b == a;
    } else {
      var n := |b| - 1;
      TallyJoin(a, b[..n], who);
      assert (a + b)[..|a + b| - 1] == a + b[..n];
    }
  }

  lemma {:induction false} TallyNone(out: seq<Outbound>, who: Outbound -> bool)
    requires forall o <- out :: !who(o)
    ensures Tally(out, who) == 0
  {
    if out != [] {
      var n := |out| - 1;
      assert out[n] in out && forall o <- out[..n] :: o in out;
      TallyNone(out[..n], who);
    }
  }

  /** A list with one such text in front and none behind. */
  lemma TallyFirst(out: seq<Outbound>, who: Outbound -> bool)
    requires out != [] && who(out[0]) && forall i :: 1 <= i < |out| ==> !who(out[i])
    ensures Tally(out, who) == 1
  {
    TallyJoin([out[0]], out[1..], who);
    assert out == [out[0]] + out[1..] && [out[0]][..0] == [];
    assert forall i :: 0 <= i < |out[1..]| ==> out[1..][i] == out[i + 1];
    TallyNone(out[1..], who);
  }

  /** The event is one of this number's that is to be answered: a missed call or a text. */
  predicate Prompts(s: State, t: Tenant, ev: Event, number: string) {
    || (IsMissedCall(t, ev) && ev.from == number && MayTextBack(s, t, ev))
    || (FromCustomer(t, ev) && ev.from == number && AnswerTo(s, t, ev).Some?)
  }

  /** Alerts are not among the texts that the engine sends to callers. */
  lemma TallyShape(texts: seq<Outbound>, first: Option<Outbound>, number: string)
    requires Shape(texts, first)
    ensures Tally(texts, (o: Outbound) => ForCaller(o, number)) == if first.Some? && ForCaller(first.value, number) then 1 else 0
  {
    var who := (o: Outbound) => ForCaller(o, number);
    if first.Some? && ForCaller(first.value, number) {
      TallyFirst(texts, who);
    } else {
      forall o | o in texts
        ensures !who(o)
      {
        var i :| 0 <= i < |texts| && texts[i] == o;
      }
      TallyNone(texts, who);
    }
  }

  lemma AnswersAreForCallers(s: State, t: Tenant, ev: Event, number: string)
    requires FromCustomer(t, ev) && AnswerTo(s, t, ev).Some?
    ensures ForCaller(Answer(s, t, ev).value, number) <==> ev.from == number
    ensures !SmsReply(Answer(s, t, ev).value)
  {
  }

  /** The owner's texts and the dashboard are no such prompts, and neither is a call that rings the owner. */
  lemma OthersAccounted(s: State, t: Tenant, ev: Event, number: string)
    requires !IsMissedCall(t, ev) && !FromCustomer(t, ev)
    ensures Tally(Texts(s, t, ev), (o: Outbound) => ForCaller(o, number)) == 0
  {
    var who := (o: Outbound) => ForCaller(o, number);
    assert forall o <- Texts(s, t, ev) :: !ForCaller(o, number);
    TallyNone(Texts(s, t, ev), who);
  }

  lemma StepAccounted(s: State, t: Tenant, ev: Event, number: string)
    ensures Tally(Texts(s, t, ev), (o: Outbound) => ForCaller(o, number)) == if Prompts(s, t, ev, number) then 1 else 0
  {
    if IsMissedCall(t, ev) {
      MissedCallIsTextedExactly(s, t, ev);
      TallyShape(Texts(s, t, ev), if MayTextBack(s, t, ev) then Some(TextBackFor(t, ev)) else None, number);
    } else if FromCustomer(t, ev) {
      TextIsAnsweredExactly(s, t, ev);
      TallyShape(Texts(s, t, ev), Answer(s, t, ev), number);
      if AnswerTo(s, t, ev).Some? {
        AnswersAreForCallers(s, t, ev, number);
      }
    } else {
      OthersAccounted(s, t, ev, number);
    }
  }

  /** The events of a run that prompt a text to this number. */
  function Prompted(t: Tenant, events: seq<Event>, number: string): nat {
    if events == [] then 0
    else
      var n := |events| - 1;
      Prompted(t, events[..n], number) + if Prompts(Run(FreshState(), t, events[..n]), t, events[n], number) then 1 else 0
  }

  /** The calls and texts that came from this number. */
  function Contacts(events: seq<Event>, number: string): nat {
    if events == [] then 0
    else
      var n := |events| - 1;
      Contacts(events[..n], number) + if !events[n].Dashboard? && events[n].from == number then 1 else 0
  }

  lemma {:induction false} PromptedAreContacts(t: Tenant, events: seq<Event>, number: string)
    ensures Prompted(t, events, number) <= Contacts(events, number)
  {
    if events != [] {
      PromptedAreContacts(t, events[..|events| - 1], number);
    }
  }

  lemma RunLogs(t: Tenant, events: seq<Event>)
    requires events != []
    ensures var n := |events| - 1;
            var s := Run(FreshState(), t, events[..n]);
            Run(FreshState(), t, events).outbound == s.outbound + Texts(s, t, events[n])
  {
    var n := |events| - 1;
    var s := Run(FreshState(), t, events[..n]);
    CapsHoldOverRuns(t, events[..n]);
    TextsAdmissible(s, t, events[n]);
    StepLogsTexts(s, t, events[n]);
  }

  /** Over every run, the texts that the engine sent or queued to a number are exactly as many as that number's calls and
      texts that were to be answered; so nobody is texted more often than they called or wrote. */
  lemma {:induction false} NobodyTextedUnprompted(t: Tenant, events: seq<Event>, number: string)
    ensures Tally(Run(FreshState(), t, events).outbound, (o: Outbound) => ForCaller(o, number)) == Prompted(t, events, number)
    ensures Prompted(t, events, number) <= Contacts(events, number)
  {
    PromptedAreContacts(t, events, number);
    if events != [] {
      var n := |events| - 1;
      var s := Run(FreshState(), t, events[..n]);
      NobodyTextedUnprompted(t, events[..n], number);
      RunLogs(t, events);
      TallyJoin(s.outbound, Texts(s, t, events[n]), (o: Outbound) => ForCaller(o, number));
      StepAccounted(s, t, events[n], number);
    }
  }

  // ---------------------------------------------------------------- alerts are hand-overs

  predicate HandedOver(s: State) {
    s.conversation.Some? && s.conversation.value.stage == HandedOff
  }

  /** How often the conversation entered the stage in which the lead is the owner's. */
  function HandOvers(t: Tenant, events: seq<Event>): nat {
    if events == [] then 0
    else
      var n := |events| - 1;
      HandOvers(t, events[..n])
      + if !HandedOver(Run(FreshState(), t, events[..n])) && HandedOver(Run(FreshState(), t, events)) then 1 else 0
  }

  /** What a record does to the stage, and whether it alerts. */
  lemma AlertMovesToHandOver(s: State, t: Tenant, ev: Event)
    requires Decide(s, t, ev).Some?
    ensures var r := Decide(s, t, ev).value;
            var talk := if r.conversation.Some? then r.conversation else s.conversation;
            (r.notice.Some? && r.notice.value.topic == QualifiedLead)
            <==> !HandedOver(s) && HandedOver(s.(conversation := talk))
  {
    ConversationMoves(s, t, ev);
  }

  /** A step alerts the owner of a qualified lead exactly when it enters that stage. */
  lemma AlertIsHandOver(s: State, t: Tenant, ev: Event, after: State)
    requires after == Project(s, Decide(s, t, ev))
    ensures Qualified(after.notices) == Qualified(s.notices) + if !HandedOver(s) && HandedOver(after) then 1 else 0
  {
    if Decide(s, t, ev).Some? {
      var r := Decide(s, t, ev).value;
      AlertMovesToHandOver(s, t, ev);
      ProjectTalk(s, r);
      if r.notice.Some? {
        QualifiedSnoc(s.notices, r.notice.value);
      }
    }
  }

  /** Over every run the qualified-lead alerts are as many as the entries into the hand-over. */
  lemma {:induction false} AlertsAreHandOvers(t: Tenant, events: seq<Event>)
    ensures Qualified(Run(FreshState(), t, events).notices) == HandOvers(t, events)
  {
    if events != [] {
      var n := |events| - 1;
      AlertsAreHandOvers(t, events[..n]);
      AlertIsHandOver(Run(FreshState(), t, events[..n]), t, events[n], Run(FreshState(), t, events));
    }
  }

  // ---------------------------------------------------------------- what a qualified lead said

  predicate SaidNeed(events: seq<Event>, i: nat, c: Conversation) {
    i < |events| && events[i].Sms? && c.need == Some(Clip(Trim(events[i].body), 500))
  }

  predicate SaidLocation(events: seq<Event>, i: nat, c: Conversation) {
    i < |events| && events[i].Sms? && c.location == Some(Clip(Trim(events[i].body), 160))
  }

  predicate SaidUrgency(events: seq<Event>, i: nat, c: Conversation) {
    i < |events| && events[i].Sms? && c.urgency == Some(NormalizeUrgency(Trim(events[i].body)))
  }

  ghost predicate HasNeed(events: seq<Event>, c: Conversation) {
    exists i :: SaidNeed(events, i, c)
  }

  ghost predicate HasLocation(events: seq<Event>, c: Conversation) {
    exists i, j :: i < j && SaidNeed(events, i, c) && SaidLocation(events, j, c)
  }

  ghost predicate HasUrgency(events: seq<Event>, c: Conversation) {
    exists i: nat, j: nat, k: nat :: i < j < k && SaidNeed(events, i, c) && SaidLocation(events, j, c) && SaidUrgency(events, k, c)
  }

  /** Each stage has what was said for it, in texts of the run that came in that order. */
  ghost predicate Sayings(events: seq<Event>, conversation: Option<Conversation>) {
    conversation.Some? ==>
      var c := conversation.value;
      && (c.stage == AwaitingLocation ==> HasNeed(events, c))
      && (c.stage == AwaitingUrgency ==> HasLocation(events, c))
      && (c.stage == HandedOff ==> HasUrgency(events, c))
  }

  lemma SayingsLast(events: seq<Event>, conversation: Option<Conversation>)
    requires events != [] && Sayings(events[..|events| - 1], conversation)
    ensures Sayings(events, conversation)
  {
    var before := events[..|events| - 1];
    if conversation.Some? {
      var c := conversation.value;
      if c.stage == AwaitingLocation {
        var i :| SaidNeed(before, i, c);
        assert SaidNeed(events, i, c);
      } else if c.stage == AwaitingUrgency {
        var i, j :| i < j && SaidNeed(before, i, c) && SaidLocation(before, j, c);
        assert SaidNeed(events, i, c) && SaidLocation(events, j, c);
      } else if c.stage == HandedOff {
        var i: nat, j: nat, k: nat :| i < j < k && SaidNeed(before, i, c) && SaidLocation(before, j, c) && SaidUrgency(before, k, c);
        assert SaidNeed(events, i, c) && SaidLocation(events, j, c) && SaidUrgency(events, k, c);
      }
    }
  }

  /** The last text answers the question that was open. */
  lemma AdvanceSays(events: seq<Event>, conversation: Option<Conversation>)
    requires events != [] && events[|events| - 1].Sms? && Sayings(events[..|events| - 1], conversation)
    ensures Sayings(events, Some(Advance(conversation, Trim(events[|events| - 1].body)).0))
  {
    var n := |events| - 1;
    var before, text := events[..n], Trim(events[n].body);
    var next := Advance(conversation, text).0;
    SayingsLast(events, conversation);
    if text != "" {
      if next.stage == AwaitingLocation {
        assert SaidNeed(events, n, next);
      } else if next.stage == AwaitingUrgency {
        var i :| SaidNeed(before, i, conversation.value);
        assert SaidNeed(events, i, next) && SaidLocation(events, n, next);
      } else if conversation.value.stage == AwaitingUrgency {
        LastSaysUrgency(events, conversation.value, next);
      }
    }
  }

  lemma LastSaysUrgency(events: seq<Event>, c: Conversation, next: Conversation)
    requires events != [] && events[|events| - 1].Sms? && HasLocation(events[..|events| - 1], c)
    requires next == c.(stage := HandedOff, urgency := Some(NormalizeUrgency(Trim(events[|events| - 1].body))))
    ensures HasUrgency(events, next)
  {
    var n := |events| - 1;
    var i, j :| i < j && SaidNeed(events[..n], i, c) && SaidLocation(events[..n], j, c);
    assert SaidNeed(events, i, next) && SaidLocation(events, j, next) && SaidUrgency(events, n, next);
  }

  /** Over every run, what the owner is handed is what was said: the need, the location and the urgency are those of three
      texts of the run, in that order. */
  lemma {:induction false} LeadsSaidSo(t: Tenant, events: seq<Event>)
    ensures Sayings(events, Run(FreshState(), t, events).conversation)
  {
    if events != [] {
      var n := |events| - 1;
      var s, ev := Run(FreshState(), t, events[..n]), events[n];
      LeadsSaidSo(t, events[..n]);
      SayingsLast(events, s.conversation);
      if Decide(s, t, ev).Some? {
        var r := Decide(s, t, ev).value;
        ConversationMoves(s, t, ev);
        ProjectTalk(s, r);
        if Answered(s, t, ev) {
          AdvanceSays(events, s.conversation);
        }
      }
    }
  }

  // ---------------------------------------------------------------- the owner's replies by text

  /** A reply to a customer that the owner sent by text. */
  predicate SmsReply(o: Outbound) {
    o.purpose == OwnerReply && o.delivery == Twiml
  }

  /** The owner is answered last, and only a reply to a customer may come before. */
  lemma OwnerTextsShape(ctx: Context, t: Tenant, owner: string)
    ensures var texts := OwnerTexts(ctx, t, owner);
            && 1 <= |texts| <= 2 && In(texts[|texts| - 1], DeliveredTo(owner)) && !SmsReply(texts[|texts| - 1])
            && (|texts| == 2 ==> SmsReply(texts[0]) && ctx.sentToToday < t.shop.perNumberLimit)
  {
  }

  lemma OwnerTextsExactly(ctx: Context, t: Tenant, owner: string)
    ensures var texts, who := OwnerTexts(ctx, t, owner), (o: Outbound) => SmsReply(o);
            && (Tally(texts, who) == 0 || (Tally(texts, who) == 1 && ctx.sentToToday < t.shop.perNumberLimit))
            && Tally(texts, who) <= Count(texts, DeliveredTo(owner))
  {
    var texts, who := OwnerTexts(ctx, t, owner), (o: Outbound) => SmsReply(o);
    OwnerTextsShape(ctx, t, owner);
    assert Count(texts, DeliveredTo(owner)) >= 1;
    if |texts| == 2 {
      TallyFirst(texts, who);
    } else {
      TallyNone(texts, who);
    }
  }

  lemma ShapeNoReply(texts: seq<Outbound>, first: Option<Outbound>)
    requires Shape(texts, first) && (first.Some? ==> !SmsReply(first.value))
    ensures forall o <- texts :: !SmsReply(o)
  {
    forall o | o in texts
      ensures !SmsReply(o)
    {
      var i :| 0 <= i < |texts| && texts[i] == o;
    }
  }

  lemma DashboardNoReply(ctx: Context, t: Tenant, action: DashboardAction, live: bool)
    ensures forall o <- DashboardTexts(ctx, t, action, if live then Queue else Mock) :: !SmsReply(o)
  {
  }

  lemma NoOwnerNoReply(s: State, t: Tenant, ev: Event)
    requires !(ev.Sms? && Owner(t) == Some(ev.from))
    ensures forall o <- Texts(s, t, ev) :: !SmsReply(o)
  {
    if IsMissedCall(t, ev) {
      MissedCallIsTextedExactly(s, t, ev);
      ShapeNoReply(Texts(s, t, ev), if MayTextBack(s, t, ev) then Some(TextBackFor(t, ev)) else None);
    } else if FromCustomer(t, ev) {
      TextIsAnsweredExactly(s, t, ev);
      if AnswerTo(s, t, ev).Some? {
        AnswersAreForCallers(s, t, ev, ev.from);
      }
      ShapeNoReply(Texts(s, t, ev), Answer(s, t, ev));
    } else if ev.Dashboard? {
      DashboardNoReply(ContextOf(s, t, ev), t, ev.action, ev.live);
    }
  }

  /** One event: its replies are no more than its texts to the owner, and there is one only while the owner's own count is
      below the limit of a number. */
  lemma StepReplies(s: State, t: Tenant, ev: Event, owner: string)
    requires Owner(t) == Some(owner)
    ensures var texts, who := Texts(s, t, ev), (o: Outbound) => SmsReply(o);
            && (Tally(texts, who) == 0 || (Tally(texts, who) == 1 && SentTo(s, owner) < t.shop.perNumberLimit))
            && Tally(texts, who) <= Count(texts, DeliveredTo(owner))
  {
    var who := (o: Outbound) => SmsReply(o);
    if ev.Sms? && ev.from == owner && ev.from != "" {
      assert Texts(s, t, ev) == OwnerTexts(ContextOf(s, t, ev), t, owner);
      OwnerTextsExactly(ContextOf(s, t, ev), t, owner);
    } else {
      OwnerIsSomebody(t);
      NoOwnerNoReply(s, t, ev);
      TallyNone(Texts(s, t, ev), who);
    }
  }

  lemma OwnerIsSomebody(t: Tenant)
    ensures Owner(t) != Some("")
  {
  }

  lemma {:induction false} CountJoin(a: seq<Outbound>, b: seq<Outbound>, c: Class)
    ensures Count(a + b, c) == Count(a, c) + Count(b, c)
  {
    if b == [] {
      assert a + b == a;
    } else {
      var n := |b| - 1;
      CountJoin(a, b[..n], c);
      assert (a + b)[..|a + b| - 1] == a + b[..n];
    }
  }

  /** Over every day's run, the replies that the owner sends by text never exceed the daily limit of a single number,
      whoever they go to, because each is allowed by the owner's own count and answered to the owner. */
  lemma {:induction false} OwnerRepliesCapped(t: Tenant, events: seq<Event>, owner: string)
    requires Owner(t) == Some(owner)
    ensures var out := Run(FreshState(), t, events).outbound;
            && Tally(out, (o: Outbound) => SmsReply(o)) <= Room(t.shop.perNumberLimit, 0)
            && Tally(out, (o: Outbound) => SmsReply(o)) <= Count(out, DeliveredTo(owner))
  {
    if events != [] {
      var n := |events| - 1;
      var s := Run(FreshState(), t, events[..n]);
      var texts := Texts(s, t, events[n]);
      OwnerRepliesCapped(t, events[..n], owner);
      CapsHoldOverRuns(t, events[..n]);
      RunLogs(t, events);
      StepReplies(s, t, events[n], owner);
      TallyJoin(s.outbound, texts, (o: Outbound) => SmsReply(o));
      CountJoin(s.outbound, texts, DeliveredTo(owner));
    }
  }
}
