/** What one event of the text-back engine does, exactly: the conversation, the alerts and notices, the owner's and the
    dashboard's replies, and how numbers and answers are read. */
module TextBackSteps {
  import opened Common
  import opened WallClock
  import opened Planner
  import opened TextBack
  import opened TextBackLeads
  import TextBackOptOut
  import opened TextBackReplies
  import opened TextBackWords

  // ---------------------------------------------------------------- numbers and answers

  /** The digits of a number keep their order. */
  lemma {:induction false} DigitsJoin(a: string, b: string)
    ensures DigitsOf(a + b) == DigitsOf(a) + DigitsOf(b)
  {
    if a == "" {
      assert a + b == b;
    } else {
      assert (a + b)[1..] == a[1..] + b;
      DigitsJoin(a[1..], b);
    }
  }

  /** A character of a number counts exactly when it is a digit. */
  lemma DigitsAre(c: char)
    ensures DigitsOf("") == "" && DigitsOf([c]) == if '0' <= c <= '9' then [c] else ""
  {
    assert [c][1..] == "";
  }

  /** Only the digits of a number matter, and whether a plus stands in front: ten to fifteen behind a plus, ten of a number
      at home, or eleven that begin with the country's own 1. Nothing else is a number. */
  lemma PhoneExactly(input: string, phone: string)
    ensures var raw, digits := Trim(input), DigitsOf(Trim(input));
            var plus := raw != "" && raw[0] == '+';
            NormalizePhone(input) == Some(phone) <==>
              || (phone == "+" + digits && ((plus && 10 <= |digits| <= 15) || (!plus && |digits| == 11 && digits[0] == '1')))
              || (phone == "+1" + digits && !plus && |digits| == 10)
  {
  }

  /** An answer is kept as it was written, without the white space around it and up to its limit. */
  lemma ClipExactly(lead: string, text: string, tail: string, max: nat)
    requires Blank(lead) && Blank(tail) && text != "" && !IsSpace(text[0]) && !IsSpace(text[|text| - 1])
    ensures Clip(lead + text + tail, max) <= text
    ensures |Clip(lead + text + tail, max)| == if |text| <= max then |text| else max
  {
    TrimAround(lead, text, tail);
  }

  /** The code also lists "not urgent" among the patient words, but whoever writes that has written "urgent" and counts as
      wanting it today. */
  lemma NotUrgentIsToday(text: string)
    requires Contains(Lower(Trim(text)), "not urgent")
    ensures NormalizeUrgency(text) == "today"
  {
    SaysUrgent(text);
  }

  lemma SaysUrgent(text: string)
    requires Contains(Lower(Trim(text)), "not urgent")
    ensures Contains(Lower(Trim(text)), "urgent")
  {
    var value := Lower(Trim(text));
    var i := ContainedAt(value, "not urgent");
    assert value[i + 4..i + 10] == value[i..i + 10][4..] == "urgent";
    OccurringIsContained(value, "urgent", i + 4);
  }

  /** What an urgency counts as: its words in any letter case, today's before the week's before the patient ones; an answer
      with none of them is kept, up to eighty characters. */
  lemma UrgencyExactly(text: string)
    ensures var value, urgency := Lower(Trim(text)), NormalizeUrgency(text);
            var today := Contains(value, "urgent") || Contains(value, "now") || Contains(value, "emergency")
                         || Contains(value, "asap") || Contains(value, "today");
            var patient := Contains(value, "no rush") || Contains(value, "whenever") || Contains(value, "flex");
            && (today ==> urgency == "today")
            && (!today && Contains(value, "week") ==> urgency == "this_week")
            && (!today && !Contains(value, "week") && patient ==> urgency == "flexible")
            && (!today && !Contains(value, "week") && !patient ==> urgency == Clip(text, 80))
  {
    if Contains(Lower(Trim(text)), "not urgent") {
      SaysUrgent(text);
    }
  }

  // ---------------------------------------------------------------- the conversation

  /** What an answered text adds: the need when none was asked for yet or texts had been stopped, then the location, then
      the urgency, each in its own field and only there; after the hand-over, and for an empty text, nothing. */
  lemma AdvanceExactly(conversation: Option<Conversation>, text: string)
    ensures var (next, purpose, qualified) := Advance(conversation, text);
            var c := if conversation.Some? then conversation.value else BLANK;
            && (text == "" || c.stage == HandedOff ==> next == c && !qualified)
            && (text != "" && (c.stage == AwaitingNeed || c.stage == StoppedTexts) ==>
                  next == Conversation(AwaitingLocation, Some(Clip(text, 500)), c.location, c.urgency))
            && (text != "" && c.stage == AwaitingLocation ==>
                  next == Conversation(AwaitingUrgency, c.need, Some(Clip(text, 160)), c.urgency))
            && (text != "" && c.stage == AwaitingUrgency ==>
                  next == Conversation(HandedOff, c.need, c.location, Some(NormalizeUrgency(text))))
            && (qualified <==> text != "" && c.stage == AwaitingUrgency)
            && purpose == (if qualified then QualifyDone else if text != "" && c.stage == HandedOff then RelayAck else Qualify)
  {
  }

  /** The conversation after any event but a customer's stop and start words: a call that is texted back opens one, an
      answered text advances it, and everything else leaves it alone. */
  lemma ConversationExactly(s: State, t: Tenant, ev: Event)
    requires FromCustomer(t, ev) ==> !StopsTexts(ev.body) && !StartsTexts(ev.body)
    ensures Step(s, t, ev).conversation
         == if IsMissedCall(t, ev) && MayTextBack(s, t, ev) && s.conversation == None then Some(BLANK)
            else if Answered(s, t, ev) then Some(Advance(s.conversation, Trim(ev.body)).0)
            else s.conversation
  {
    if FromCustomer(t, ev) {
      MessagesAreRead(ev.body);
    }
    if IsMissedCall(t, ev) {
      CallTextExactly(s, t, ev);
    }
    if Decide(s, t, ev).Some? {
      ProjectTalk(s, Decide(s, t, ev).value);
    }
  }

  // ---------------------------------------------------------------- alerts and notices

  /** The owner has a number, and both the shop's and the owner's own limit leave room for one more text. */
  predicate AlertFits(b: Batch, t: Tenant) {
    NormalizePhone(t.shop.ownerPhone).Some? && b.sentToday < t.shop.dailyLimit
    && b.sentToOwner < if t.shop.ownerLimit > 0 then t.shop.ownerLimit else 60
  }

  /** The owner's own limit is used up, the shop's is not, and the owner has not been told yet. */
  predicate PauseFits(b: Batch, t: Tenant) {
    NormalizePhone(t.shop.ownerPhone).Some? && b.sentToday < t.shop.dailyLimit && !b.capNoticeSent
    && b.sentToOwner >= if t.shop.ownerLimit > 0 then t.shop.ownerLimit else 60
  }

  /** An alert is texted if and only if it fits; when only the owner's own limit stands against it the notice of the pause
      goes out instead, once; otherwise nothing does. The counters follow what was texted. */
  lemma AlertExactly(b: Batch, t: Tenant)
    ensures var (after, told) := PushOwnerAlert(b, t);
            var number := if AlertFits(b, t) || PauseFits(b, t) then NormalizePhone(t.shop.ownerPhone).value else "";
            && (told <==> AlertFits(b, t))
            && after.outbound == b.outbound + (if AlertFits(b, t) then [Outbound(number, OwnerNotify, Twiml, None)]
                                               else if PauseFits(b, t) then [Outbound(number, OwnerCapNotice, Twiml, None)] else [])
            && after.sentToday == b.sentToday + |after.outbound| - |b.outbound|
            && after.sentToOwner == b.sentToOwner + |after.outbound| - |b.outbound|
            && after.sentToCaller == b.sentToCaller && (after.capNoticeSent <==> b.capNoticeSent || PauseFits(b, t))
  {
  }

  /** The text to the sender that an event begins with, if any. */
  ghost function FirstText(s: State, t: Tenant, ev: Event): Option<Outbound> {
    if IsMissedCall(t, ev) then if MayTextBack(s, t, ev) then Some(TextBackFor(t, ev)) else None
    else if FromCustomer(t, ev) then Answer(s, t, ev)
    else None
  }

  /** The counters behind that text: one sent at once counts, except for the confirmation of a stop. */
  ghost function CountersAfter(s: State, t: Tenant, ev: Event): Batch {
    var first, owner := FirstText(s, t, ev), NormalizePhone(t.shop.ownerPhone);
    var counted := first.Some? && first.value.delivery == Twiml && first.value.purpose != StopConfirm;
    Batch(if first.Some? then [first.value] else [],
          s.sentToday + (if counted then 1 else 0), SentTo(s, if ev.Dashboard? then "" else ev.from) + (if counted then 1 else 0),
          if owner.Some? then SentTo(s, owner.value) else 0, s.capNoticeSent)
  }

  /** The record of such an event alerts from there. */
  ghost predicate AlertsFrom(r: Option<Record>, b: Batch, t: Tenant) {
    var (after, told) := PushOwnerAlert(b, t);
    r.Some? && r.value.outbound == after.outbound && r.value.notice.Some? && r.value.notice.value.texted == told
  }

  lemma CallAlerts(s: State, t: Tenant, ev: Event)
    requires IsMissedCall(t, ev) && !ev.duplicate
    ensures AlertsFrom(Decide(s, t, ev), CountersAfter(s, t, ev), t)
  {
    var ctx := ContextOf(s, t, ev);
    CallTextExactly(s, t, ev);
    assert CallText(ctx, t) == CountersAfter(s, t, ev);
    assert Decide(s, t, ev) == MissedCallRecord(ctx, t);
  }

  lemma StopAlerts(s: State, t: Tenant, ev: Event)
    requires FromCustomer(t, ev) && KeywordOf(ev.body) == Stop
    ensures AlertsFrom(Decide(s, t, ev), CountersAfter(s, t, ev), t)
  {
    var ctx := ContextOf(s, t, ev);
    assert AddText(NewBatch(ctx), Outbound(ctx.from, StopConfirm, Twiml, None)) == CountersAfter(s, t, ev);
    assert Decide(s, t, ev) == Some(StopRecord(ctx, t));
  }

  lemma PlainAlerts(s: State, t: Tenant, ev: Event)
    requires FromCustomer(t, ev) && KeywordOf(ev.body) == NoKeyword
    ensures AlertsFrom(Decide(s, t, ev), CountersAfter(s, t, ev), t)
  {
    var ctx := ContextOf(s, t, ev);
    if Answered(s, t, ev) {
      var purpose := Advance(ctx.conversation, Trim(ctx.body)).1;
      assert purpose != StopConfirm;
      assert PushToCaller(NewBatch(ctx), ctx.from, purpose) == CountersAfter(s, t, ev);
      assert Decide(s, t, ev) == Some(AnswerRecord(ctx, t));
    } else {
      assert NewBatch(ctx) == CountersAfter(s, t, ev);
      assert Decide(s, t, ev) == Some(AlertRecord(ctx, t, if s.suppressed then OptedOutTexted else RateLimitTopic));
    }
  }

  /** Every missed call and every customer's text but help and start words alerts the owner, as far as the limits then allow,
      and the notice on the board tells whether the alert was texted. */
  lemma EventAlerts(s: State, t: Tenant, ev: Event)
    requires (IsMissedCall(t, ev) && !ev.duplicate) || (FromCustomer(t, ev) && !AsksForHelp(ev.body) && !StartsTexts(ev.body))
    ensures var (after, told) := PushOwnerAlert(CountersAfter(s, t, ev), t);
            var notices := Step(s, t, ev).notices;
            && Texts(s, t, ev) == after.outbound
            && |notices| == |s.notices| + 1 && (notices[|s.notices|].texted <==> told)
  {
    if IsMissedCall(t, ev) {
      CallAlerts(s, t, ev);
    } else {
      MessagesAreRead(ev.body);
      if KeywordOf(ev.body) == Stop {
        StopAlerts(s, t, ev);
      } else {
        PlainAlerts(s, t, ev);
      }
    }
    ProjectTalk(s, Decide(s, t, ev).value);
  }

  /** What is noted on the owner's board about a customer's text, and that help is not. */
  lemma NoticeExactly(s: State, t: Tenant, ev: Event)
    requires FromCustomer(t, ev)
    ensures var notices := Step(s, t, ev).notices;
            if AsksForHelp(ev.body) then notices == s.notices
            else
              && |notices| == |s.notices| + 1 && notices[..|s.notices|] == s.notices
              && notices[|s.notices|].topic
                 == if StopsTexts(ev.body) then StopTopic
                    else if StartsTexts(ev.body) then RestartTopic
                    else if s.suppressed then OptedOutTexted
                    else if !CanText(t.shop, s.sentToday, SentTo(s, ev.from)) then RateLimitTopic
                    else if Advance(s.conversation, Trim(ev.body)).2 then QualifiedLead else ReplyTopic
  {
    MessagesAreRead(ev.body);
    ProjectTalk(s, Decide(s, t, ev).value);
  }

  /** A missed call that is no repetition is noted, once; one that is changes nothing. A call that rings or was answered sends
      nothing, and is noted only when the owner could not be rung for want of a public address. */
  lemma CallNoted(s: State, t: Tenant, ev: Event)
    requires ev.Voice? || ev.DialStatus?
    ensures var after := Step(s, t, ev);
            && (IsMissedCall(t, ev) && !ev.duplicate ==>
                  |after.notices| == |s.notices| + 1 && after.notices[|s.notices|].topic == CallTopic)
            && (IsMissedCall(t, ev) && ev.duplicate ==> after == s)
            && (!IsMissedCall(t, ev) ==>
                  && Texts(s, t, ev) == []
                  && after.notices == s.notices + if ev.Voice? && !ev.duplicate && !ev.hasBaseUrl then [Notice(false, CallTopic)] else [])
  {
    if Decide(s, t, ev).Some? {
      ProjectTalk(s, Decide(s, t, ev).value);
    }
  }

  // ---------------------------------------------------------------- the owner and the dashboard

  /** The number is on the list in any spelling, or is the suppressed sender's own. */
  ghost predicate Barred(ctx: Context, phone: string) {
    || (exists i :: 0 <= i < |ctx.suppressedPhones| && NormalizePhone(ctx.suppressedPhones[i]) == NormalizePhone(phone))
    || (ctx.suppressed && NormalizePhone(ctx.from) == NormalizePhone(phone))
  }

  lemma BarredExactly(ctx: Context, phone: string)
    requires NormalizePhone(phone).Some?
    ensures IsOptedOut(ctx, phone) <==> Barred(ctx, phone)
  {
    var list := Normalized(ctx.suppressedPhones);
    assert forall i :: 0 <= i < |list| ==> list[i] == NormalizePhone(ctx.suppressedPhones[i]);
  }

  /** The owner's text is a reply that names a number and says something. */
  predicate IsReply(command: OwnerCommand) {
    command.ReplyTo? && NormalizePhone(command.phone).Some? && command.message != ""
  }

  /** An owner's text sends the reply if and only if it is one, the number is not barred and the limits leave room, and then
      answers the owner: with help when the command could not be carried out as written, and a confirmation otherwise. */
  lemma OwnerTextsAre(ctx: Context, t: Tenant, owner: string)
    ensures var c := ctx.command;
            var to := if IsReply(c) then NormalizePhone(c.phone).value else "";
            var goes := IsReply(c) && !Barred(ctx, to) && ctx.sentToday < t.shop.dailyLimit && ctx.sentToToday < t.shop.perNumberLimit;
            var unclear := c.CommandHelp? || c.Malformed? || (c.ReplyTo? && !IsReply(c)) || (c.RequestReview? && NormalizePhone(c.phone) == None);
            OwnerTexts(ctx, t, owner) == (if goes then [Outbound(to, OwnerReply, Twiml, None)] else [])
                                         + [Outbound(owner, if unclear then OwnerHelp else OwnerConfirm, Twiml, None)]
  {
    if IsReply(ctx.command) {
      var to := NormalizePhone(ctx.command.phone).value;
      TextBackOptOut.NormalFormStays(ctx.command.phone);
      BarredExactly(ctx, to);
    }
  }

  /** The dashboard sends a reply if and only if the number is one, the message says something, the number is not barred and
      the daily limit leaves room; it confirms a complete estimate to an owner with a number; and it sends nothing else. */
  lemma DashboardTextsAre(ctx: Context, t: Tenant, action: DashboardAction, delivery: Delivery)
    ensures var texts := DashboardTexts(ctx, t, action, delivery);
            match action
            case DashReply(phone, message) =>
              var goes := NormalizePhone(phone).Some? && Clip(message, 500) != "" && !Barred(ctx, phone)
                          && ctx.sentToday < t.shop.dailyLimit && 0 < t.shop.perNumberLimit;
              texts == if goes then [Outbound(NormalizePhone(phone).value, OwnerReply, delivery, None)] else []
            case DashEstimate(complete) =>
              && (texts != [] <==> complete && NormalizePhone(t.shop.ownerPhone).Some?)
              && (texts != [] ==>
                    texts == [Outbound(NormalizePhone(t.shop.ownerPhone).value, OwnerConfirm, delivery,
                                       if delivery == Queue then Some(InitialNextSendAt(ctx.now, t.shop.zone, t.shop.window)) else None)])
            case _ => texts == []
  {
    if action.DashReply? && NormalizePhone(action.phone).Some? {
      BarredExactly(ctx, action.phone);
    }
  }
}
