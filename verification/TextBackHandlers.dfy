/** The handlers step by step, pushing onto shared counters as they go, proved to produce the specified records. */
module TextBackHandlers {
  import opened Common
  import opened WallClock
  import opened Planner
  import opened TextBack

  /** The texts and counters that a handler and the owner alert update together. */
  class Desk {
    var outbound: seq<Outbound>
    var sentToday: nat
    var sentToCaller: nat
    var sentToOwner: nat
    var capNoticeSent: bool

    function Value(): Batch
      reads this
    {
      Batch(outbound, sentToday, sentToCaller, sentToOwner, capNoticeSent)
    }

    constructor (ctx: Context)
      ensures Value() == NewBatch(ctx)
    {
      outbound, sentToday, sentToCaller, sentToOwner := [], ctx.sentToday, ctx.sentToToday, ctx.sentToOwnerToday;
      capNoticeSent := ctx.capNoticeSent;
    }

    method OwnerAlert(t: Tenant) returns (texted: bool)
      modifies this
      ensures (Value(), texted) == PushOwnerAlert(old(Value()), t)
    {
      var owner := Owner(t);
      if owner.None? {
        return false;
      }
      if CanTextOwner(t.shop, sentToday, sentToOwner) {
        outbound := outbound + [Outbound(owner.value, OwnerNotify, Twiml, None)];
        sentToday := sentToday + 1;
        sentToOwner := sentToOwner + 1;
        return true;
      }
      var shopHasRoom := sentToday < t.shop.dailyLimit;
      var ownerCapped := sentToOwner >= OwnerLimit(t.shop.ownerLimit);
      if shopHasRoom && ownerCapped && !capNoticeSent {
        outbound := outbound + [Outbound(owner.value, OwnerCapNotice, Twiml, None)];
        sentToday := sentToday + 1;
        sentToOwner := sentToOwner + 1;
        capNoticeSent := true;
      }
      return false;
    }
  }

  method MissedCallHandler(ctx: Context, t: Tenant) returns (r: Option<Record>)
    ensures r == MissedCallRecord(ctx, t)
  {
    var desk := new Desk(ctx);
    var outcome := Texted;
    var conversation := None;
    if ctx.from == "" {
      outcome := InvalidCallerId;
    } else if Owner(t) == Some(ctx.from) {
      outcome := OwnerCalled;
    } else if ctx.suppressed {
      outcome := CallerOptedOut;
    } else if ctx.duplicate {
      outcome := DuplicateCall;
    } else if t.respectsQuietHours && InQuietHours(ctx.now, t.shop.zone, t.shop.window) {
      if CanText(t.shop, desk.sentToday, desk.sentToCaller) {
        var sendAt := NextWindowOpen(ctx.now, t.shop.zone, t.shop.window);
        desk.outbound := desk.outbound + [Outbound(ctx.from, MissedCall, Queue, Some(sendAt))];
        outcome := QuietHoursDeferred;
        conversation := if ctx.conversation == None then Some(BLANK) else None;
      } else {
        outcome := OverLimit;
      }
    } else if !CanText(t.shop, desk.sentToday, desk.sentToCaller) {
      outcome := OverLimit;
    } else {
      desk.outbound := desk.outbound + [Outbound(ctx.from, MissedCall, Twiml, None)];
      desk.sentToday := desk.sentToday + 1;
      desk.sentToCaller := desk.sentToCaller + 1;
      conversation := if ctx.conversation == None then Some(BLANK) else None;
    }
    var texted := false;
    if outcome != DuplicateCall {
      texted := desk.OwnerAlert(t);
    }
    if ctx.duplicate {
      return None;
    }
    return Some(Record(ctx.from, false, false, conversation, desk.outbound, Some(Notice(texted, CallTopic))));
  }

  /** Puts the text where the first open question is and moves on. */
  method AdvanceStep(conversation: Option<Conversation>, text: string) returns (c: Conversation, purpose: Purpose, justQualified: bool)
    ensures (c, purpose, justQualified) == Advance(conversation, text)
  {
    c := if conversation.Some? then conversation.value else BLANK;
    purpose, justQualified := Qualify, false;
    if text == "" {
    } else if conversation.None? || c.stage == AwaitingNeed || c.stage == StoppedTexts {
      c := c.(stage := AwaitingLocation, need := Some(Clip(text, 500)));
    } else if c.stage == AwaitingLocation {
      c := c.(stage := AwaitingUrgency, location := Some(Clip(text, 160)));
    } else if c.stage == AwaitingUrgency {
      c := c.(stage := HandedOff, urgency := Some(NormalizeUrgency(text)));
      purpose, justQualified := QualifyDone, true;
    } else {
      purpose := RelayAck;
    }
  }

  /** The conversation is advanced first and the advance thrown away when the limit turns out to be reached. */
  method CustomerSmsHandler(ctx: Context, t: Tenant) returns (r: Record)
    requires ctx.from != "" && Owner(t) != Some(ctx.from)
    ensures HandleInboundSms(ctx, t) == Some(r)
  {
    var kind := KeywordOf(ctx.body);
    var desk := new Desk(ctx);
    if kind == Help {
      return Record(ctx.from, false, false, None, [Outbound(ctx.from, HelpText, Twiml, None)], None);
    }
    if kind == Stop {
      desk.outbound := desk.outbound + [Outbound(ctx.from, StopConfirm, Twiml, None)];
      var c := if ctx.conversation.Some? then ctx.conversation.value else BLANK;
      var texted := desk.OwnerAlert(t);
      return Record(ctx.from, true, false, Some(c.(stage := StoppedTexts)), desk.outbound, Some(Notice(texted, StopTopic)));
    }
    if ctx.suppressed && kind != Start {
      var texted := desk.OwnerAlert(t);
      return Record(ctx.from, false, false, None, desk.outbound, Some(Notice(texted, OptedOutTexted)));
    }
    if kind == Start {
      return Record(ctx.from, false, true, Some(BLANK), [Outbound(ctx.from, StartConfirm, Twiml, None)],
                    Some(Notice(true, RestartTopic)));
    }
    var text := Trim(ctx.body);
    var c, purpose, justQualified := AdvanceStep(ctx.conversation, text);
    if !CanText(t.shop, desk.sentToday, desk.sentToCaller) {
      var texted := desk.OwnerAlert(t);
      return Record(ctx.from, false, false, ctx.conversation, desk.outbound, Some(Notice(texted, RateLimitTopic)));
    }
    desk.outbound := desk.outbound + [Outbound(ctx.from, purpose, Twiml, None)];
    desk.sentToday := desk.sentToday + 1;
    desk.sentToCaller := desk.sentToCaller + 1;
    var texted := desk.OwnerAlert(t);
    return Record(ctx.from, false, false, Some(c), desk.outbound,
                  Some(Notice(texted, if justQualified then QualifiedLead else ReplyTopic)));
  }
}
