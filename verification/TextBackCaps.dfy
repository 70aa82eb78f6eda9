/** Rate caps over a whole day's run of the text-back engine, for any number of callers. */
module TextBackCaps {
  import opened Common
  import opened WallClock
  import opened Planner
  import opened TextBack

  /** The classes of text that the limits speak of. */
  datatype Class = Delivered | Metered | DeliveredTo(number: string) | AutoTo(number: string) | NotifyTo(number: string) | PauseNotice

  predicate IsAutomatic(p: Purpose) {
    p == MissedCall || p == Qualify || p == QualifyDone || p == RelayAck
  }

  predicate IsMetered(p: Purpose) {
    IsAutomatic(p) || p == OwnerReply || p == OwnerNotify || p == OwnerCapNotice
  }

  predicate In(o: Outbound, c: Class) {
    && o.delivery != Queue
    && match c
       case Delivered => true
       case Metered => IsMetered(o.purpose)
       case DeliveredTo(number) => o.to == number
       case AutoTo(number) => o.to == number && IsAutomatic(o.purpose)
       case NotifyTo(number) => o.to == number && o.purpose == OwnerNotify
       case PauseNotice => o.purpose == OwnerCapNotice
  }

  function Count(out: seq<Outbound>, c: Class): nat {
    if out == [] then 0 else Count(out[..|out| - 1], c) + if In(out[|out| - 1], c) then 1 else 0
  }

  lemma CountSnoc(out: seq<Outbound>, o: Outbound, c: Class)
    ensures Count(out + [o], c) == Count(out, c) + if In(o, c) then 1 else 0
  {
    assert (out + [o])[..|out|] == out;
  }

  /** Every metered text is delivered, and every automatic text or alert to a number is delivered to it. */
  lemma {:induction false} Subclasses(out: seq<Outbound>, number: string)
    ensures Count(out, Metered) <= Count(out, Delivered)
    ensures Count(out, AutoTo(number)) <= Count(out, DeliveredTo(number))
    ensures Count(out, NotifyTo(number)) <= Count(out, DeliveredTo(number))
  {
    if out != [] {
      Subclasses(out[..|out| - 1], number);
    }
  }

  // ---------------------------------------------------------------- what a log of texts satisfies

  ghost predicate NoticesGoToOwner(t: Tenant, out: seq<Outbound>) {
    forall o <- out :: o.purpose == OwnerNotify || o.purpose == OwnerCapNotice ==> Owner(t) == Some(o.to) && o.delivery == Twiml
  }

  ghost predicate SilentAfterPause(out: seq<Outbound>) {
    forall i, j :: 0 <= i < j < |out| && out[i].purpose == OwnerCapNotice ==> out[j].purpose != OwnerNotify
  }

  /** The daily limit holds for metered texts, each number's limit for the automatic texts to it, and the owner's
      limit for alerts; the pause notice goes out at most once and no alert follows it. */
  ghost predicate Caps(t: Tenant, out: seq<Outbound>) {
    && Count(out, Metered) <= Room(t.shop.dailyLimit, 0)
    && (forall number :: Count(out, AutoTo(number)) <= Room(t.shop.perNumberLimit, 0))
    && (forall number :: Count(out, NotifyTo(number)) <= OwnerLimit(t.shop.ownerLimit))
    && Count(out, PauseNotice) <= 1
    && SilentAfterPause(out)
  }

  /** Once the pause notice is out, the owner's limit is used up. */
  ghost predicate PauseMeansFull(t: Tenant, out: seq<Outbound>) {
    && NoticesGoToOwner(t, out)
    && (Count(out, PauseNotice) > 0 ==>
          Owner(t).Some? && Count(out, DeliveredTo(Owner(t).value)) >= OwnerLimit(t.shop.ownerLimit))
  }

  /** The text may be added to the log. */
  ghost predicate Admissible(t: Tenant, out: seq<Outbound>, o: Outbound) {
    && (In(o, Metered) ==> Count(out, Metered) < t.shop.dailyLimit)
    && (In(o, AutoTo(o.to)) ==> Count(out, AutoTo(o.to)) < t.shop.perNumberLimit)
    && (o.purpose == OwnerNotify || o.purpose == OwnerCapNotice ==> Owner(t) == Some(o.to) && o.delivery == Twiml)
    && (o.purpose == OwnerNotify ==> Count(out, DeliveredTo(o.to)) < OwnerLimit(t.shop.ownerLimit))
    && (o.purpose == OwnerCapNotice ==>
          Count(out, PauseNotice) == 0 && Count(out, DeliveredTo(o.to)) >= OwnerLimit(t.shop.ownerLimit))
  }

  lemma {:induction false} NoPauseYet(t: Tenant, out: seq<Outbound>)
    requires Count(out, PauseNotice) == 0 && NoticesGoToOwner(t, out)
    ensures forall o <- out :: o.purpose != OwnerCapNotice
  {
    if out != [] {
      NoPauseYet(t, out[..|out| - 1]);
      assert out[|out| - 1] in out;
    }
  }

  lemma AdmissibleKeepsCounts(t: Tenant, out: seq<Outbound>, o: Outbound)
    requires Caps(t, out) && Admissible(t, out, o)
    ensures Count(out + [o], Metered) <= Room(t.shop.dailyLimit, 0)
    ensures forall number :: Count(out + [o], AutoTo(number)) <= Room(t.shop.perNumberLimit, 0)
    ensures forall number :: Count(out + [o], NotifyTo(number)) <= OwnerLimit(t.shop.ownerLimit)
    ensures Count(out + [o], PauseNotice) <= 1
  {
    CountSnoc(out, o, Metered);
    CountSnoc(out, o, PauseNotice);
    forall number
      ensures Count(out + [o], AutoTo(number)) <= Room(t.shop.perNumberLimit, 0)
      ensures Count(out + [o], NotifyTo(number)) <= OwnerLimit(t.shop.ownerLimit)
    {
      CountSnoc(out, o, AutoTo(number));
      CountSnoc(out, o, NotifyTo(number));
      Subclasses(out, number);
    }
  }

  lemma SilentAfterOne(out: seq<Outbound>, o: Outbound)
    requires SilentAfterPause(out) && (o.purpose == OwnerNotify ==> forall x <- out :: x.purpose != OwnerCapNotice)
    ensures SilentAfterPause(out + [o])
  {
    assert forall i :: 0 <= i < |out| ==> out[i] in out;
  }

  lemma AdmissibleKeepsPause(t: Tenant, out: seq<Outbound>, o: Outbound)
    requires SilentAfterPause(out) && PauseMeansFull(t, out) && Admissible(t, out, o)
    ensures SilentAfterPause(out + [o]) && PauseMeansFull(t, out + [o])
  {
    CountSnoc(out, o, PauseNotice);
    CountSnoc(out, o, DeliveredTo(o.to));
    if Owner(t).Some? {
      CountSnoc(out, o, DeliveredTo(Owner(t).value));
    }
    if o.purpose == OwnerNotify {
      NoPauseYet(t, out);
    }
    SilentAfterOne(out, o);
  }

  ghost predicate AllAdmissible(t: Tenant, out: seq<Outbound>, items: seq<Outbound>) {
    items == [] ||
    var n := |items| - 1;
    AllAdmissible(t, out, items[..n]) && Admissible(t, out + items[..n], items[n])
  }

  lemma {:induction false} AllAdmissibleKeepCaps(t: Tenant, out: seq<Outbound>, items: seq<Outbound>)
    requires Caps(t, out) && PauseMeansFull(t, out) && AllAdmissible(t, out, items)
    ensures Caps(t, out + items) && PauseMeansFull(t, out + items)
  {
    if items == [] {
      assert out + items == out;
    } else {
      var n := |items| - 1;
      AllAdmissibleKeepCaps(t, out, items[..n]);
      AdmissibleKeepsCounts(t, out + items[..n], items[n]);
      AdmissibleKeepsPause(t, out + items[..n], items[n]);
      assert out + items == out + items[..n] + [items[n]];
    }
  }

  // ---------------------------------------------------------------- state counters are recounts of the log

  ghost predicate Recounted(s: State) {
    && s.sentToday == Count(s.outbound, Delivered)
    && (forall number :: SentTo(s, number) == Count(s.outbound, DeliveredTo(number)))
    && (s.capNoticeSent ==> Count(s.outbound, PauseNotice) > 0)
    && (!s.capNoticeSent ==> Count(s.outbound, PauseNotice) == 0)
  }

  lemma SentToAfter(s: State, o: Outbound, number: string)
    requires SentTo(s, number) == Count(s.outbound, DeliveredTo(number))
    ensures SentTo(AddOutbound(s, o), number) == Count(s.outbound + [o], DeliveredTo(number))
  {
    CountSnoc(s.outbound, o, DeliveredTo(number));
  }

  lemma AddKeepsTotals(s: State, o: Outbound)
    requires Recounted(s) && (o.purpose == OwnerCapNotice ==> o.delivery == Twiml)
    ensures var after := AddOutbound(s, o);
            && after.outbound == s.outbound + [o] && after.sentToday == Count(after.outbound, Delivered)
            && (after.capNoticeSent ==> Count(after.outbound, PauseNotice) > 0)
            && (!after.capNoticeSent ==> Count(after.outbound, PauseNotice) == 0)
  {
    CountSnoc(s.outbound, o, Delivered);
    CountSnoc(s.outbound, o, PauseNotice);
  }

  lemma AddKeepsRecount(s: State, o: Outbound)
    requires Recounted(s) && (o.purpose == OwnerCapNotice ==> o.delivery == Twiml)
    ensures Recounted(AddOutbound(s, o)) && AddOutbound(s, o).outbound == s.outbound + [o]
  {
    AddKeepsTotals(s, o);
    forall number
      ensures SentTo(AddOutbound(s, o), number) == Count(s.outbound + [o], DeliveredTo(number))
    {
      SentToAfter(s, o, number);
    }
  }

  lemma {:induction false} AddAllKeepsRecount(s: State, t: Tenant, out: seq<Outbound>, items: seq<Outbound>)
    requires Recounted(s) && AllAdmissible(t, out, items)
    ensures Recounted(AddAllOutbound(s, items)) && AddAllOutbound(s, items).outbound == s.outbound + items
  {
    if items != [] {
      var n := |items| - 1;
      AddAllKeepsRecount(s, t, out, items[..n]);
      AddKeepsRecount(AddAllOutbound(s, items[..n]), items[n]);
      assert s.outbound + items == s.outbound + items[..n] + [items[n]];
    }
  }

  // ---------------------------------------------------------------- one handler's batch

  /** The batch's texts may be added to the log and its counters bound the counts of the log with them. */
  ghost predicate Tracks(b: Batch, t: Tenant, from: string, out: seq<Outbound>) {
    var all := out + b.outbound;
    && AllAdmissible(t, out, b.outbound)
    && b.sentToday >= Count(all, Metered)
    && b.sentToCaller >= Count(all, AutoTo(from))
    && (Owner(t).Some? ==> b.sentToOwner == Count(all, DeliveredTo(Owner(t).value)))
    && (!b.capNoticeSent ==> Count(all, PauseNotice) == 0)
  }

  lemma TracksSnoc(b: Batch, b': Batch, t: Tenant, from: string, out: seq<Outbound>, o: Outbound)
    requires Tracks(b, t, from, out) && Admissible(t, out + b.outbound, o)
    requires b'.outbound == b.outbound + [o]
    requires b'.sentToday >= b.sentToday + if In(o, Metered) then 1 else 0
    requires b'.sentToCaller >= b.sentToCaller + if In(o, AutoTo(from)) then 1 else 0
    requires Owner(t).Some? ==> b'.sentToOwner == b.sentToOwner + if In(o, DeliveredTo(Owner(t).value)) then 1 else 0
    requires !b'.capNoticeSent ==> !b.capNoticeSent && !In(o, PauseNotice)
    ensures Tracks(b', t, from, out)
  {
    assert out + b'.outbound == out + b.outbound + [o];
    assert b'.outbound[..|b.outbound|] == b.outbound;
    CountSnoc(out + b.outbound, o, Metered);
    CountSnoc(out + b.outbound, o, AutoTo(from));
    CountSnoc(out + b.outbound, o, PauseNotice);
    if Owner(t).Some? {
      CountSnoc(out + b.outbound, o, DeliveredTo(Owner(t).value));
    }
  }

  lemma NewBatchTracks(s: State, t: Tenant, ev: Event)
    requires Recounted(s)
    ensures var ctx := ContextOf(s, t, ev); Tracks(NewBatch(ctx), t, ctx.from, s.outbound)
  {
    var ctx := ContextOf(s, t, ev);
    Subclasses(s.outbound, ctx.from);
    assert s.outbound + [] == s.outbound;
  }

  lemma PlainTextTracks(b: Batch, t: Tenant, from: string, out: seq<Outbound>, o: Outbound)
    requires Tracks(b, t, from, out)
    requires o.to == from && Owner(t) != Some(from)
    requires o.purpose == StopConfirm || (o.purpose == MissedCall && o.delivery == Queue)
    ensures Tracks(AddText(b, o), t, from, out)
  {
    TracksSnoc(b, AddText(b, o), t, from, out, o);
  }

  lemma CallerTextTracks(b: Batch, t: Tenant, from: string, out: seq<Outbound>, purpose: Purpose)
    requires Tracks(b, t, from, out) && CanText(t.shop, b.sentToday, b.sentToCaller)
    requires IsAutomatic(purpose) && Owner(t) != Some(from)
    ensures Tracks(PushToCaller(b, from, purpose), t, from, out)
  {
    TracksSnoc(b, PushToCaller(b, from, purpose), t, from, out, Outbound(from, purpose, Twiml, None));
  }

  lemma OwnerAlertTracks(b: Batch, t: Tenant, from: string, out: seq<Outbound>)
    requires Tracks(b, t, from, out)
    ensures Tracks(PushOwnerAlert(b, t).0, t, from, out)
  {
    var b' := PushOwnerAlert(b, t).0;
    if b' != b {
      var o := b'.outbound[|b.outbound|];
      TracksSnoc(b, b', t, from, out, o);
    }
  }

  // ---------------------------------------------------------------- every handler

  lemma MissedCallAdmissible(s: State, t: Tenant, ev: Event)
    requires Recounted(s) && !ev.Dashboard?
    ensures var ctx := ContextOf(s, t, ev);
            MissedCallRecord(ctx, t).Some? ==> AllAdmissible(t, s.outbound, MissedCallRecord(ctx, t).value.outbound)
  {
    var ctx := ContextOf(s, t, ev);
    var b := NewBatch(ctx);
    NewBatchTracks(s, t, ev);
    match OutcomeOfCall(ctx, t) {
      case Texted => CallerTextTracks(b, t, ctx.from, s.outbound, MissedCall);
      case QuietHoursDeferred =>
        PlainTextTracks(b, t, ctx.from, s.outbound,
                        Outbound(ctx.from, MissedCall, Queue, Some(NextWindowOpen(ctx.now, t.shop.zone, t.shop.window))));
      case _ =>
    }
    OwnerAlertTracks(CallText(ctx, t), t, ctx.from, s.outbound);
  }

  /** A single text that no limit applies to. */
  lemma FreeText(t: Tenant, out: seq<Outbound>, o: Outbound)
    requires !IsMetered(o.purpose)
    ensures AllAdmissible(t, out, [o])
  {
    assert [o][..0] == [] && out + [] == out;
    assert AllAdmissible(t, out, []);
    assert Admissible(t, out, o);
  }

  lemma StopAdmissible(s: State, t: Tenant, ev: Event)
    requires Recounted(s) && ev.Sms? && Owner(t) != Some(ev.from)
    ensures AllAdmissible(t, s.outbound, StopRecord(ContextOf(s, t, ev), t).outbound)
  {
    var ctx := ContextOf(s, t, ev);
    var o := Outbound(ctx.from, StopConfirm, Twiml, None);
    NewBatchTracks(s, t, ev);
    PlainTextTracks(NewBatch(ctx), t, ctx.from, s.outbound, o);
    OwnerAlertTracks(AddText(NewBatch(ctx), o), t, ctx.from, s.outbound);
  }

  lemma AlertAdmissible(s: State, t: Tenant, ev: Event, topic: Topic)
    requires Recounted(s)
    ensures AllAdmissible(t, s.outbound, AlertRecord(ContextOf(s, t, ev), t, topic).outbound)
  {
    NewBatchTracks(s, t, ev);
    OwnerAlertTracks(NewBatch(ContextOf(s, t, ev)), t, ContextOf(s, t, ev).from, s.outbound);
  }

  lemma AnswerAdmissible(s: State, t: Tenant, ev: Event)
    requires Recounted(s) && ev.Sms? && Owner(t) != Some(ev.from)
    requires CanText(t.shop, s.sentToday, SentTo(s, ev.from))
    ensures AllAdmissible(t, s.outbound, AnswerRecord(ContextOf(s, t, ev), t).outbound)
  {
    var ctx := ContextOf(s, t, ev);
    var purpose := Advance(ctx.conversation, Trim(ctx.body)).1;
    NewBatchTracks(s, t, ev);
    CallerTextTracks(NewBatch(ctx), t, ctx.from, s.outbound, purpose);
    OwnerAlertTracks(PushToCaller(NewBatch(ctx), ctx.from, purpose), t, ctx.from, s.outbound);
  }

  lemma OwnerReplyAdmissible(s: State, t: Tenant, items: seq<Outbound>)
    requires Recounted(s)
    requires |items| <= 2
    requires |items| >= 1 && IsMetered(items[0].purpose) ==> items[0].purpose == OwnerReply && s.sentToday < t.shop.dailyLimit
    requires |items| == 2 ==> !IsMetered(items[1].purpose)
    ensures AllAdmissible(t, s.outbound, items)
  {
    Subclasses(s.outbound, "");
    if |items| >= 1 {
      assert items[..1][..0] == [] && s.outbound + [] == s.outbound && items[..1][0] == items[0];
    }
    if |items| == 2 {
      assert items[..1] == [items[0]];
    }
    assert |items| == 1 ==> items[..1] == items;
  }

  lemma SmsAdmissible(s: State, t: Tenant, ev: Event)
    requires Recounted(s) && ev.Sms?
    ensures AllAdmissible(t, s.outbound, Texts(s, t, ev))
  {
    var ctx := ContextOf(s, t, ev);
    if ctx.from == "" {
    } else if Owner(t) == Some(ctx.from) {
      OwnerReplyAdmissible(s, t, OwnerTexts(ctx, t, ctx.from));
    } else {
      match KeywordOf(ctx.body) {
        case Help => FreeText(t, s.outbound, Outbound(ctx.from, HelpText, Twiml, None));
        case Stop => StopAdmissible(s, t, ev);
        case Start => FreeText(t, s.outbound, Outbound(ctx.from, StartConfirm, Twiml, None));
        case NoKeyword =>
          if ctx.suppressed {
            AlertAdmissible(s, t, ev, OptedOutTexted);
          } else if !CanText(t.shop, ctx.sentToday, ctx.sentToToday) {
            AlertAdmissible(s, t, ev, RateLimitTopic);
          } else {
            AnswerAdmissible(s, t, ev);
          }
      }
    }
  }

  lemma TextsAdmissible(s: State, t: Tenant, ev: Event)
    requires Recounted(s)
    ensures AllAdmissible(t, s.outbound, Texts(s, t, ev))
  {
    match ev {
      case Voice(_, _, _, _) => MissedCallAdmissible(s, t, ev);
      case DialStatus(_, _, _, _) => MissedCallAdmissible(s, t, ev);
      case Sms(_, _, _, _) => SmsAdmissible(s, t, ev);
      case Dashboard(_, _, _) => OwnerReplyAdmissible(s, t, Texts(s, t, ev));
    }
  }

  /** Recounting looks at the log and its counters only. */
  lemma SameCounters(s: State, s': State)
    requires Recounted(s)
    requires s'.outbound == s.outbound && s'.sentToday == s.sentToday && s'.sentToNumber == s.sentToNumber
    requires s'.capNoticeSent == s.capNoticeSent
    ensures Recounted(s')
  {
    assert forall number :: SentTo(s', number) == SentTo(s, number);
  }

  function Prepared(s: State, r: Record): State {
    WithSuppression(if r.conversation.Some? then s.(conversation := r.conversation) else s, r)
  }

  lemma PreparedKeepsRecount(s: State, r: Record)
    requires Recounted(s)
    ensures Recounted(Prepared(s, r)) && Prepared(s, r).outbound == s.outbound
  {
    SameCounters(s, Prepared(s, r));
  }

  lemma NoticeKeepsRecount(s: State, r: Record, sent: State)
    requires sent == AddAllOutbound(Prepared(s, r), r.outbound) && Recounted(sent)
    ensures Recounted(Project(s, Some(r))) && Project(s, Some(r)).outbound == sent.outbound
  {
    SameCounters(sent, Project(s, Some(r)));
  }

  lemma ProjectLogsTexts(s: State, t: Tenant, r: Record)
    requires Recounted(s) && AllAdmissible(t, s.outbound, r.outbound)
    ensures Recounted(Project(s, Some(r))) && Project(s, Some(r)).outbound == s.outbound + r.outbound
  {
    PreparedKeepsRecount(s, r);
    AddAllKeepsRecount(Prepared(s, r), t, s.outbound, r.outbound);
    NoticeKeepsRecount(s, r, AddAllOutbound(Prepared(s, r), r.outbound));
  }

  lemma StepLogsTexts(s: State, t: Tenant, ev: Event)
    requires Recounted(s) && AllAdmissible(t, s.outbound, Texts(s, t, ev))
    ensures Recounted(Step(s, t, ev)) && Step(s, t, ev).outbound == s.outbound + Texts(s, t, ev)
  {
    var decision := Decide(s, t, ev);
    if decision.Some? {
      ProjectLogsTexts(s, t, decision.value);
    }
  }

  /** Over every day's run, whatever calls, texts, owner commands and dashboard actions arrive and from whom. */
  lemma {:induction false} CapsHoldOverRuns(t: Tenant, events: seq<Event>)
    ensures var s := Run(FreshState(), t, events);
            Recounted(s) && Caps(t, s.outbound) && PauseMeansFull(t, s.outbound)
  {
    if events != [] {
      var before := Run(FreshState(), t, events[..|events| - 1]);
      var ev := events[|events| - 1];
      CapsHoldOverRuns(t, events[..|events| - 1]);
      TextsAdmissible(before, t, ev);
      StepLogsTexts(before, t, ev);
      AllAdmissibleKeepCaps(t, before.outbound, Texts(before, t, ev));
    }
  }
}
