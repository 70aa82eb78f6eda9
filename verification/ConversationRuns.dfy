/** What every run of sends, replies, rejections and owner actions keeps about a company's conversation. */
module ConversationRuns {
  import opened Common
  import opened Status
  import opened Conversation

  /** The database's own constraints, and the log as the story of the status. */
  ghost predicate Sound(row: Row) {
    && (row.doNotContact <==> row.status == DoNotContact)
    && (row.cold ==> PreReply(row.status) && !row.bounced)
    && IsPath(row.log) && Replay(row.log) == row.status
    && (row.previous.Some? ==> row.previous == row.log[|row.log| - 1].from)
  }

  /** The log starts without a predecessor, every later entry leaves from where the one before ended, moves,
      and unless the owner made it follows the table of transitions. */
  ghost predicate IsPath(log: seq<Entry>) {
    && log != [] && log[0].from == None && !log[0].byOwner
    && forall i :: 1 <= i < |log| ==>
         && log[i].from == Some(log[i - 1].to) && log[i].to != log[i - 1].to
         && (log[i].byOwner || Allowed(log[i - 1].to, log[i].to))
  }

  /** Starting from the first entry and following the moves. */
  function Replay(log: seq<Entry>): Status
    requires log != []
  {
    if |log| == 1 then log[0].to
    else
      var soFar := Replay(log[..|log| - 1]);
      var last := log[|log| - 1];
      if last.from == Some(soFar) then last.to else soFar
  }

  lemma {:induction false} ReplayEnds(log: seq<Entry>)
    requires IsPath(log)
    ensures Replay(log) == log[|log| - 1].to
  {
    if |log| > 1 {
      ReplayEnds(log[..|log| - 1]);
    }
  }

  lemma PathSnoc(log: seq<Entry>, e: Entry)
    requires IsPath(log) && e.from == Some(log[|log| - 1].to) && e.to != log[|log| - 1].to
    requires e.byOwner || Allowed(log[|log| - 1].to, e.to)
    ensures IsPath(log + [e]) && Replay(log + [e]) == e.to
  {
    ReplayEnds(log);
    assert (log + [e])[..|log|] == log;
  }

  lemma LogFollows(row: Row, to: Status, byOwner: bool)
    requires IsPath(row.log) && Replay(row.log) == row.status && Legal(row.status, to, byOwner) && row.status != to
    ensures var log := row.log + [Entry(Some(row.status), to, byOwner)]; IsPath(log) && Replay(log) == to
  {
    ReplayEnds(row.log);
    PathSnoc(row.log, Entry(Some(row.status), to, byOwner));
  }

  lemma SetStatusSound(row: Row, to: Status, byOwner: bool, fields: Fields)
    requires Sound(row) && Legal(row.status, to, byOwner)
    ensures SetStatus(row, to, byOwner, fields).Some? && Sound(SetStatus(row, to, byOwner, fields).value)
  {
    if row.status != to {
      LogFollows(row, to, byOwner);
    }
  }

  lemma OpenSound(row: Row, kind: Kind)
    requires Sound(row)
    ensures OpenOnSend(row, kind).Some? && Sound(OpenOnSend(row, kind).value)
  {
    if row.status == Discovered || row.status == Ready {
      SetStatusSound(row, Emailed, false, NO_FIELDS.(cold := Some(kind == ColdKind || kind == FollowupKind)));
    }
  }

  lemma ProposeSound(row: Row, kind: Kind)
    requires Sound(row) && ProposeOnSend(row, kind).Some?
    ensures Sound(ProposeOnSend(row, kind).value)
  {
    if ProposeOnSend(row, kind) != Some(row) {
      SetStatusSound(row, ProposalSent, false, NO_FIELDS);
    }
  }

  lemma SendSound(row: Row, kind: Kind, providerId: string, draft: Option<nat>)
    requires Sound(row) && ConfirmedSend(row, kind, providerId, draft).Done?
    ensures Sound(ConfirmedSend(row, kind, providerId, draft).row)
  {
    var stored := WithMessage(row, providerId, false);
    OpenSound(stored, kind);
    ProposeSound(OpenOnSend(stored, kind).value, kind);
  }

  /** Messages, drafts and the proposal column are no part of that. */
  lemma DraftsAside(row: Row, reply: Label, h: Hints, message: nat)
    requires Sound(row)
    ensures Sound(WithDrafts(Cleared(row, reply), reply, h, message))
  {
  }

  lemma InboundSound(row: Row, reply: Label, providerId: string, h: Hints)
    requires Sound(row) && ProcessInbound(row, reply, providerId, h).Done?
    ensures Sound(ProcessInbound(row, reply, providerId, h).row)
  {
    var stored := WithMessage(row, providerId, true);
    var moved := SetStatus(stored, NextStatus(row.status, reply), false, ReplyFields(stored, reply));
    SetStatusSound(stored, NextStatus(row.status, reply), false, ReplyFields(stored, reply));
    DraftsAside(moved.value, reply, h, |row.messages|);
  }

  lemma StepSound(row: Row, ev: Event)
    requires Sound(row)
    ensures Sound(Step(row, ev))
  {
    match ev {
      case Send(kind, providerId, draft) =>
        if Decide(row, ev).Done? {
          SendSound(row, kind, providerId, draft);
        }
      case Inbound(reply, providerId, h) =>
        if Decide(row, ev).Done? {
          InboundSound(row, reply, providerId, h);
        }
      case AddressRejected =>
      case OwnerSet(to) => SetStatusSound(row, to, true, NO_FIELDS);
      case OwnerWon => SetStatusSound(row, Won, true, NO_FIELDS.(proposal := Some(Accepted)));
    }
  }

  /** Owner actions included: the do-not-contact flag always agrees with the status, a cold sequence runs only
      before the first reply and never after a bounce, and the log is a path whose replay gives the status. */
  lemma {:induction false} SoundOverRuns(o: Outreach, events: seq<Event>)
    ensures Sound(Run(InitialRow(o), events))
  {
    if events != [] {
      SoundOverRuns(o, events[..|events| - 1]);
      StepSound(Run(InitialRow(o), events[..|events| - 1]), events[|events| - 1]);
    }
  }

  // ---------------------------------------------------------------- which steps are refused

  /** A reply is refused exactly when it is new, human, comes before any email, and is none of the three labels
      that may leave those statuses directly. */
  lemma InboundRefusedExactly(row: Row, reply: Label, providerId: string, h: Hints)
    ensures ProcessInbound(row, reply, providerId, h).Refused? <==>
            && !Stored(row, providerId)
            && (row.status == Discovered || row.status == Ready)
            && Human(reply) && reply !in {UNSUBSCRIBE, NOT_INTERESTED, NEEDS_REVIEW}
  {
    NextIsLegalExactly(row.status, reply);
  }

  lemma NextIsLegalExactly(current: Status, reply: Label)
    ensures Legal(current, NextStatus(current, reply), false) <==>
            !((current == Discovered || current == Ready) && Human(reply) && reply !in {UNSUBSCRIBE, NOT_INTERESTED, NEEDS_REVIEW})
  {
    var target := TargetFor(reply, current);
    assert Legal(current, target, false);
  }

  /** A confirmed send is refused exactly when it has no provider id or an unknown kind, or is a new proposal sent
      from one of the three statuses that the store accepts and the table does not. */
  lemma SendRefusedExactly(row: Row, kind: Kind, providerId: string, draft: Option<nat>)
    ensures ConfirmedSend(row, kind, providerId, draft).Refused? <==>
            || providerId == "" || kind == IntroKind || kind == ObjectionKind
            || (!Stored(row, providerId) && kind == ProposalKind && row.status in {Interested, Qualified, MeetingRequested})
  {
  }

  /** Recording the same message again changes nothing, however it arrives and whatever happened in between. */
  lemma StoredIsIdempotent(row: Row, ev: Event, later: seq<Event>, again: Event)
    requires ev.Send? || ev.Inbound?
    requires again.Send? || again.Inbound?
    requires Decide(row, ev).Done? && ev.providerId == again.providerId && ev.providerId != ""
    ensures var now := Run(Step(row, ev), later); Step(now, again) == now
  {
    assert Message(ev.providerId, ev.Inbound?) in Step(row, ev).messages by {
      StepStores(row, ev);
    }
    KeepsMessages(Step(row, ev), later, Message(ev.providerId, ev.Inbound?));
  }

  lemma StepStores(row: Row, ev: Event)
    requires (ev.Send? || ev.Inbound?) && Decide(row, ev).Done?
    ensures Step(row, ev).messages == row.messages + [Message(ev.providerId, ev.Inbound?)]
  {
  }

  lemma {:induction false} KeepsMessages(row: Row, events: seq<Event>, m: Message)
    requires m in row.messages
    ensures m in Run(row, events).messages
  {
    if events != [] {
      var n := |events| - 1;
      KeepsMessages(row, events[..n], m);
      var before, ev := Run(row, events[..n]), events[n];
      if (ev.Send? || ev.Inbound?) && Decide(before, ev).Done? {
        StepStores(before, ev);
      }
    }
  }

  // ---------------------------------------------------------------- runs without the owner

  ghost predicate Unattended(events: seq<Event>) {
    forall ev <- events :: !ByOwner(ev)
  }

  /** A status change that leaves do-not-contact, once reached, and the time after the first reply as they are. */
  predicate OneWay(from: Status, to: Status) {
    && (from == DoNotContact ==> to == DoNotContact) && (!PreReply(from) ==> !PreReply(to)) && Legal(from, to, false)
  }

  lemma SendOneWay(row: Row, kind: Kind)
    ensures StatusAfterSend(row, kind).Some? ==> OneWay(row.status, StatusAfterSend(row, kind).value.status)
  {
  }

  lemma ReplyOneWay(current: Status, reply: Label)
    requires Legal(current, NextStatus(current, reply), false)
    ensures OneWay(current, NextStatus(current, reply))
  {
    var target := TargetFor(reply, current);
    assert Legal(current, target, false);
  }

  lemma StepUnattended(row: Row, ev: Event)
    requires !ByOwner(ev)
    ensures OneWay(row.status, Step(row, ev).status)
  {
    if Decide(row, ev).Done? {
      match ev {
        case Send(kind, providerId, _) => SendOneWay(WithMessage(row, providerId, false), kind);
        case Inbound(reply, providerId, h) =>
          InboundStatus(row, reply, providerId, h);
          ReplyOneWay(row.status, reply);
        case _ =>
      }
    }
  }

  lemma InboundStatus(row: Row, reply: Label, providerId: string, h: Hints)
    requires ProcessInbound(row, reply, providerId, h).Done?
    ensures ProcessInbound(row, reply, providerId, h).row.status == NextStatus(row.status, reply)
    ensures Legal(row.status, NextStatus(row.status, reply), false)
  {
  }

  /** Without the owner, do-not-contact is final, no step returns to a status before the first reply, and a cold
      sequence that has ended with it never runs again. */
  lemma {:induction false} NoWayBack(row: Row, events: seq<Event>)
    requires Sound(row) && Unattended(events)
    ensures var after := Run(row, events);
            && Sound(after)
            && (row.status == DoNotContact ==> after.status == DoNotContact)
            && (!PreReply(row.status) ==> !PreReply(after.status) && !after.cold)
  {
    if events != [] {
      var n := |events| - 1;
      assert forall ev <- events[..n] :: ev in events;
      NoWayBack(row, events[..n]);
      assert events[n] in events;
      StepSound(Run(row, events[..n]), events[n]);
      StepUnattended(Run(row, events[..n]), events[n]);
    }
  }

  lemma {:induction false} RunAppend(row: Row, before: seq<Event>, after: seq<Event>)
    ensures Run(row, before + after) == Run(Run(row, before), after)
  {
    if after == [] {
      assert before + after == before;
    } else {
      RunAppend(row, before, after[..|after| - 1]);
      assert (before + after)[..|before + after| - 1] == before + after[..|after| - 1];
    }
  }

  lemma ProcessedReplyLeaves(row: Row, reply: Event)
    requires reply.Inbound? && Human(reply.reply) && Decide(row, reply).Done?
    ensures !PreReply(Step(row, reply).status)
  {
  }

  /** Once a human reply has been processed, no later step without the owner brings the cold sequence back. */
  lemma HumanReplyEndsSequence(o: Outreach, before: seq<Event>, reply: Event, after: seq<Event>)
    requires reply.Inbound? && Human(reply.reply) && Decide(Run(InitialRow(o), before), reply).Done?
    requires Unattended(after)
    ensures var row := Run(InitialRow(o), before + [reply] + after); !row.cold && !PreReply(row.status)
  {
    var start := Run(InitialRow(o), before);
    SoundOverRuns(o, before);
    StepSound(start, reply);
    ProcessedReplyLeaves(start, reply);
    NoWayBack(Step(start, reply), after);
    RunAppend(InitialRow(o), before + [reply], after);
    RunAppend(InitialRow(o), before, [reply]);
    assert Run(start, [reply]) == Step(start, reply) by {
      assert [reply][..0] == [];
    }
  }

  // ---------------------------------------------------------------- drafts

  /** At most one draft of each kind waits for approval. */
  ghost predicate DraftsSound(drafts: seq<Draft>) {
    forall i, j :: 0 <= i < j < |drafts| && drafts[i].kind == drafts[j].kind ==>
      drafts[i].state != Awaiting || drafts[j].state != Awaiting
  }

  ghost predicate NonePending(drafts: seq<Draft>) {
    forall d <- drafts :: d.state != Awaiting
  }

  lemma SupersedingSound(drafts: seq<Draft>, kind: Kind, basedOn: nat)
    requires DraftsSound(drafts)
    ensures DraftsSound(Superseding(drafts, kind, basedOn))
    ensures forall d <- Superseding(drafts, kind, basedOn) :: d.kind == kind && d.state == Awaiting ==> d == Draft(kind, basedOn, Awaiting)
  {
  }

  lemma AddDraftSound(drafts: seq<Draft>, kind: Kind, basedOn: nat)
    requires DraftsSound(drafts)
    ensures DraftsSound(AddDraft(drafts, kind, basedOn))
  {
    SupersedingSound(drafts, kind, basedOn);
    var kept := Superseding(drafts, kind, basedOn);
    assert forall i :: 0 <= i < |kept| ==> kept[i] in kept;
  }

  lemma {:induction false} AddDraftsSound(drafts: seq<Draft>, kinds: seq<Kind>, basedOn: nat)
    requires DraftsSound(drafts)
    ensures DraftsSound(AddDrafts(drafts, kinds, basedOn))
  {
    if kinds != [] {
      AddDraftsSound(drafts, kinds[..|kinds| - 1], basedOn);
      AddDraftSound(AddDrafts(drafts, kinds[..|kinds| - 1], basedOn), kinds[|kinds| - 1], basedOn);
    }
  }

  /** The owner made the last move of the log. */
  predicate LastByOwner(row: Row) {
    row.log != [] && row.log[|row.log| - 1].byOwner
  }

  /** And none waits for a company that must not be contacted, unless it was the owner who put it there. */
  ghost predicate Queue(row: Row) {
    DraftsSound(row.drafts) && (row.status == DoNotContact && !LastByOwner(row) ==> NonePending(row.drafts))
  }

  lemma SendMovesOnlyStatus(row: Row, kind: Kind)
    requires StatusAfterSend(row, kind).Some?
    ensures var after := StatusAfterSend(row, kind).value;
            after.drafts == row.drafts && (after.status == DoNotContact ==> row.status == DoNotContact && after.log == row.log)
  {
  }

  lemma DraftsAfterSendSound(drafts: seq<Draft>, kind: Kind, sent: Option<nat>)
    ensures DraftsSound(drafts) ==> DraftsSound(DraftsAfterSend(drafts, kind, sent))
    ensures NonePending(drafts) ==> NonePending(DraftsAfterSend(drafts, kind, sent))
  {
    var after := DraftsAfterSend(drafts, kind, sent);
    assert forall i :: 0 <= i < |drafts| ==> drafts[i] in drafts && (after[i].state == Awaiting ==> drafts[i].state == Awaiting);
  }

  lemma SendKeepsQueue(row: Row, kind: Kind, providerId: string, draft: Option<nat>)
    requires Queue(row) && ConfirmedSend(row, kind, providerId, draft).Done?
    ensures Queue(ConfirmedSend(row, kind, providerId, draft).row)
  {
    SendMovesOnlyStatus(WithMessage(row, providerId, false), kind);
    DraftsAfterSendSound(row.drafts, kind, draft);
  }

  lemma DiscardLeavesNone(drafts: seq<Draft>)
    ensures NonePending(DiscardPending(drafts)) && DraftsSound(DiscardPending(drafts))
  {
  }

  lemma WithDraftsKeepsQueue(row: Row, reply: Label, h: Hints, message: nat)
    requires (row.doNotContact <==> row.status == DoNotContact) && Queue(row)
    ensures Queue(WithDrafts(row, reply, h, message))
  {
    AddDraftsSound(row.drafts, DraftKinds(reply, h), message);
  }

  lemma ClearedKeepsQueue(row: Row, reply: Label, moved: Row)
    requires Queue(row) && moved.drafts == row.drafts
    requires moved.status == TargetFor(reply, row.status) || moved.status == Replied
    requires moved.status == row.status ==> moved.log == row.log
    ensures Queue(Cleared(moved, reply))
  {
    DiscardLeavesNone(row.drafts);
    if moved.status == DoNotContact {
      OnlyUnsubscribe(reply, row.status);
    }
  }

  lemma InboundKeepsQueue(row: Row, reply: Label, providerId: string, h: Hints)
    requires Sound(row) && Queue(row) && ProcessInbound(row, reply, providerId, h).Done?
    ensures Queue(ProcessInbound(row, reply, providerId, h).row)
  {
    var stored := WithMessage(row, providerId, true);
    SetStatusSound(stored, NextStatus(row.status, reply), false, ReplyFields(stored, reply));
    var moved := SetStatus(stored, NextStatus(row.status, reply), false, ReplyFields(stored, reply)).value;
    ClearedKeepsQueue(row, reply, moved);
    WithDraftsKeepsQueue(Cleared(moved, reply), reply, h, |row.messages|);
  }

  /** No other reply leads to do-not-contact. */
  lemma OnlyUnsubscribe(reply: Label, current: Status)
    requires TargetFor(reply, current) == DoNotContact
    ensures current == DoNotContact || reply == UNSUBSCRIBE
  {
  }

  lemma OwnerKeepsQueue(row: Row, to: Status, fields: Fields)
    requires Queue(row)
    ensures Queue(SetStatus(row, to, true, fields).value)
  {
  }

  lemma StepKeepsQueue(row: Row, ev: Event)
    requires Sound(row) && Queue(row)
    ensures Queue(Step(row, ev))
  {
    match ev {
      case Send(kind, providerId, draft) =>
        if Decide(row, ev).Done? {
          SendKeepsQueue(row, kind, providerId, draft);
        }
      case Inbound(reply, providerId, h) =>
        if Decide(row, ev).Done? {
          InboundKeepsQueue(row, reply, providerId, h);
        }
      case AddressRejected =>
      case OwnerSet(to) => OwnerKeepsQueue(row, to, NO_FIELDS);
      case OwnerWon => OwnerKeepsQueue(row, Won, NO_FIELDS.(proposal := Some(Accepted)));
    }
  }

  /** Over every run, owner actions included, there is at most one pending draft of each kind, and none once the company
      is on do-not-contact by anything but the owner's own move. */
  lemma {:induction false} QueueOverRuns(o: Outreach, events: seq<Event>)
    ensures var row := Run(InitialRow(o), events); Sound(row) && Queue(row)
  {
    if events != [] {
      var n := |events| - 1;
      QueueOverRuns(o, events[..n]);
      StepSound(Run(InitialRow(o), events[..n]), events[n]);
      StepKeepsQueue(Run(InitialRow(o), events[..n]), events[n]);
    }
  }

  lemma {:induction false} UnattendedLog(o: Outreach, events: seq<Event>)
    requires Unattended(events)
    ensures forall e <- Run(InitialRow(o), events).log :: !e.byOwner
  {
    if events != [] {
      var n := |events| - 1;
      assert forall ev <- events[..n] :: ev in events;
      UnattendedLog(o, events[..n]);
      assert events[n] in events;
      StepLogs(Run(InitialRow(o), events[..n]), events[n]);
    }
  }

  lemma StepLogs(row: Row, ev: Event)
    requires !ByOwner(ev)
    ensures forall e <- Step(row, ev).log :: e in row.log || !e.byOwner
  {
  }

  /** So without the owner no draft at all is pending for a do-not-contact company. */
  lemma NonePendingUnattended(o: Outreach, events: seq<Event>)
    requires Unattended(events) && Run(InitialRow(o), events).status == DoNotContact
    ensures NonePending(Run(InitialRow(o), events).drafts)
  {
    var row := Run(InitialRow(o), events);
    QueueOverRuns(o, events);
    UnattendedLog(o, events);
    assert row.log != [] ==> row.log[|row.log| - 1] in row.log;
  }

  // ---------------------------------------------------------------- steps that fail

  /** An interested first reply to a company that was never written to is refused and leaves nothing behind. */
  lemma EarlyReplyIsLost()
    ensures var row := InitialRow(OutreachReady);
            var reply := Inbound(INTERESTED, "m1", Hints(false, false, false));
            Decide(row, reply) == Refused && Step(row, reply).messages == []
  {
  }

  /** A company that asked for the price after our first e-mail. */
  function AskedForPrice(): Row {
    Step(InitialRow(Contacted), Inbound(PRICE_QUESTION, "m1", Hints(false, false, false)))
  }

  lemma AskedIsInterested()
    ensures AskedForPrice().status == Interested && AskedForPrice().messages == [Message("m1", true)]
  {
    var row := InitialRow(Contacted);
    InboundRefusedExactly(row, PRICE_QUESTION, "m1", Hints(false, false, false));
    StepStores(row, Inbound(PRICE_QUESTION, "m1", Hints(false, false, false)));
    assert [] + [Message("m1", true)] == [Message("m1", true)];
  }

  /** A proposal sent to it is refused, so its message is not recorded. */
  lemma EarlyProposalIsLost()
    ensures var proposal := Send(ProposalKind, "m2", None);
            Decide(AskedForPrice(), proposal) == Refused && Step(AskedForPrice(), proposal) == AskedForPrice()
  {
    AskedIsInterested();
    SendRefusedExactly(AskedForPrice(), ProposalKind, "m2", None);
  }

  /** The owner's own do-not-contact leaves a pending draft where it is. */
  lemma OwnerLeavesDraft()
    ensures var row := Step(InitialRow(Contacted), Inbound(MORE_INFORMATION, "m1", Hints(false, false, false)));
            var after := Step(row, OwnerSet(DoNotContact));
            after.status == DoNotContact && Draft(ReplyKind, 0, Awaiting) in after.drafts
  {
    AddOneDraft([], ReplyKind, 0);
  }

  lemma AddOneDraft(drafts: seq<Draft>, kind: Kind, basedOn: nat)
    ensures AddDrafts(drafts, [kind], basedOn) == AddDraft(drafts, kind, basedOn)
    ensures Draft(kind, basedOn, Awaiting) in AddDraft(drafts, kind, basedOn)
  {
    assert [kind][..0] == [];
  }
}
