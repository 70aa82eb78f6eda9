/** What each processed event leaves of a company's row, column by column, and which drafts it prepares, replaces and
    throws away. */
module ConversationSteps {
  import opened Common
  import opened Status
  import opened Conversation
  import opened ConversationRuns

  // ---------------------------------------------------------------- the first row

  /** The status of a new row, read from the other side: what each of the five first statuses stands for. */
  lemma FirstRows(o: Outreach)
    ensures var row := InitialRow(o);
            && (row.status == Discovered <==> o in {New, NotReady, Rejected})
            && (row.status == Ready <==> o in {OutreachReady, HandedOff})
            && (row.status == Emailed <==> o in {Contacted, BouncedBack})
            && (row.status == Replied <==> o == RepliedTo)
            && (row.status == DoNotContact <==> o in {Unsubscribed, Blocked})
            && (row.cold <==> o == Contacted) && (row.bounced <==> o == BouncedBack)
            && row.proposal == NoProposal && row.messages == [] && row.drafts == [] && |row.log| == 1
  {
  }

  // ---------------------------------------------------------------- which drafts a reply asks for

  /** A draft kind is prepared for these replies and no others: an answer to interest and questions about the work, an
      audit with it unless a video was offered, a price, an objection, a proposal, an introduction to a referral. */
  lemma DraftKindsExactly(reply: Label, h: Hints)
    ensures var kinds := DraftKinds(reply, h);
            && (ReplyKind in kinds <==> reply in {INTERESTED, MORE_INFORMATION})
            && (AuditKind in kinds <==> !h.video && (reply == INTERESTED || (reply == MORE_INFORMATION && h.breakdown)))
            && (PricingKind in kinds <==> reply == PRICE_QUESTION)
            && (ObjectionKind in kinds <==> reply == OBJECTION)
            && (ProposalKind in kinds <==> reply == READY_TO_BUY)
            && (IntroKind in kinds <==> reply == REFERRAL && h.referral)
            && ColdKind !in kinds && FollowupKind !in kinds && ManualKind !in kinds && OtherKind !in kinds
            && |kinds| <= 2 && (|kinds| == 2 ==> kinds == [ReplyKind, AuditKind])
  {
  }

  // ---------------------------------------------------------------- a reply

  /** Every draft answers a message that is there. */
  ghost predicate Grounded(row: Row) {
    forall d <- row.drafts :: d.basedOn < |row.messages|
  }

  /** The status and the log move together. */
  ghost predicate Moves(row: Row, after: Row, to: Status, byOwner: bool) {
    && after.status == to
    && after.log == (if row.status == to then row.log else row.log + [Entry(Some(row.status), to, byOwner)])
    && after.previous == (if row.status == to then row.previous else Some(row.status))
  }

  /** A reply that is not refused moves the company where its label's target says. */
  lemma ReplyMoves(row: Row, reply: Label)
    requires Legal(row.status, NextStatus(row.status, reply), false)
    ensures NextStatus(row.status, reply) == TargetFor(reply, row.status)
  {
    NextIsLegalExactly(row.status, reply);
    TargetForMoves(reply, row.status);
  }

  /** What a processed reply leaves: its message, the status of its label, no cold sequence after the first reply or a
      bounce, a bounce mark exactly for a delivery failure, and do-not-contact once reached. */
  lemma ReplyLeaves(row: Row, reply: Label, id: string, h: Hints)
    requires ProcessInbound(row, reply, id, h).Done?
    ensures var after := ProcessInbound(row, reply, id, h).row;
            && Moves(row, after, TargetFor(reply, row.status), false)
            && after.messages == row.messages + [Message(id, true)]
            && (after.bounced <==> row.bounced || reply == DELIVERY_FAILURE)
            && (after.cold <==> row.cold && PreReply(after.status) && !after.bounced)
            && (after.doNotContact <==> row.doNotContact || after.status == DoNotContact)
            && (reply != READY_TO_BUY ==> after.proposal == row.proposal)
  {
    ReplyMoves(row, reply);
  }

  // ---------------------------------------------------------------- its drafts

  function WithReplaced(drafts: seq<Draft>, kind: Kind): seq<Draft> {
    seq(|drafts|, i requires 0 <= i < |drafts| => Replaced(drafts[i], [kind]))
  }

  /** An older draft after new ones of these kinds have been prepared. */
  function Replaced(d: Draft, kinds: seq<Kind>): Draft {
    if d.state == Awaiting && d.kind in kinds then d.(state := Superseded) else d
  }

  lemma AddFreshDraft(drafts: seq<Draft>, kind: Kind, basedOn: nat)
    requires forall d <- drafts :: d.basedOn != basedOn || d.kind != kind
    ensures AddDraft(drafts, kind, basedOn) == WithReplaced(drafts, kind) + [Draft(kind, basedOn, Awaiting)]
  {
    var kept := Superseding(drafts, kind, basedOn);
    forall i | 0 <= i < |drafts|
      ensures kept[i] == Replaced(drafts[i], [kind]) && kept[i] != Draft(kind, basedOn, Awaiting)
    {
      assert drafts[i] in drafts;
    }
    assert kept == WithReplaced(drafts, kind);
  }

  /** The drafts after a reply's kinds have been prepared: the older ones, pending ones of these kinds replaced, then one
      new pending draft for each kind. */
  ghost predicate Prepared(before: seq<Draft>, kinds: seq<Kind>, basedOn: nat, after: seq<Draft>) {
    && |after| == |before| + |kinds|
    && (forall i :: 0 <= i < |before| ==> after[i] == Replaced(before[i], kinds))
    && (forall j :: 0 <= j < |kinds| ==> after[|before| + j] == Draft(kinds[j], basedOn, Awaiting))
  }

  lemma PrepareOne(drafts: seq<Draft>, kind: Kind, basedOn: nat)
    requires forall d <- drafts :: d.basedOn < basedOn
    ensures AddDrafts(drafts, [kind], basedOn) == WithReplaced(drafts, kind) + [Draft(kind, basedOn, Awaiting)]
    ensures Prepared(drafts, [kind], basedOn, AddDrafts(drafts, [kind], basedOn))
  {
    AddFreshDraft(drafts, kind, basedOn);
    assert [kind][..0] == [] && AddDrafts(drafts, [], basedOn) == drafts;
  }

  lemma PrepareTwo(drafts: seq<Draft>, basedOn: nat)
    requires forall d <- drafts :: d.basedOn < basedOn
    ensures Prepared(drafts, [ReplyKind, AuditKind], basedOn, AddDrafts(drafts, [ReplyKind, AuditKind], basedOn))
  {
    PrepareOne(drafts, ReplyKind, basedOn);
    var once := AddDrafts(drafts, [ReplyKind], basedOn);
    assert [ReplyKind, AuditKind][..1] == [ReplyKind];
    forall i | 0 <= i < |once|
      ensures once[i].basedOn != basedOn || once[i].kind != AuditKind
    {
      assert i < |drafts| ==> drafts[i] in drafts && once[i] == Replaced(drafts[i], [ReplyKind]);
    }
    AddFreshDraft(once, AuditKind, basedOn);
  }

  lemma PreparesExactly(drafts: seq<Draft>, reply: Label, h: Hints, basedOn: nat)
    requires forall d <- drafts :: d.basedOn < basedOn
    ensures Prepared(drafts, DraftKinds(reply, h), basedOn, AddDrafts(drafts, DraftKinds(reply, h), basedOn))
  {
    var kinds := DraftKinds(reply, h);
    DraftKindsExactly(reply, h);
    if |kinds| == 1 {
      assert kinds == [kinds[0]];
      PrepareOne(drafts, kinds[0], basedOn);
    } else if |kinds| == 2 {
      PrepareTwo(drafts, basedOn);
    }
  }

  /** The drafts that a processed reply leaves: an unsubscribe discards the pending ones; on do-not-contact nothing new is
      prepared, and otherwise the kinds of the reply replace the pending drafts of those kinds. A reply ready to buy sets the
      proposal to accepted when one was out, to drafted when its draft was prepared, and else to needed. */
  lemma ReplyPrepares(row: Row, reply: Label, id: string, h: Hints)
    requires Grounded(row) && ProcessInbound(row, reply, id, h).Done?
    ensures var after := ProcessInbound(row, reply, id, h).row;
            var kept := if reply == UNSUBSCRIBE then DiscardPending(row.drafts) else row.drafts;
            && Prepared(kept, if after.doNotContact then [] else DraftKinds(reply, h), |row.messages|, after.drafts)
            && (reply == READY_TO_BUY ==> after.proposal == if row.proposal == ProposalOut then Accepted
                                                            else if after.doNotContact then Needed else Drafted)
  {
    var stored := WithMessage(row, id, true);
    var moved := SetStatus(stored, NextStatus(row.status, reply), false, ReplyFields(stored, reply)).value;
    MovedColumns(stored, NextStatus(row.status, reply), reply);
    DiscardKeeps(row.drafts);
    var cleared := Cleared(moved, reply);
    assert cleared.drafts == if reply == UNSUBSCRIBE then DiscardPending(row.drafts) else row.drafts;
    PreparesExactly(cleared.drafts, reply, h, |row.messages|);
    DraftKindsExactly(reply, h);
    assert ProcessInbound(row, reply, id, h).row == WithDrafts(cleared, reply, h, |row.messages|);
  }

  lemma MovedColumns(row: Row, to: Status, reply: Label)
    requires Legal(row.status, to, false)
    ensures var moved := SetStatus(row, to, false, ReplyFields(row, reply)).value;
            && moved.drafts == row.drafts
            && (reply == READY_TO_BUY ==> moved.proposal == if row.proposal == ProposalOut then Accepted else Needed)
  {
  }

  /** Discarding ends what was pending and nothing else. */
  lemma DiscardKeeps(drafts: seq<Draft>)
    ensures var after := DiscardPending(drafts);
            && |after| == |drafts|
            && (forall i :: 0 <= i < |drafts| ==>
                  after[i] == if drafts[i].state == Awaiting then drafts[i].(state := Discarded) else drafts[i])
            && forall d <- after :: exists e <- drafts :: d.basedOn == e.basedOn
  {
    var after := DiscardPending(drafts);
    forall d | d in after
      ensures exists e <- drafts :: d.basedOn == e.basedOn
    {
      var i :| 0 <= i < |after| && after[i] == d;
      assert drafts[i] in drafts;
    }
  }

  // ---------------------------------------------------------------- sends and the owner

  /** What a confirmed send leaves: its message; a first send opens the sequence, which runs for cold mail and follow-ups to
      an address that did not bounce; a proposal moves on from a needed proposal or a negotiation and ends the sequence. */
  lemma SendLeaves(row: Row, kind: Kind, id: string, sent: Option<nat>)
    requires ConfirmedSend(row, kind, id, sent).Done?
    ensures var after, first := ConfirmedSend(row, kind, id, sent).row, row.status == Discovered || row.status == Ready;
            var proposed := kind == ProposalKind && (row.status == ProposalNeeded || row.status == Negotiating);
            && Moves(row, after, if first then Emailed else if proposed then ProposalSent else row.status, false)
            && after.messages == row.messages + [Message(id, false)]
            && after.bounced == row.bounced && (after.doNotContact <==> row.doNotContact)
            && (after.cold <==> !proposed && if first then !row.bounced && (kind == ColdKind || kind == FollowupKind) else row.cold)
            && after.proposal == (if kind == ProposalKind then ProposalOut else row.proposal)
            && |after.drafts| == |row.drafts|
  {
    SendRefusedExactly(row, kind, id, sent);
  }

  /** The draft that went out is marked so; older pending drafts of its kind are answered with it, except for kinds that
      are no answers; the rest stays. */
  lemma SendDrafts(row: Row, kind: Kind, id: string, sent: Option<nat>, i: nat)
    requires ConfirmedSend(row, kind, id, sent).Done? && i < |row.drafts|
    ensures var before, drafts := row.drafts[i], ConfirmedSend(row, kind, id, sent).row.drafts;
            var answered := before.kind == kind && (kind == ReplyKind || kind == PricingKind || kind == AuditKind || kind == ProposalKind);
            && |drafts| == |row.drafts| && drafts[i].kind == before.kind && drafts[i].basedOn == before.basedOn
            && drafts[i].state == if sent == Some(i) then SentOut
                                  else if answered && before.state == Awaiting then Superseded else before.state
  {
    SendMovesOnlyStatus(WithMessage(row, id, false), kind);
  }

  /** The owner's choice of status holds whatever the table says; it starts no sequence, and lifts do-not-contact when it
      names another status. A bounced address ends the sequence where the company is. */
  lemma OwnerLeaves(row: Row, to: Status)
    ensures var after := Step(row, OwnerSet(to));
            && Moves(row, after, to, true) && (after.doNotContact <==> to == DoNotContact)
            && (after.cold <==> row.cold && PreReply(to) && !row.bounced) && after.bounced == row.bounced
            && after.proposal == row.proposal && after.messages == row.messages && after.drafts == row.drafts
    ensures Step(row, OwnerWon) == Step(row, OwnerSet(Won)).(proposal := Accepted)
    ensures Step(row, AddressRejected) == row.(bounced := true, cold := false)
  {
  }

  /** In every run each draft answers a message that was stored before it. */
  lemma {:induction false} GroundedOverRuns(o: Outreach, events: seq<Event>)
    ensures Grounded(Run(InitialRow(o), events))
  {
    if events != [] {
      var n := |events| - 1;
      GroundedOverRuns(o, events[..n]);
      StepGrounded(Run(InitialRow(o), events[..n]), events[n]);
    }
  }

  lemma StepGrounded(row: Row, ev: Event)
    requires Grounded(row)
    ensures Grounded(Step(row, ev))
  {
    if Decide(row, ev).Done? {
      match ev {
        case Send(kind, id, sent) => SendGrounded(row, kind, id, sent);
        case Inbound(reply, id, h) => InboundGrounded(row, reply, id, h);
        case _ => assert Step(row, ev).drafts == row.drafts && Step(row, ev).messages == row.messages;
      }
    }
  }

  lemma SendGrounded(row: Row, kind: Kind, id: string, sent: Option<nat>)
    requires Grounded(row) && ConfirmedSend(row, kind, id, sent).Done?
    ensures Grounded(ConfirmedSend(row, kind, id, sent).row)
  {
    var after := ConfirmedSend(row, kind, id, sent).row;
    SendLeaves(row, kind, id, sent);
    forall d | d in after.drafts
      ensures d.basedOn < |after.messages|
    {
      var i :| 0 <= i < |after.drafts| && after.drafts[i] == d;
      SendDrafts(row, kind, id, sent, i);
      assert row.drafts[i] in row.drafts;
    }
  }

  lemma InboundGrounded(row: Row, reply: Label, id: string, h: Hints)
    requires Grounded(row) && ProcessInbound(row, reply, id, h).Done?
    ensures Grounded(ProcessInbound(row, reply, id, h).row)
  {
    var after := ProcessInbound(row, reply, id, h).row;
    ReplyLeaves(row, reply, id, h);
    ReplyPrepares(row, reply, id, h);
    DiscardKeeps(row.drafts);
    var kept := if reply == UNSUBSCRIBE then DiscardPending(row.drafts) else row.drafts;
    PreparedGrounded(kept, if after.doNotContact then [] else DraftKinds(reply, h), |row.messages|, after.drafts);
  }

  lemma PreparedGrounded(before: seq<Draft>, kinds: seq<Kind>, n: nat, after: seq<Draft>)
    requires Prepared(before, kinds, n, after) && forall d <- before :: d.basedOn < n
    ensures forall d <- after :: d.basedOn < n + 1
  {
    forall i | 0 <= i < |after|
      ensures after[i].basedOn < n + 1
    {
      if i < |before| {
        assert before[i] in before;
      } else {
        assert after[|before| + (i - |before|)] == Draft(kinds[i - |before|], n, Awaiting);
      }
    }
  }
}
