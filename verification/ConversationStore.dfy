/** The store and the reply pipeline as they run: columns are written one statement at a time inside a transaction,
    and a refused transition rolls every earlier statement back. */
module ConversationStore {
  import opened Common
  import opened Status
  import opened Conversation

  datatype Ended = Committed | AlreadyStored | RolledBack

  class Company {
    var status: Status
    var previous: Option<Status>
    var cold: bool
    var doNotContact: bool
    var bounced: bool
    var proposal: Proposal
    var log: seq<Entry>
    var messages: seq<Message>
    var drafts: seq<Draft>

    function Value(): Row
      reads this
    {
      Row(status, previous, cold, doNotContact, bounced, proposal, log, messages, drafts)
    }

    /** The row is made from the lead engine's status on first touch. */
    constructor EnsureState(o: Outreach)
      ensures Value() == InitialRow(o)
    {
      var s := InitialStatus(o);
      status, previous, cold := s, None, s == Emailed && o != BouncedBack;
      doNotContact, bounced, proposal := s == DoNotContact, o == BouncedBack, NoProposal;
      log, messages, drafts := [Entry(None, s, false)], [], [];
    }

    method Rollback(saved: Row)
      modifies this
      ensures Value() == saved
    {
      status, previous, cold, doNotContact := saved.status, saved.previous, saved.cold, saved.doNotContact;
      bounced, proposal, log := saved.bounced, saved.proposal, saved.log;
      messages, drafts := saved.messages, saved.drafts;
    }

    method ChangeStatus(to: Status, byOwner: bool, fields: Fields) returns (ok: bool)
      modifies this
      ensures ok == Legal(old(status), to, byOwner)
      ensures ok ==> SetStatus(old(Value()), to, byOwner, fields) == Some(Value())
      ensures !ok ==> Value() == old(Value()) && SetStatus(old(Value()), to, byOwner, fields) == None
    {
      var from := status;
      ok := Legal(from, to, byOwner);
      if ok {
        WriteStatus(from, to, byOwner, fields);
      }
    }

    /** The sequence flag as requested or as it was, switched off by a late status and by a bounce. */
    method ColdAfter(to: Status, fields: Fields) returns (active: bool)
      ensures active == ((if fields.cold.Some? then fields.cold.value else cold) && PreReply(to) && !fields.bounced && !bounced)
    {
      active := if fields.cold.Some? then fields.cold.value else cold;
      if !PreReply(to) {
        active := false;
      }
      if fields.bounced || bounced {
        active := false;
      }
    }

    method WriteLog(from: Status, to: Status, byOwner: bool)
      modifies this`previous, this`log
      ensures previous == if from != to then Some(from) else old(previous)
      ensures log == if from != to then old(log) + [Entry(Some(from), to, byOwner)] else old(log)
    {
      if from != to {
        previous, log := Some(from), log + [Entry(Some(from), to, byOwner)];
      }
    }

    method WriteFlags(to: Status, byOwner: bool, fields: Fields)
      modifies this`cold, this`doNotContact, this`bounced, this`proposal
      ensures cold == ((if fields.cold.Some? then fields.cold.value else old(cold)) && PreReply(to) && !fields.bounced && !old(bounced))
      ensures doNotContact == (to == DoNotContact || (old(doNotContact) && !byOwner))
      ensures bounced == (old(bounced) || fields.bounced)
      ensures proposal == if fields.proposal.Some? then fields.proposal.value else old(proposal)
    {
      var active := ColdAfter(to, fields);
      cold, doNotContact := active, to == DoNotContact || (doNotContact && !byOwner);
      bounced := bounced || fields.bounced;
      if fields.proposal.Some? {
        proposal := fields.proposal.value;
      }
    }

    method WriteStatus(from: Status, to: Status, byOwner: bool, fields: Fields)
      requires from == status
      modifies this
      ensures Value() == Written(old(Value()), to, byOwner, fields)
    {
      WriteFlags(to, byOwner, fields);
      WriteLog(from, to, byOwner);
      status := to;
    }

    /** Appends a message unless its provider id is already stored. */
    method InsertMessage(providerId: string, inbound: bool) returns (inserted: bool)
      modifies this
      ensures inserted == !Stored(old(Value()), providerId)
      ensures Value() == if inserted then WithMessage(old(Value()), providerId, inbound) else old(Value())
    {
      for i := 0 to |messages|
        invariant Value() == old(Value())
        invariant providerId != "" ==> forall j :: 0 <= j < i ==> messages[j].providerId != providerId
      {
        if providerId != "" && messages[i].providerId == providerId {
          return false;
        }
      }
      messages := messages + [Message(providerId, inbound)];
      return true;
    }

    method AddDraftRow(kind: Kind, basedOn: nat) returns (added: bool)
      modifies this`drafts
      ensures drafts == AddDraft(old(drafts), kind, basedOn)
      ensures |drafts| == |old(drafts)| + if added then 1 else 0
    {
      drafts := Superseding(drafts, kind, basedOn);
      added := Draft(kind, basedOn, Awaiting) !in drafts;
      if added {
        drafts := drafts + [Draft(kind, basedOn, Awaiting)];
      }
    }

    /** The status moves of a confirmed send. */
    method MoveOnSend(kind: Kind) returns (ok: bool)
      modifies this
      ensures ok == StatusAfterSend(old(Value()), kind).Some?
      ensures ok ==> Value() == StatusAfterSend(old(Value()), kind).value
    {
      ok := true;
      if status == Discovered || status == Ready {
        ok := ChangeStatus(Emailed, false, NO_FIELDS.(cold := Some(kind == ColdKind || kind == FollowupKind)));
      }
      if ok && kind == ProposalKind && status in {ProposalNeeded, Negotiating, Interested, Qualified, MeetingRequested} {
        ok := ChangeStatus(ProposalSent, false, NO_FIELDS);
      }
    }

    method RecordConfirmedSend(kind: Kind, providerId: string, sent: Option<nat>) returns (r: Ended)
      modifies this
      ensures match ConfirmedSend(old(Value()), kind, providerId, sent)
              case Done(row) => r == Committed && Value() == row
              case Duplicate => r == AlreadyStored && Value() == old(Value())
              case Refused => r == RolledBack && Value() == old(Value())
    {
      if providerId == "" || kind == IntroKind || kind == ObjectionKind {
        return RolledBack;
      }
      var saved := Value();
      var inserted := InsertMessage(providerId, false);
      if !inserted {
        return AlreadyStored;
      }
      var ok := MoveOnSend(kind);
      if !ok {
        Rollback(saved);
        return RolledBack;
      }
      if kind == ProposalKind {
        proposal := ProposalOut;
      }
      drafts := DraftsAfterSend(drafts, kind, sent);
      return Committed;
    }

    method PrepareDrafts(reply: Label, h: Hints, message: nat)
      modifies this`drafts, this`proposal
      ensures Value() == WithDrafts(old(Value()), reply, h, message)
    {
      if doNotContact {
        return;
      }
      var kinds := DraftKinds(reply, h);
      var made := false;
      for i := 0 to |kinds|
        invariant drafts == AddDrafts(old(drafts), kinds[..i], message)
        invariant proposal == old(proposal)
        invariant |drafts| >= |old(drafts)| && (made <==> |drafts| > |old(drafts)|)
      {
        assert kinds[..i + 1][..i] == kinds[..i];
        var added := AddDraftRow(kinds[i], message);
        made := made || added;
      }
      assert kinds[..|kinds|] == kinds;
      assert drafts == AddDrafts(old(Value()).drafts, kinds, message);
      if reply == READY_TO_BUY && made && proposal != Accepted {
        proposal := Drafted;
      }
    }

    /** The columns written beside the status. */
    method ReplyColumns(reply: Label, next: Status) returns (fields: Fields)
      requires next == TargetFor(reply, status)
      ensures fields == ReplyFields(Value(), reply)
    {
      fields := NO_FIELDS;
      if reply == READY_TO_BUY {
        fields := fields.(proposal := Some(if proposal == ProposalOut then Accepted else Needed));
      }
      if reply == DELIVERY_FAILURE {
        fields := fields.(bounced := true);
      }
      if next == status && reply == DELIVERY_FAILURE && cold {
        fields := fields.(cold := Some(false));
      }
    }

    /** The status move of a reply. */
    method MoveOnReply(reply: Label) returns (ok: bool)
      modifies this
      ensures var r := SetStatus(old(Value()), NextStatus(old(status), reply), false, ReplyFields(old(Value()), reply));
              ok == r.Some? && (ok ==> Value() == r.value)
    {
      var next := TargetFor(reply, status);
      var fields := ReplyColumns(reply, next);
      if Human(reply) && PreReply(status) && PreReply(next) {
        next := Replied;
      }
      ok := ChangeStatus(next, false, fields);
    }

    method ReceiveReply(reply: Label, providerId: string, h: Hints) returns (r: Ended)
      modifies this
      ensures match ProcessInbound(old(Value()), reply, providerId, h)
              case Done(row) => r == Committed && Value() == row
              case Duplicate => r == AlreadyStored && Value() == old(Value())
              case Refused => r == RolledBack && Value() == old(Value())
    {
      var saved := Value();
      var inserted := InsertMessage(providerId, true);
      if !inserted {
        return AlreadyStored;
      }
      var ok := MoveOnReply(reply);
      if !ok {
        Rollback(saved);
        return RolledBack;
      }
      if reply == UNSUBSCRIBE {
        drafts := DiscardPending(drafts);
      }
      PrepareDrafts(reply, h, |saved.messages|);
      return Committed;
    }

    method OwnerSetStatus(to: Status)
      modifies this
      ensures Value() == Step(old(Value()), OwnerSet(to))
    {
      var ok := ChangeStatus(to, true, NO_FIELDS);
    }
  }
}
