/** One company's conversation: its state row, transition log, messages and drafts. Each operation is one
    transaction: it takes effect as a whole or not at all. */
module Conversation {
  import opened Common
  import opened Status

  datatype Kind = ColdKind | FollowupKind | ReplyKind | PricingKind | AuditKind | ProposalKind | ManualKind | OtherKind
                | IntroKind | ObjectionKind

  datatype Proposal = NoProposal | Needed | Drafted | ProposalOut | Accepted | Declined

  datatype Entry = Entry(from: Option<Status>, to: Status, byOwner: bool)

  datatype Message = Message(providerId: string, inbound: bool)

  datatype DraftState = Awaiting | SentOut | Discarded | Superseded

  /** `basedOn` is the position of the message a draft answers. */
  datatype Draft = Draft(kind: Kind, basedOn: nat, state: DraftState)

  datatype Row = Row(
    status: Status, previous: Option<Status>, cold: bool, doNotContact: bool, bounced: bool, proposal: Proposal,
    log: seq<Entry>, messages: seq<Message>, drafts: seq<Draft>)

  /** The lead engine's own status, from which a row is first made. */
  datatype Outreach = New | NotReady | Rejected | OutreachReady | HandedOff | Contacted | RepliedTo | BouncedBack | Unsubscribed | Blocked

  function InitialStatus(o: Outreach): Status {
    match o
    case New => Discovered
    case NotReady => Discovered
    case Rejected => Discovered
    case OutreachReady => Ready
    case HandedOff => Ready
    case Contacted => Emailed
    case RepliedTo => Replied
    case BouncedBack => Emailed
    case Unsubscribed => DoNotContact
    case Blocked => DoNotContact
  }

  function InitialRow(o: Outreach): Row {
    var s := InitialStatus(o);
    Row(s, None, s == Emailed && o != BouncedBack, s == DoNotContact, o == BouncedBack, NoProposal,
        [Entry(None, s, false)], [], [])
  }

  // ---------------------------------------------------------------- store

  /** The extra columns a status change may write. */
  datatype Fields = Fields(cold: Option<bool>, bounced: bool, proposal: Option<Proposal>)

  const NO_FIELDS := Fields(None, false, None)

  /** The columns after a status change that is allowed. */
  function Written(row: Row, to: Status, byOwner: bool, fields: Fields): Row {
    var wanted := if fields.cold.Some? then fields.cold.value else row.cold;
    Row(to,
        if row.status != to then Some(row.status) else row.previous,
        wanted && PreReply(to) && !fields.bounced && !row.bounced,
        to == DoNotContact || (row.doNotContact && !byOwner),
        row.bounced || fields.bounced,
        if fields.proposal.Some? then fields.proposal.value else row.proposal,
        if row.status != to then row.log + [Entry(Some(row.status), to, byOwner)] else row.log,
        row.messages, row.drafts)
  }

  /** The only way the status changes; None when the transition is refused. */
  function SetStatus(row: Row, to: Status, byOwner: bool, fields: Fields): Option<Row> {
    if Legal(row.status, to, byOwner) then Some(Written(row, to, byOwner, fields)) else None
  }

  /** A provider's message id is stored at most once; messages without one are never taken for duplicates. */
  predicate Stored(row: Row, providerId: string) {
    providerId != "" && exists m <- row.messages :: m.providerId == providerId
  }

  function WithMessage(row: Row, providerId: string, inbound: bool): Row {
    row.(messages := row.messages + [Message(providerId, inbound)])
  }

  function Retire(d: Draft, hit: bool, to: DraftState): Draft {
    if hit && d.state == Awaiting then d.(state := to) else d
  }

  /** The drafts with the pending ones of this kind superseded, unless they answer the same message. */
  function Superseding(drafts: seq<Draft>, kind: Kind, basedOn: nat): seq<Draft> {
    seq(|drafts|, i requires 0 <= i < |drafts| =>
          Retire(drafts[i], drafts[i].kind == kind && drafts[i].basedOn != basedOn, Superseded))
  }

  /** A newer draft replaces the pending ones of its kind; a pending one for the same message is kept instead. */
  function AddDraft(drafts: seq<Draft>, kind: Kind, basedOn: nat): seq<Draft> {
    var kept := Superseding(drafts, kind, basedOn);
    if Draft(kind, basedOn, Awaiting) in kept then kept else kept + [Draft(kind, basedOn, Awaiting)]
  }

  function AddDrafts(drafts: seq<Draft>, kinds: seq<Kind>, basedOn: nat): seq<Draft> {
    if kinds == [] then drafts
    else AddDraft(AddDrafts(drafts, kinds[..|kinds| - 1], basedOn), kinds[|kinds| - 1], basedOn)
  }

  datatype Outcome = Done(row: Row) | Duplicate | Refused

  /** After a send: the draft that went out is marked, and the pending drafts it answers are superseded. */
  function DraftsAfterSend(drafts: seq<Draft>, kind: Kind, sent: Option<nat>): seq<Draft> {
    seq(|drafts|, i requires 0 <= i < |drafts| =>
          if sent == Some(i) then drafts[i].(state := SentOut)
          else Retire(drafts[i], drafts[i].kind == kind && kind in {ReplyKind, PricingKind, AuditKind, ProposalKind}, Superseded))
  }

  /** A first send opens the sequence. */
  function OpenOnSend(row: Row, kind: Kind): Option<Row> {
    if row.status == Discovered || row.status == Ready then
      SetStatus(row, Emailed, false, NO_FIELDS.(cold := Some(kind == ColdKind || kind == FollowupKind)))
    else Some(row)
  }

  /** A proposal moves the statuses it is expected from to proposal-sent; the store lists five of them. */
  function ProposeOnSend(row: Row, kind: Kind): Option<Row> {
    if kind == ProposalKind && row.status in {ProposalNeeded, Negotiating, Interested, Qualified, MeetingRequested} then
      SetStatus(row, ProposalSent, false, NO_FIELDS)
    else Some(row)
  }

  function StatusAfterSend(row: Row, kind: Kind): Option<Row> {
    match OpenOnSend(row, kind)
    case None => None
    case Some(begun) => ProposeOnSend(begun, kind)
  }

  /** A send the provider confirmed. */
  function ConfirmedSend(row: Row, kind: Kind, providerId: string, sent: Option<nat>): Outcome {
    if providerId == "" || kind == IntroKind || kind == ObjectionKind then Refused
    else if Stored(row, providerId) then Duplicate
    else
      match StatusAfterSend(WithMessage(row, providerId, false), kind)
      case None => Refused
      case Some(r) =>
        Done(r.(proposal := if kind == ProposalKind then ProposalOut else r.proposal,
                drafts := DraftsAfterSend(r.drafts, kind, sent)))
  }

  // ---------------------------------------------------------------- pipeline

  /** What the last outbound text and the reply offer besides the label: a video, a breakdown, a referral address. */
  datatype Hints = Hints(video: bool, breakdown: bool, referral: bool)

  predicate Human(reply: Label) {
    reply != AUTO_REPLY && reply != DELIVERY_FAILURE
  }

  function DraftKinds(reply: Label, h: Hints): seq<Kind> {
    if (reply == MORE_INFORMATION || reply == INTERESTED) && h.video then [ReplyKind]
    else if (reply == MORE_INFORMATION || reply == INTERESTED) && h.breakdown then [ReplyKind, AuditKind]
    else match reply
      case PRICE_QUESTION => [PricingKind]
      case INTERESTED => [ReplyKind, AuditKind]
      case MORE_INFORMATION => [ReplyKind]
      case OBJECTION => [ObjectionKind]
      case READY_TO_BUY => [ProposalKind]
      case REFERRAL => if h.referral then [IntroKind] else []
      case _ => []
  }

  /** The status a reply moves to; any human reply ends the generic sequence. */
  function NextStatus(current: Status, reply: Label): Status {
    var target := TargetFor(reply, current);
    if Human(reply) && PreReply(current) && PreReply(target) then Replied else target
  }

  function ReplyFields(row: Row, reply: Label): Fields {
    Fields(
      if reply == DELIVERY_FAILURE && TargetFor(reply, row.status) == row.status && row.cold then Some(false) else None,
      reply == DELIVERY_FAILURE,
      if reply == READY_TO_BUY then Some(if row.proposal == ProposalOut then Accepted else Needed) else None)
  }

  function DiscardPending(drafts: seq<Draft>): seq<Draft> {
    seq(|drafts|, i requires 0 <= i < |drafts| => Retire(drafts[i], true, Discarded))
  }

  /** An unsubscribe throws the pending drafts away. */
  function Cleared(row: Row, reply: Label): Row {
    if reply == UNSUBSCRIBE then row.(drafts := DiscardPending(row.drafts)) else row
  }

  function WithDrafts(row: Row, reply: Label, h: Hints, message: nat): Row {
    if row.doNotContact then row
    else
      var drafts := AddDrafts(row.drafts, DraftKinds(reply, h), message);
      row.(drafts := drafts,
           proposal := if reply == READY_TO_BUY && |drafts| > |row.drafts| && row.proposal != Accepted then Drafted
                       else row.proposal)
  }

  /** One reply that was matched to this company. */
  function ProcessInbound(row: Row, reply: Label, providerId: string, h: Hints): Outcome {
    if Stored(row, providerId) then Duplicate
    else
      var stored := WithMessage(row, providerId, true);
      match SetStatus(stored, NextStatus(row.status, reply), false, ReplyFields(stored, reply))
      case None => Refused
      case Some(moved) =>
        Done(WithDrafts(Cleared(moved, reply), reply, h, |row.messages|))
  }

  // ---------------------------------------------------------------- runs

  datatype Event =
    | Send(kind: Kind, providerId: string, draft: Option<nat>)
    | Inbound(reply: Label, providerId: string, hints: Hints)
    | AddressRejected
    | OwnerSet(to: Status)
    | OwnerWon

  function Decide(row: Row, ev: Event): Outcome {
    match ev
    case Send(kind, providerId, draft) => ConfirmedSend(row, kind, providerId, draft)
    case Inbound(reply, providerId, h) => ProcessInbound(row, reply, providerId, h)
    case AddressRejected => Done(row.(bounced := true, cold := false))
    case OwnerSet(to) => Done(SetStatus(row, to, true, NO_FIELDS).value)
    case OwnerWon => Done(SetStatus(row, Won, true, NO_FIELDS.(proposal := Some(Accepted))).value)
  }

  /** A refused or repeated event leaves the row as it was. */
  function Step(row: Row, ev: Event): Row {
    match Decide(row, ev) case Done(r) => r case _ => row
  }

  function Run(row: Row, events: seq<Event>): Row {
    if events == [] then row else Step(Run(row, events[..|events| - 1]), events[|events| - 1])
  }

  predicate ByOwner(ev: Event) {
    ev.OwnerSet? || ev.OwnerWon?
  }
}
