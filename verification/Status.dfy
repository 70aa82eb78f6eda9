/** The one status of a company and the transitions that replies may make. */
module Status {
  import opened Common

  datatype Status =
    | Discovered | Ready | Emailed | Replied | Interested | Qualified | MeetingRequested | ProposalNeeded | ProposalSent
    | Negotiating | Won | Lost | NotNow | DoNotContact | NeedsReview

  datatype Label =
    | INTERESTED | PRICE_QUESTION | MORE_INFORMATION | MEETING_REQUEST | READY_TO_BUY | OBJECTION | NOT_NOW | REFERRAL
    | WRONG_PERSON | NOT_INTERESTED | UNSUBSCRIBE | AUTO_REPLY | DELIVERY_FAILURE | OTHER | NEEDS_REVIEW

  /** The only statuses in which a cold sequence may run. */
  predicate PreReply(s: Status) {
    s == Discovered || s == Ready || s == Emailed
  }

  /** The place of a status in the funnel; the last four have none. */
  function Rank(s: Status): Option<nat> {
    match s
    case Discovered => Some(0)
    case Ready => Some(1)
    case Emailed => Some(2)
    case Replied => Some(3)
    case Interested => Some(4)
    case Qualified => Some(5)
    case MeetingRequested => Some(6)
    case ProposalNeeded => Some(7)
    case ProposalSent => Some(8)
    case Negotiating => Some(9)
    case Won => Some(10)
    case _ => None
  }

  /** The table of transitions. */
  predicate Allowed(from: Status, to: Status) {
    match from
    case Discovered => to in {Ready, Emailed, DoNotContact, NeedsReview, Lost}
    case Ready => to in {Emailed, DoNotContact, NeedsReview, Lost}
    case Emailed => to in {Replied, Interested, Qualified, MeetingRequested, ProposalNeeded, NotNow, Lost, DoNotContact, NeedsReview}
    case Replied => to in {Interested, Qualified, MeetingRequested, ProposalNeeded, NotNow, Lost, DoNotContact, NeedsReview, Negotiating}
    case Interested => to in {Qualified, MeetingRequested, ProposalNeeded, Negotiating, NotNow, Lost, DoNotContact, NeedsReview}
    case Qualified => to in {MeetingRequested, ProposalNeeded, Negotiating, NotNow, Lost, DoNotContact, NeedsReview}
    case MeetingRequested => to in {Qualified, ProposalNeeded, Negotiating, NotNow, Lost, DoNotContact, NeedsReview}
    case ProposalNeeded => to in {ProposalSent, Negotiating, NotNow, Lost, DoNotContact, NeedsReview}
    case ProposalSent => to in {Negotiating, Won, Lost, NotNow, DoNotContact, NeedsReview}
    case Negotiating => to in {ProposalNeeded, ProposalSent, Won, Lost, NotNow, DoNotContact, NeedsReview}
    case NotNow => to in {Replied, Interested, Qualified, MeetingRequested, ProposalNeeded, Negotiating, Lost, DoNotContact, NeedsReview}
    case Lost => to in {Replied, Interested, MeetingRequested, ProposalNeeded, DoNotContact, NeedsReview}
    case Won => to in {DoNotContact, NeedsReview}
    case DoNotContact => false
    case NeedsReview => to != NeedsReview
  }

  /** Where a label points; None leaves the status alone. */
  function Target(reply: Label): Option<Status> {
    match reply
    case INTERESTED => Some(Interested)
    case PRICE_QUESTION => Some(Interested)
    case MORE_INFORMATION => Some(Interested)
    case MEETING_REQUEST => Some(MeetingRequested)
    case READY_TO_BUY => Some(ProposalNeeded)
    case OBJECTION => Some(Negotiating)
    case NOT_NOW => Some(NotNow)
    case REFERRAL => Some(Replied)
    case WRONG_PERSON => Some(Replied)
    case NOT_INTERESTED => Some(Lost)
    case UNSUBSCRIBE => Some(DoNotContact)
    case AUTO_REPLY => None
    case DELIVERY_FAILURE => None
    case OTHER => Some(Replied)
    case NEEDS_REVIEW => Some(NeedsReview)
  }

  /** Whether the transition check passes. */
  predicate Legal(from: Status, to: Status, ownerOverride: bool) {
    from == to || ownerOverride || Allowed(from, to)
  }

  /** Where a classified reply moves a company: always the current status or one it may move to, never one lower
      in the funnel, never one before the first reply, never out of do-not-contact; an unsubscribe always ends there. */
  function TargetFor(reply: Label, current: Status): (t: Status)
    ensures Legal(current, t, false)
    ensures Rank(current).Some? && Rank(t).Some? ==> Rank(t).value >= Rank(current).value
    ensures PreReply(t) ==> t == current
    ensures current == DoNotContact || reply == UNSUBSCRIBE ==> t == DoNotContact
  {
    if current == DoNotContact || Target(reply) == None then current
    else
      var pointed := Target(reply).value;
      var softened :=
        if reply == OBJECTION && PreReply(current) then Replied
        else if reply == OBJECTION && current == Replied then current
        else pointed;
      var target := if reply == READY_TO_BUY && (current == ProposalSent || current == Negotiating) then Negotiating else softened;
      if Rank(target).Some? && Rank(current).Some? && Rank(target).value < Rank(current).value then current
      else if current == Won && target != DoNotContact && target != NeedsReview then current
      else if current == NeedsReview && target != DoNotContact then target
      else if Allowed(current, target) || target == current then target
      else current
  }

  /** The label's own target is lower in the funnel than the current status. */
  predicate Lowers(reply: Label, current: Status) {
    Target(reply).Some? && Rank(Target(reply).value).Some? && Rank(current).Some?
    && Rank(Target(reply).value).value < Rank(current).value
  }

  /** A reply moves the company to where its label points whenever the table allows that and it is no step down; an
      objection right after the first reply is the one exception. Of all other replies only two move the company:
      an objection to the first email counts as a reply, and a sale during a sent proposal opens the negotiation. */
  function Moved(reply: Label, current: Status): Status {
    if current == DoNotContact || Target(reply) == None then current
    else if Allowed(current, Target(reply).value) && !Lowers(reply, current) && !(reply == OBJECTION && current == Replied)
    then Target(reply).value
    else if reply == OBJECTION && current == Emailed then Replied
    else if reply == READY_TO_BUY && current == ProposalSent then Negotiating
    else current
  }

  /** The branches of the code come to exactly that. */
  lemma TargetForMoves(reply: Label, current: Status)
    ensures TargetFor(reply, current) == Moved(reply, current)
  {
    if reply == OBJECTION {
      ObjectionMoves(current);
    } else if reply == READY_TO_BUY {
      SaleMoves(current);
    } else if reply == NOT_NOW {
      PostponedMoves(current);
    } else if reply == NOT_INTERESTED {
      RefusalMoves(current);
    } else if reply == UNSUBSCRIBE {
      UnsubscribeMoves(current);
    } else if reply == NEEDS_REVIEW {
      ReviewMoves(current);
    } else if reply in {INTERESTED, PRICE_QUESTION, MORE_INFORMATION, MEETING_REQUEST} {
      ForwardMoves(reply, current);
    } else {
      OrdinaryMoves(reply, current);
    }
  }

  lemma ObjectionMoves(current: Status)
    ensures TargetFor(OBJECTION, current) == Moved(OBJECTION, current)
  {
    if !PreReply(current) && current != Replied {
      LateObjectionMoves(current);
    }
  }

  lemma LateObjectionMoves(current: Status)
    requires !PreReply(current) && current != Replied
    ensures TargetFor(OBJECTION, current) == Moved(OBJECTION, current)
  {
  }

  lemma SaleMoves(current: Status)
    ensures TargetFor(READY_TO_BUY, current) == Moved(READY_TO_BUY, current)
  {
  }

  lemma PostponedMoves(current: Status)
    ensures TargetFor(NOT_NOW, current) == Moved(NOT_NOW, current)
  {
  }

  lemma RefusalMoves(current: Status)
    ensures TargetFor(NOT_INTERESTED, current) == Moved(NOT_INTERESTED, current)
  {
  }

  lemma UnsubscribeMoves(current: Status)
    ensures TargetFor(UNSUBSCRIBE, current) == Moved(UNSUBSCRIBE, current)
  {
  }

  lemma ReviewMoves(current: Status)
    ensures TargetFor(NEEDS_REVIEW, current) == Moved(NEEDS_REVIEW, current)
  {
  }

  lemma ForwardMoves(reply: Label, current: Status)
    requires reply == INTERESTED || reply == PRICE_QUESTION || reply == MORE_INFORMATION || reply == MEETING_REQUEST
    ensures TargetFor(reply, current) == Moved(reply, current)
  {
  }

  lemma OrdinaryMoves(reply: Label, current: Status)
    requires Target(reply) == Some(Replied) || Target(reply) == None
    ensures TargetFor(reply, current) == Moved(reply, current)
  {
    match reply {
      case REFERRAL => ReferralMoves(current);
      case WRONG_PERSON => WrongPersonMoves(current);
      case OTHER => OtherMoves(current);
      case AUTO_REPLY =>
      case DELIVERY_FAILURE =>
    }
  }

  lemma ReferralMoves(current: Status)
    ensures TargetFor(REFERRAL, current) == Moved(REFERRAL, current)
  {
  }

  lemma WrongPersonMoves(current: Status)
    ensures TargetFor(WRONG_PERSON, current) == Moved(WRONG_PERSON, current)
  {
  }

  lemma OtherMoves(current: Status)
    ensures TargetFor(OTHER, current) == Moved(OTHER, current)
  {
  }

  // ---------------------------------------------------------------- closed companies

  predicate Closed(s: Status) {
    s == Won || s == Lost || s == DoNotContact
  }

  /** A reply changes a closed status exactly when it stops or questions a won deal, or answers a lost one with anything
      but an objection, a refusal, a postponement or an automatic mail. */
  lemma ClosedMovesExactly(reply: Label, current: Status)
    requires Closed(current)
    ensures TargetFor(reply, current) != current
       <==> || (current == Won && reply in {UNSUBSCRIBE, NEEDS_REVIEW})
            || (current == Lost && reply !in {OBJECTION, NOT_NOW, NOT_INTERESTED, AUTO_REPLY, DELIVERY_FAILURE})
  {
    TargetForMoves(reply, current);
  }

  /** And it opens a closed company again exactly when it questions a won deal, or answers a lost one so without
      unsubscribing. */
  lemma ClosedOpensExactly(reply: Label, current: Status)
    requires Closed(current)
    ensures !Closed(TargetFor(reply, current))
       <==> || (current == Won && reply == NEEDS_REVIEW)
            || (current == Lost && reply !in {OBJECTION, NOT_NOW, NOT_INTERESTED, AUTO_REPLY, DELIVERY_FAILURE, UNSUBSCRIBE})
  {
    TargetForMoves(reply, current);
  }

  /** An unclear reply takes a won company out of the terminal statuses, and an interested one a lost company. */
  lemma WonAndLostAreLeft()
    ensures TargetFor(NEEDS_REVIEW, Won) == NeedsReview && TargetFor(INTERESTED, Lost) == Interested
  {
  }

  // ---------------------------------------------------------------- the tables read the other way

  /** The statuses of the funnel, in order. */
  const FUNNEL := [Discovered, Ready, Emailed, Replied, Interested, Qualified, MeetingRequested, ProposalNeeded,
                   ProposalSent, Negotiating, Won]

  lemma RanksAreTheFunnel(s: Status, i: nat)
    ensures Rank(s) == Some(i) <==> i < |FUNNEL| && FUNNEL[i] == s
  {
  }

  /** From where each status can be reached without the owner. */
  lemma AllowedInto(from: Status, to: Status)
    ensures var beforeReply := {Discovered, Ready, Emailed};
            var talking := {Replied, Interested, Qualified, MeetingRequested, ProposalNeeded, ProposalSent, Negotiating};
            Allowed(from, to) <==> from in (match to
              case Discovered => {NeedsReview}
              case Ready => {Discovered, NeedsReview}
              case Emailed => {Discovered, Ready, NeedsReview}
              case Replied => {Emailed, NotNow, Lost, NeedsReview}
              case Interested => {Emailed, Replied, NotNow, Lost, NeedsReview}
              case Qualified => {Emailed, Replied, Interested, MeetingRequested, NotNow, NeedsReview}
              case MeetingRequested => {Emailed, Replied, Interested, Qualified, NotNow, Lost, NeedsReview}
              case ProposalNeeded => {Emailed, Replied, Interested, Qualified, MeetingRequested, Negotiating, NotNow, Lost, NeedsReview}
              case ProposalSent => {ProposalNeeded, Negotiating, NeedsReview}
              case Negotiating => talking - {Negotiating} + {NotNow, NeedsReview}
              case Won => {ProposalSent, Negotiating, NeedsReview}
              case Lost => beforeReply + talking + {NotNow, NeedsReview}
              case NotNow => talking + {Emailed, NeedsReview}
              case DoNotContact => beforeReply + talking + {Won, Lost, NotNow, NeedsReview}
              case NeedsReview => beforeReply + talking + {Won, Lost, NotNow})
  {
    match to {
      case Lost => match from { case _ => }
      case _ => match from { case _ => }
    }
  }

  /** Which labels point at each status; the two automatic ones point nowhere. */
  lemma LabelsPointingAt(reply: Label, s: Status)
    ensures Target(reply) == Some(s) <==> reply in (match s
              case Interested => {INTERESTED, PRICE_QUESTION, MORE_INFORMATION}
              case MeetingRequested => {MEETING_REQUEST}
              case ProposalNeeded => {READY_TO_BUY}
              case Negotiating => {OBJECTION}
              case NotNow => {NOT_NOW}
              case Replied => {REFERRAL, WRONG_PERSON, OTHER}
              case Lost => {NOT_INTERESTED}
              case DoNotContact => {UNSUBSCRIBE}
              case NeedsReview => {NEEDS_REVIEW}
              case _ => {})
    ensures Target(reply) == None <==> reply in {AUTO_REPLY, DELIVERY_FAILURE}
  {
  }
}
