/** What decides about a lead: the verdict in terms of its words and answers, and which command appends what, in terms of
    the events of the ledger. */
module BrightReachVerdicts {
  import opened Common
  import opened BrightReach

  // ---------------------------------------------------------------- the verdict

  predicate SameWord(a: string, b: string) {
    Lower(a) == Lower(b)
  }

  /** The last answer given under the field is this one; no answer counts as an empty one. */
  ghost predicate Answered(answers: seq<(string, string)>, field: string, answer: string) {
    || (answer == "" && forall i :: 0 <= i < |answers| ==> !SameWord(answers[i].0, field))
    || exists i :: 0 <= i < |answers| && SameWord(answers[i].0, field) && answers[i].1 == answer
                   && forall j :: i < j < |answers| ==> !SameWord(answers[j].0, field)
  }

  lemma {:induction false} AnswersAreLast(answers: seq<(string, string)>, field: string)
    ensures Answered(answers, field, Answer(answers, field))
  {
    if answers != [] {
      var n := |answers| - 1;
      if !SameWord(answers[n].0, field) {
        AnswersAreLast(answers[..n], field);
        assert forall i :: 0 <= i < n ==> answers[..n][i] == answers[i];
      }
    }
  }

  lemma AnsweredOnce(answers: seq<(string, string)>, field: string, a: string, b: string)
    requires Answered(answers, field, a) && Answered(answers, field, b)
    ensures a == b
  {
  }

  /** The words of a lead, each part after a space. */
  function Behind(parts: seq<string>): string {
    if parts == [] then "" else " " + parts[0] + Behind(parts[1..])
  }

  lemma {:induction false} JoinedIsBehind(first: string, rest: seq<string>)
    ensures Joined([first] + rest) == first + Behind(rest)
    decreases |rest|
  {
    if rest == [] {
      assert [first] + rest == [first];
    } else {
      JoinedIsBehind(rest[0], rest[1..]);
      assert [rest[0]] + rest[1..] == rest && ([first] + rest)[1..] == rest;
    }
  }

  /** The term occurs in the lead's name, place, wish and answers, written with spaces between, letter case aside. */
  ghost predicate Mentions(lead: Lead, term: string) {
    var words := Lower(lead.name + Behind([lead.location, lead.requested] + Values(lead.answers)));
    exists i: nat :: OccursAt(words, Lower(term), i)
  }

  lemma MentionsExactly(lead: Lead, term: string)
    ensures Mentions(lead, term) <==> Contains(Haystack(lead), Lower(term))
  {
    var rest := [lead.location, lead.requested] + Values(lead.answers);
    assert [lead.name, lead.location, lead.requested] + Values(lead.answers) == [lead.name] + rest;
    JoinedIsBehind(lead.name, rest);
    ContainsExactly(Haystack(lead), Lower(term));
  }

  /** A reason that no answer can mend: a disqualifying term, a place outside the client's area or none at all, or a wish for
      another service. */
  ghost predicate Hopeless(client: Client, lead: Lead) {
    || (exists term <- client.disqualifiers :: Mentions(lead, term))
    || lead.location == "" || !(exists i: nat :: OccursAt(Lower(lead.location), Lower(client.location), i))
    || (lead.requested != "" && !SameWord(lead.requested, client.service))
  }

  /** The rule has an answer that it does not accept. */
  ghost predicate Refuses(rule: Rule, answers: seq<(string, string)>) {
    exists answer: string :: Answered(answers, rule.field, answer) && answer != "" && rule.accepted != []
      && forall v <- rule.accepted :: !SameWord(v, answer)
  }

  /** A lead is for a person to review exactly when nothing is hopeless and an answer is missing, not qualified exactly when
      something is hopeless or every answer is there and one is refused, and qualified otherwise. */
  lemma VerdictExactly(client: Client, lead: Lead)
    ensures var hopeless := Hopeless(client, lead);
            var missing := exists rule <- client.rules :: Answered(lead.answers, rule.field, "");
            var refused := exists rule <- client.rules :: Refuses(rule, lead.answers);
            && (Verdict(client, lead) == NEEDS_HUMAN_REVIEW <==> !hopeless && missing)
            && (Verdict(client, lead) == NOT_QUALIFIED <==> hopeless || (!missing && refused))
            && (Verdict(client, lead) == QUALIFIED <==> !hopeless && !missing && !refused)
  {
    ContainsExactly(Lower(lead.location), Lower(client.location));
    forall term | term in client.disqualifiers
      ensures Mentions(lead, term) <==> Contains(Haystack(lead), Lower(term))
    {
      MentionsExactly(lead, term);
    }
    forall rule | rule in client.rules
      ensures Answered(lead.answers, rule.field, "") <==> Answer(lead.answers, rule.field) == ""
      ensures Refuses(rule, lead.answers) <==> Answer(lead.answers, rule.field) != "" && !Accepts(rule, Answer(lead.answers, rule.field))
    {
      RuleExactly(rule, lead.answers);
    }
  }

  lemma RuleExactly(rule: Rule, answers: seq<(string, string)>)
    ensures Answered(answers, rule.field, "") <==> Answer(answers, rule.field) == ""
    ensures Refuses(rule, answers) <==> Answer(answers, rule.field) != "" && !Accepts(rule, Answer(answers, rule.field))
  {
    var given := Answer(answers, rule.field);
    AnswersAreLast(answers, rule.field);
    forall answer: string | Answered(answers, rule.field, answer)
      ensures answer == given
    {
      AnsweredOnce(answers, rule.field, answer, given);
    }
  }

  // ---------------------------------------------------------------- what the ledger says

  /** The last event about the lead has this status. */
  ghost predicate HasStatus(ledger: seq<Event>, leadId: string, s: Status) {
    exists i :: 0 <= i < |ledger| && About(ledger[i], leadId) && ledger[i].status == s
                && forall j :: i < j < |ledger| ==> !About(ledger[j], leadId)
  }

  /** The first event about the lead is under this client. */
  ghost predicate Belongs(ledger: seq<Event>, leadId: string, clientId: string) {
    exists i :: 0 <= i < |ledger| && About(ledger[i], leadId) && ledger[i].clientId == clientId
                && forall j :: 0 <= j < i ==> !About(ledger[j], leadId)
  }

  /** The lead was last created so. */
  ghost predicate IsLead(ledger: seq<Event>, leadId: string, lead: Lead) {
    exists i :: 0 <= i < |ledger| && ledger[i].LeadCreated? && ledger[i].leadId == leadId && ledger[i].lead == lead
                && forall j :: i < j < |ledger| ==> !(ledger[j].LeadCreated? && ledger[j].leadId == leadId)
  }

  /** The client was last set up so. */
  ghost predicate IsClient(ledger: seq<Event>, clientId: string, client: Client) {
    exists i :: 0 <= i < |ledger| && ledger[i] == ClientCreated(clientId, client)
                && forall j :: i < j < |ledger| ==> !(ledger[j].ClientCreated? && ledger[j].clientId == clientId)
  }

  lemma {:induction false} StatusIs(ledger: seq<Event>, leadId: string, s: Status)
    requires HasStatus(ledger, leadId, s)
    ensures StatusOf(ledger, leadId) == Some(s)
  {
    var n := |ledger| - 1;
    var i :| 0 <= i < |ledger| && About(ledger[i], leadId) && ledger[i].status == s
             && forall j :: i < j < |ledger| ==> !About(ledger[j], leadId);
    if i < n {
      assert ledger[..n][i] == ledger[i] && forall j :: i < j < n ==> ledger[..n][j] == ledger[j];
      StatusIs(ledger[..n], leadId, s);
    }
  }

  lemma {:induction false} ClientIs(ledger: seq<Event>, leadId: string, clientId: string)
    requires Belongs(ledger, leadId, clientId)
    ensures ClientOf(ledger, leadId) == Some(clientId)
  {
    var n := |ledger| - 1;
    var i :| 0 <= i < |ledger| && About(ledger[i], leadId) && ledger[i].clientId == clientId
             && forall j :: 0 <= j < i ==> !About(ledger[j], leadId);
    if i < n {
      assert ledger[..n][i] == ledger[i] && forall j :: 0 <= j < i ==> ledger[..n][j] == ledger[j];
      ClientIs(ledger[..n], leadId, clientId);
    } else {
      UnknownHasNone(ledger[..n], leadId);
    }
  }

  lemma {:induction false} UnknownHasNone(ledger: seq<Event>, leadId: string)
    requires forall i :: 0 <= i < |ledger| ==> !About(ledger[i], leadId)
    ensures ClientOf(ledger, leadId) == None && StatusOf(ledger, leadId) == None && FindLead(ledger, leadId) == None
  {
    if ledger != [] {
      UnknownHasNone(ledger[..|ledger| - 1], leadId);
    }
  }

  lemma {:induction false} LeadIs(ledger: seq<Event>, leadId: string, lead: Lead)
    requires IsLead(ledger, leadId, lead)
    ensures FindLead(ledger, leadId) == Some(lead)
  {
    var n := |ledger| - 1;
    var i :| 0 <= i < |ledger| && ledger[i].LeadCreated? && ledger[i].leadId == leadId && ledger[i].lead == lead
             && forall j :: i < j < |ledger| ==> !(ledger[j].LeadCreated? && ledger[j].leadId == leadId);
    if i < n {
      assert ledger[..n][i] == ledger[i] && forall j :: i < j < n ==> ledger[..n][j] == ledger[j];
      LeadIs(ledger[..n], leadId, lead);
    }
  }

  lemma {:induction false} SetupIs(ledger: seq<Event>, clientId: string, client: Client)
    requires IsClient(ledger, clientId, client)
    ensures FindClient(ledger, clientId) == Some(client)
  {
    var n := |ledger| - 1;
    var i :| 0 <= i < |ledger| && ledger[i] == ClientCreated(clientId, client)
             && forall j :: i < j < |ledger| ==> !(ledger[j].ClientCreated? && ledger[j].clientId == clientId);
    if i < n {
      assert ledger[..n][i] == ledger[i] && forall j :: i < j < n ==> ledger[..n][j] == ledger[j];
      SetupIs(ledger[..n], clientId, client);
    }
  }

  lemma {:induction false} UnknownClient(ledger: seq<Event>, clientId: string)
    requires forall i :: 0 <= i < |ledger| ==> !(ledger[i].ClientCreated? && ledger[i].clientId == clientId)
    ensures FindClient(ledger, clientId) == None
  {
    if ledger != [] {
      UnknownClient(ledger[..|ledger| - 1], clientId);
    }
  }

  // ---------------------------------------------------------------- which command appends what

  /** For a lead of a known client: qualifying appends its verdict and a follow-up hands it to a person, unless it is closed;
      a booking is appended if and only if the lead's last status is qualified and the client names no other calendar. */
  lemma KnownLeadAppends(ledger: seq<Event>, leadId: string, clientId: string, client: Client, lead: Lead, s: Status)
    requires IsLead(ledger, leadId, lead) && Belongs(ledger, leadId, clientId)
    requires IsClient(ledger, clientId, client) && HasStatus(ledger, leadId, s)
    ensures var closed := s == OptedOut || s == Booked || s == NOT_QUALIFIED;
            && Appended(ledger, Qualify(leadId)) == (if closed then [] else [LeadQualified(clientId, leadId, Verdict(client, lead))])
            && Appended(ledger, FollowUp(leadId)) == (if closed then [] else [FollowUpReady(clientId, leadId, NEEDS_HUMAN_REVIEW)])
    ensures forall slot, calendar :: Appended(ledger, RecordBooking(leadId, slot, calendar))
              == if s == QUALIFIED && (client.calendar == "" || calendar == client.calendar)
                 then [BookingConfirmed(clientId, leadId, Booked, slot)] else []
  {
    StatusIs(ledger, leadId, s);
    ClientIs(ledger, leadId, clientId);
    LeadIs(ledger, leadId, lead);
    SetupIs(ledger, clientId, client);
  }

  /** Nothing is ever appended about a lead that no event is about. */
  lemma UnknownLeadAppends(ledger: seq<Event>, leadId: string)
    requires forall i :: 0 <= i < |ledger| ==> !About(ledger[i], leadId)
    ensures Appended(ledger, Qualify(leadId)) == [] && Appended(ledger, FollowUp(leadId)) == []
    ensures forall slot, calendar :: Appended(ledger, RecordBooking(leadId, slot, calendar)) == []
  {
    UnknownHasNone(ledger, leadId);
  }

  /** A lead is created for known clients only; one that opted out is recorded and gets no response, any other gets one. */
  lemma CreationAppends(ledger: seq<Event>, clientId: string, leadId: string, lead: Lead)
    ensures (exists client: Client :: IsClient(ledger, clientId, client)) ==>
              Appended(ledger, CreateLead(clientId, leadId, lead))
              == if lead.optedOut then [LeadCreated(clientId, leadId, OptedOut, lead)]
                 else [LeadCreated(clientId, leadId, Responded, lead), ResponseReady(clientId, leadId, Responded)]
    ensures (forall i :: 0 <= i < |ledger| ==> !(ledger[i].ClientCreated? && ledger[i].clientId == clientId)) ==>
              Appended(ledger, CreateLead(clientId, leadId, lead)) == []
  {
    if client: Client :| IsClient(ledger, clientId, client) {
      SetupIs(ledger, clientId, client);
    }
    if forall i :: 0 <= i < |ledger| ==> !(ledger[i].ClientCreated? && ledger[i].clientId == clientId) {
      UnknownClient(ledger, clientId);
    }
  }
}
