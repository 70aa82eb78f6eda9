/** The event-sourced lead-to-booking ledger: what each operation appends, and what every run keeps. */
module BrightReach {
  import opened Common

  datatype Rule = Rule(field: string, accepted: seq<string>)

  datatype Client = Client(
    service: string, location: string, disqualifiers: seq<string>, rules: seq<Rule>, calendar: string)

  /** Answers keep their order of arrival. */
  datatype Lead = Lead(
    name: string, location: string, requested: string, source: string, campaign: string,
    answers: seq<(string, string)>, optedOut: bool)

  datatype Status = OptedOut | Responded | QUALIFIED | NOT_QUALIFIED | NEEDS_HUMAN_REVIEW | Booked

  datatype Reason = Disqualifier(term: string) | OutsideArea | WrongService | Missing(field: string) | FailsRule(field: string)

  datatype Event =
    | ClientCreated(clientId: string, client: Client)
    | LeadCreated(clientId: string, leadId: string, status: Status, lead: Lead)
    | ResponseReady(clientId: string, leadId: string, status: Status)
    | LeadQualified(clientId: string, leadId: string, status: Status)
    | FollowUpReady(clientId: string, leadId: string, status: Status)
    | BookingConfirmed(clientId: string, leadId: string, status: Status, calendarEvent: string)

  // ---------------------------------------------------------------- qualification

  /** Everything a disqualifying term is looked for in. */
  function Haystack(lead: Lead): string {
    Lower(Joined([lead.name, lead.location, lead.requested] + Values(lead.answers)))
  }

  function Values(answers: seq<(string, string)>): seq<string> {
    seq(|answers|, i requires 0 <= i < |answers| => answers[i].1)
  }

  function Joined(parts: seq<string>): string {
    if parts == [] then "" else if |parts| == 1 then parts[0] else parts[0] + " " + Joined(parts[1..])
  }

  /** The last answer given under a field, letter case aside; empty when there is none. */
  function Answer(answers: seq<(string, string)>, field: string): string {
    if answers == [] then ""
    else
      var last := answers[|answers| - 1];
      if Lower(last.0) == Lower(field) then last.1 else Answer(answers[..|answers| - 1], field)
  }

  predicate Accepts(rule: Rule, answer: string) {
    rule.accepted == [] || exists v <- rule.accepted :: Lower(v) == Lower(answer)
  }

  predicate Disqualified(client: Client, lead: Lead) {
    exists term <- client.disqualifiers :: Contains(Haystack(lead), Lower(term))
  }

  predicate InArea(client: Client, lead: Lead) {
    lead.location != "" && Contains(Lower(lead.location), Lower(client.location))
  }

  predicate WantsService(client: Client, lead: Lead) {
    lead.requested == "" || Lower(lead.requested) == Lower(client.service)
  }

  /** Everything a client requires before a person may book. */
  predicate Qualifies(client: Client, lead: Lead) {
    && !Disqualified(client, lead) && InArea(client, lead) && WantsService(client, lead)
    && forall rule <- client.rules :: Answer(lead.answers, rule.field) != "" && Accepts(rule, Answer(lead.answers, rule.field))
  }

  /** The verdict on a lead, from its own answers. */
  function Verdict(client: Client, lead: Lead): Status {
    if Qualifies(client, lead) then QUALIFIED
    else if Disqualified(client, lead) || !InArea(client, lead) || !WantsService(client, lead) then NOT_QUALIFIED
    else if exists rule <- client.rules :: Answer(lead.answers, rule.field) == "" then NEEDS_HUMAN_REVIEW
    else NOT_QUALIFIED
  }

  /** What speaks against a rule. */
  predicate AgainstRule(rule: Rule, lead: Lead, r: Reason) {
    var answer := Answer(lead.answers, rule.field);
    (answer == "" && r == Missing(rule.field)) || (answer != "" && !Accepts(rule, answer) && r == FailsRule(rule.field))
  }

  /** The reasons that hold against a lead: each disqualifying term, the place, the service, and each rule not met. */
  predicate Holds(client: Client, lead: Lead, r: Reason) {
    match r
    case Disqualifier(term) => term in client.disqualifiers && Contains(Haystack(lead), Lower(term))
    case OutsideArea => !InArea(client, lead)
    case WrongService => !WantsService(client, lead)
    case _ => exists rule <- client.rules :: AgainstRule(rule, lead, r)
  }

  /** The disqualifying terms that occur, in the client's order. */
  method FindDisqualifiers(client: Client, lead: Lead) returns (hits: seq<Reason>)
    ensures forall r :: r in hits <==> r.Disqualifier? && r.term in client.disqualifiers && Contains(Haystack(lead), Lower(r.term))
    ensures hits == [] <==> !Disqualified(client, lead)
  {
    hits := [];
    var terms := client.disqualifiers;
    for i := 0 to |terms|
      invariant forall r :: r in hits <==> r.Disqualifier? && r.term in terms[..i] && Contains(Haystack(lead), Lower(r.term))
    {
      assert terms[..i + 1] == terms[..i] + [terms[i]];
      if Contains(Haystack(lead), Lower(terms[i])) {
        hits := hits + [Disqualifier(terms[i])];
      }
    }
    assert terms[..|terms|] == terms;
    if hits != [] {
      assert hits[0] in hits;
    } else {
      assert forall term <- terms :: Disqualifier(term) !in hits;
    }
  }

  /** The rules that are not met, and whether one of them has no answer. */
  method CheckRules(client: Client, lead: Lead) returns (unmet: seq<Reason>, missing: bool)
    ensures forall r :: r in unmet <==> exists rule <- client.rules :: AgainstRule(rule, lead, r)
    ensures missing <==> exists rule <- client.rules :: Answer(lead.answers, rule.field) == ""
    ensures unmet == [] <==> forall rule <- client.rules ::
              Answer(lead.answers, rule.field) != "" && Accepts(rule, Answer(lead.answers, rule.field))
  {
    unmet, missing := [], false;
    for i := 0 to |client.rules|
      invariant forall r :: r in unmet <==> exists j :: 0 <= j < i && AgainstRule(client.rules[j], lead, r)
      invariant missing <==> exists j :: 0 <= j < i && Answer(lead.answers, client.rules[j].field) == ""
      invariant unmet == [] <==> forall j :: 0 <= j < i ==>
        Answer(lead.answers, client.rules[j].field) != "" && Accepts(client.rules[j], Answer(lead.answers, client.rules[j].field))
    {
      var rule := client.rules[i];
      var answer := Answer(lead.answers, rule.field);
      if answer == "" {
        unmet := unmet + [Missing(rule.field)];
        missing := true;
      } else if !Accepts(rule, answer) {
        unmet := unmet + [FailsRule(rule.field)];
      }
    }
  }

  /** Collects the reasons against a lead one by one; the status read off them is the verdict. */
  method Assess(client: Client, lead: Lead) returns (status: Status, reasons: seq<Reason>)
    ensures status == Verdict(client, lead)
    ensures reasons == [] <==> Qualifies(client, lead)
    ensures forall r :: r in reasons <==> Holds(client, lead, r)
  {
    var hits := FindDisqualifiers(client, lead);
    reasons := hits;
    var outside := !InArea(client, lead);
    if outside {
      reasons := reasons + [OutsideArea];
    }
    var wrong := !WantsService(client, lead);
    if wrong {
      reasons := reasons + [WrongService];
    }
    var unmet, missing := CheckRules(client, lead);
    reasons := reasons + unmet;
    if reasons == [] {
      status := QUALIFIED;
    } else if hits != [] || outside || wrong {
      status := NOT_QUALIFIED;
    } else if missing {
      status := NEEDS_HUMAN_REVIEW;
    } else {
      status := NOT_QUALIFIED;
    }
  }

  // ---------------------------------------------------------------- reading the ledger

  predicate About(ev: Event, leadId: string) {
    !ev.ClientCreated? && ev.leadId == leadId
  }

  /** The last creation of a client wins. */
  function FindClient(ledger: seq<Event>, clientId: string): Option<Client> {
    if ledger == [] then None
    else
      var last := ledger[|ledger| - 1];
      if last.ClientCreated? && last.clientId == clientId then Some(last.client)
      else FindClient(ledger[..|ledger| - 1], clientId)
  }

  function FindLead(ledger: seq<Event>, leadId: string): Option<Lead> {
    if ledger == [] then None
    else
      var last := ledger[|ledger| - 1];
      if last.LeadCreated? && last.leadId == leadId then Some(last.lead)
      else FindLead(ledger[..|ledger| - 1], leadId)
  }

  /** The status of a lead's last event. */
  function StatusOf(ledger: seq<Event>, leadId: string): Option<Status> {
    if ledger == [] then None
    else
      var last := ledger[|ledger| - 1];
      if About(last, leadId) then Some(last.status) else StatusOf(ledger[..|ledger| - 1], leadId)
  }

  /** The client of a lead's first event. */
  function ClientOf(ledger: seq<Event>, leadId: string): Option<string> {
    if ledger == [] then None
    else
      var n := |ledger| - 1;
      if ClientOf(ledger[..n], leadId).Some? then ClientOf(ledger[..n], leadId)
      else if About(ledger[n], leadId) then Some(ledger[n].clientId) else None
  }

  predicate Closed(s: Status) {
    s == OptedOut || s == Booked || s == NOT_QUALIFIED
  }

  // ---------------------------------------------------------------- operations

  datatype Command =
    | CreateClient(clientId: string, client: Client)
    | CreateLead(clientId: string, leadId: string, lead: Lead)
    | Qualify(leadId: string)
    | FollowUp(leadId: string)
    | RecordBooking(leadId: string, calendarEvent: string, calendar: string)

  /** What a command appends; nothing when it is refused or the lead is closed. */
  function Appended(ledger: seq<Event>, cmd: Command): seq<Event> {
    match cmd
    case CreateClient(clientId, client) => [ClientCreated(clientId, client)]
    case CreateLead(clientId, leadId, lead) =>
      if FindClient(ledger, clientId) == None then []
      else if lead.optedOut then [LeadCreated(clientId, leadId, OptedOut, lead)]
      else [LeadCreated(clientId, leadId, Responded, lead), ResponseReady(clientId, leadId, Responded)]
    case Qualify(leadId) =>
      if !Alive(ledger, leadId) then []
      else
        var clientId := ClientOf(ledger, leadId).value;
        var client, lead := FindClient(ledger, clientId), FindLead(ledger, leadId);
        if client == None then []
        else [LeadQualified(clientId, leadId, Verdict(client.value, lead.value))]
    case FollowUp(leadId) =>
      if !Alive(ledger, leadId) then []
      else [FollowUpReady(ClientOf(ledger, leadId).value, leadId, NEEDS_HUMAN_REVIEW)]
    case RecordBooking(leadId, calendarEvent, calendar) =>
      if FindLead(ledger, leadId) == None || StatusOf(ledger, leadId) != Some(QUALIFIED) || ClientOf(ledger, leadId) == None then []
      else
        var clientId := ClientOf(ledger, leadId).value;
        match FindClient(ledger, clientId)
        case None => []
        case Some(client) =>
          if client.calendar != "" && calendar != client.calendar then []
          else [BookingConfirmed(clientId, leadId, Booked, calendarEvent)]
  }

  /** The lead exists and is not closed. */
  predicate Alive(ledger: seq<Event>, leadId: string) {
    FindLead(ledger, leadId).Some? && StatusOf(ledger, leadId).Some? && !Closed(StatusOf(ledger, leadId).value)
    && ClientOf(ledger, leadId).Some?
  }
}
