/** What every sequential run of the lead-to-booking service keeps, and what its report adds up to. */
module BrightReachRuns {
  import opened Common
  import opened BrightReach

  // ---------------------------------------------------------------- runs

  /** Identifiers are made fresh when a client or lead is created. */
  predicate FreshIds(ledger: seq<Event>, cmd: Command) {
    match cmd
    case CreateClient(clientId, _) => FindClient(ledger, clientId) == None
    case CreateLead(_, leadId, _) => StatusOf(ledger, leadId) == None
    case _ => true
  }

  function Ledger(cmds: seq<Command>): seq<Event> {
    if cmds == [] then []
    else
      var before := Ledger(cmds[..|cmds| - 1]);
      before + Appended(before, cmds[|cmds| - 1])
  }

  predicate FreshRun(cmds: seq<Command>) {
    cmds == [] || (FreshRun(cmds[..|cmds| - 1]) && FreshIds(Ledger(cmds[..|cmds| - 1]), cmds[|cmds| - 1]))
  }

  // ---------------------------------------------------------------- counting events

  function Bookings(ledger: seq<Event>, leadId: string): nat {
    if ledger == [] then 0
    else
      var last := ledger[|ledger| - 1];
      Bookings(ledger[..|ledger| - 1], leadId) + if last.BookingConfirmed? && last.leadId == leadId then 1 else 0
  }

  function Creations(ledger: seq<Event>, leadId: string): nat {
    if ledger == [] then 0
    else
      var last := ledger[|ledger| - 1];
      Creations(ledger[..|ledger| - 1], leadId) + if last.LeadCreated? && last.leadId == leadId then 1 else 0
  }

  /** Texts prepared for a lead: the instant response and the follow-ups. */
  function Outreach(ledger: seq<Event>, leadId: string): nat {
    if ledger == [] then 0
    else
      var last := ledger[|ledger| - 1];
      Outreach(ledger[..|ledger| - 1], leadId)
      + if (last.ResponseReady? || last.FollowUpReady?) && last.leadId == leadId then 1 else 0
  }

  // ---------------------------------------------------------------- the account of one lead

  /** A lead without events is unknown; a known lead has exactly one creation, its client exists, it is marked opted
      out from the start or never, a qualified or booked one meets every requirement of its client, it is booked
      exactly once when its status says so, and an opted-out one has received nothing. */
  ghost predicate Account(ledger: seq<Event>, leadId: string) {
    var status, lead, clientId := StatusOf(ledger, leadId), FindLead(ledger, leadId), ClientOf(ledger, leadId);
    if status == None then
      && lead == None && clientId == None
      && Bookings(ledger, leadId) == 0 && Creations(ledger, leadId) == 0 && Outreach(ledger, leadId) == 0
    else
      && lead.Some? && clientId.Some? && FindClient(ledger, clientId.value).Some?
      && Creations(ledger, leadId) == 1
      && (lead.value.optedOut <==> status == Some(OptedOut))
      && (status == Some(QUALIFIED) || status == Some(Booked) ==>
            Qualifies(FindClient(ledger, clientId.value).value, lead.value))
      && Bookings(ledger, leadId) == (if status == Some(Booked) then 1 else 0)
      && (status == Some(OptedOut) ==> Outreach(ledger, leadId) == 0)
  }

  ghost predicate Sound(ledger: seq<Event>) {
    forall leadId :: Account(ledger, leadId)
  }

  /** The single events that operations append. */
  ghost predicate Appendable(ledger: seq<Event>, ev: Event) {
    match ev
    case ClientCreated(clientId, _) => FindClient(ledger, clientId) == None
    case LeadCreated(clientId, leadId, status, lead) =>
      StatusOf(ledger, leadId) == None && FindClient(ledger, clientId).Some?
      && status == if lead.optedOut then OptedOut else Responded
    case ResponseReady(clientId, leadId, status) =>
      StatusOf(ledger, leadId) == Some(Responded) && ClientOf(ledger, leadId) == Some(clientId) && status == Responded
    case LeadQualified(clientId, leadId, status) =>
      Alive(ledger, leadId) && ClientOf(ledger, leadId) == Some(clientId)
      && FindClient(ledger, clientId).Some?
      && status == Verdict(FindClient(ledger, clientId).value, FindLead(ledger, leadId).value)
    case FollowUpReady(clientId, leadId, status) =>
      Alive(ledger, leadId) && ClientOf(ledger, leadId) == Some(clientId) && status == NEEDS_HUMAN_REVIEW
    case BookingConfirmed(clientId, leadId, status, _) =>
      StatusOf(ledger, leadId) == Some(QUALIFIED) && ClientOf(ledger, leadId) == Some(clientId) && status == Booked
  }

  /** Reading a ledger that is one event longer. */
  lemma ReadSnoc(ledger: seq<Event>, ev: Event, leadId: string)
    ensures var longer := ledger + [ev];
            && StatusOf(longer, leadId) == (if About(ev, leadId) then Some(ev.status) else StatusOf(ledger, leadId))
            && FindLead(longer, leadId) == (if ev.LeadCreated? && ev.leadId == leadId then Some(ev.lead) else FindLead(ledger, leadId))
            && ClientOf(longer, leadId) == (if ClientOf(ledger, leadId) == None && About(ev, leadId) then Some(ev.clientId)
                                            else ClientOf(ledger, leadId))
            && Bookings(longer, leadId) == Bookings(ledger, leadId) + (if ev.BookingConfirmed? && ev.leadId == leadId then 1 else 0)
            && Creations(longer, leadId) == Creations(ledger, leadId) + (if ev.LeadCreated? && ev.leadId == leadId then 1 else 0)
            && Outreach(longer, leadId) == Outreach(ledger, leadId)
               + (if (ev.ResponseReady? || ev.FollowUpReady?) && ev.leadId == leadId then 1 else 0)
  {
    assert (ledger + [ev])[..|ledger|] == ledger;
  }

  lemma ClientSnoc(ledger: seq<Event>, ev: Event, clientId: string)
    ensures FindClient(ledger + [ev], clientId)
         == if ev.ClientCreated? && ev.clientId == clientId then Some(ev.client) else FindClient(ledger, clientId)
  {
    assert (ledger + [ev])[..|ledger|] == ledger;
  }

  lemma AccountSnoc(ledger: seq<Event>, ev: Event, leadId: string)
    requires Account(ledger, leadId) && Appendable(ledger, ev)
    ensures Account(ledger + [ev], leadId)
  {
    ReadSnoc(ledger, ev, leadId);
    if ClientOf(ledger + [ev], leadId).Some? {
      ClientSnoc(ledger, ev, ClientOf(ledger + [ev], leadId).value);
    }
  }

  ghost predicate AllAppendable(ledger: seq<Event>, evs: seq<Event>) {
    evs == [] || (AllAppendable(ledger, evs[..|evs| - 1]) && Appendable(ledger + evs[..|evs| - 1], evs[|evs| - 1]))
  }

  lemma {:induction false} SoundAppend(ledger: seq<Event>, evs: seq<Event>)
    requires Sound(ledger) && AllAppendable(ledger, evs)
    ensures Sound(ledger + evs)
  {
    if evs == [] {
      assert ledger + evs == ledger;
    } else {
      var n := |evs| - 1;
      SoundAppend(ledger, evs[..n]);
      assert ledger + evs == ledger + evs[..n] + [evs[n]];
      forall leadId {
        AccountSnoc(ledger + evs[..n], evs[n], leadId);
      }
    }
  }

  lemma OneAppendable(ledger: seq<Event>, ev: Event)
    requires Appendable(ledger, ev)
    ensures AllAppendable(ledger, [ev])
  {
    assert [ev][..0] == [] && ledger + [] == ledger;
  }

  lemma CommandAppends(ledger: seq<Event>, cmd: Command)
    requires Sound(ledger) && FreshIds(ledger, cmd)
    ensures AllAppendable(ledger, Appended(ledger, cmd))
  {
    var evs := Appended(ledger, cmd);
    if |evs| == 1 {
      if !cmd.CreateClient? {
        assert Account(ledger, cmd.leadId);
      }
      OneAppendable(ledger, evs[0]);
      assert evs == [evs[0]];
    } else if |evs| == 2 {
      OneAppendable(ledger, evs[0]);
      assert Account(ledger, cmd.leadId);
      ReadSnoc(ledger, evs[0], cmd.leadId);
      assert evs[..1] == [evs[0]];
    }
  }

  /** Over every run: each account is in order. In particular a booked lead meets its client's full requirements and was
      booked exactly once, and a lead that opted out never received a response or follow-up. */
  lemma {:induction false} SoundOverRuns(cmds: seq<Command>)
    requires FreshRun(cmds)
    ensures Sound(Ledger(cmds))
  {
    if cmds != [] {
      var before := Ledger(cmds[..|cmds| - 1]);
      SoundOverRuns(cmds[..|cmds| - 1]);
      CommandAppends(before, cmds[|cmds| - 1]);
      SoundAppend(before, Appended(before, cmds[|cmds| - 1]));
    }
  }

  // ---------------------------------------------------------------- closed leads

  lemma {:induction false} Untouched(ledger: seq<Event>, evs: seq<Event>, leadId: string)
    requires forall ev <- evs :: !About(ev, leadId)
    ensures StatusOf(ledger + evs, leadId) == StatusOf(ledger, leadId)
    ensures Outreach(ledger + evs, leadId) == Outreach(ledger, leadId)
    ensures Bookings(ledger + evs, leadId) == Bookings(ledger, leadId)
  {
    if evs == [] {
      assert ledger + evs == ledger;
    } else {
      var n := |evs| - 1;
      Untouched(ledger, evs[..n], leadId);
      assert ledger + evs == ledger + evs[..n] + [evs[n]];
      ReadSnoc(ledger + evs[..n], evs[n], leadId);
    }
  }

  lemma ClosedAppendsNothing(ledger: seq<Event>, cmd: Command, leadId: string)
    requires FreshIds(ledger, cmd)
    requires StatusOf(ledger, leadId).Some? && Closed(StatusOf(ledger, leadId).value)
    ensures forall ev <- Appended(ledger, cmd) :: !About(ev, leadId)
  {
  }

  /** The later ledger extends the earlier one by events that are not about the lead. */
  ghost predicate SilentSince(ledger: seq<Event>, later: seq<Event>, leadId: string) {
    ledger <= later && forall i :: |ledger| <= i < |later| ==> !About(later[i], leadId)
  }

  lemma SilentKeeps(ledger: seq<Event>, later: seq<Event>, leadId: string)
    requires SilentSince(ledger, later, leadId)
    ensures StatusOf(later, leadId) == StatusOf(ledger, leadId) && Outreach(later, leadId) == Outreach(ledger, leadId)
    ensures Bookings(later, leadId) == Bookings(ledger, leadId)
  {
    var evs := later[|ledger|..];
    assert later == ledger + evs;
    assert forall i :: 0 <= i < |evs| ==> evs[i] == later[|ledger| + i];
    Untouched(ledger, evs, leadId);
  }

  lemma ClosedStep(ledger: seq<Event>, cmd: Command, leadId: string)
    requires FreshIds(ledger, cmd)
    requires StatusOf(ledger, leadId).Some? && Closed(StatusOf(ledger, leadId).value)
    ensures SilentSince(ledger, ledger + Appended(ledger, cmd), leadId)
  {
    ClosedAppendsNothing(ledger, cmd, leadId);
    assert forall i :: 0 <= i < |Appended(ledger, cmd)| ==> Appended(ledger, cmd)[i] in Appended(ledger, cmd);
  }

  /** Opted out, booked and not qualified are final: whatever commands follow the first `n`, no later event of the ledger is
      about the lead, so its status, its bookings and its outreach stay as they were. */
  lemma {:induction false} ClosedIsFinal(cmds: seq<Command>, n: nat, leadId: string)
    requires n <= |cmds| && FreshRun(cmds)
    requires StatusOf(Ledger(cmds[..n]), leadId).Some? && Closed(StatusOf(Ledger(cmds[..n]), leadId).value)
    ensures SilentSince(Ledger(cmds[..n]), Ledger(cmds), leadId)
    ensures StatusOf(Ledger(cmds), leadId) == StatusOf(Ledger(cmds[..n]), leadId)
  {
    if n == |cmds| {
      assert cmds[..n] == cmds;
    } else {
      var shorter := cmds[..|cmds| - 1];
      assert shorter[..n] == cmds[..n];
      ClosedIsFinal(shorter, n, leadId);
      ClosedStep(Ledger(shorter), cmds[|cmds| - 1], leadId);
      SilentTwice(Ledger(cmds[..n]), Ledger(shorter), Ledger(cmds), leadId);
      SilentKeeps(Ledger(cmds[..n]), Ledger(cmds), leadId);
    }
  }

  lemma SilentTwice(ledger: seq<Event>, later: seq<Event>, latest: seq<Event>, leadId: string)
    requires SilentSince(ledger, later, leadId) && SilentSince(later, latest, leadId)
    ensures SilentSince(ledger, latest, leadId)
  {
    assert forall i :: 0 <= i < |later| ==> latest[i] == later[i];
  }

  // ---------------------------------------------------------------- the report

  predicate LeadOf(ev: Event, clientId: string) {
    ev.LeadCreated? && ev.clientId == clientId
  }

  /** The leads of a client among `evs`. */
  function Leads(evs: seq<Event>, clientId: string): nat {
    if evs == [] then 0
    else Leads(evs[..|evs| - 1], clientId) + if LeadOf(evs[|evs| - 1], clientId) then 1 else 0
  }

  /** Those whose status in the whole ledger is booked. */
  function BookedLeads(evs: seq<Event>, ledger: seq<Event>, clientId: string): nat {
    if evs == [] then 0
    else
      var last := evs[|evs| - 1];
      BookedLeads(evs[..|evs| - 1], ledger, clientId)
      + if LeadOf(last, clientId) && StatusOf(ledger, last.leadId) == Some(Booked) then 1 else 0
  }

  /** The booking events of a client. */
  function ClientBookings(ledger: seq<Event>, clientId: string): nat {
    if ledger == [] then 0
    else
      var last := ledger[|ledger| - 1];
      ClientBookings(ledger[..|ledger| - 1], clientId) + if last.BookingConfirmed? && last.clientId == clientId then 1 else 0
  }

  /** Creations of one lead under one client. */
  function CreationsFor(evs: seq<Event>, leadId: string, clientId: string): nat {
    if evs == [] then 0
    else
      var last := evs[|evs| - 1];
      CreationsFor(evs[..|evs| - 1], leadId, clientId) + if LeadOf(last, clientId) && last.leadId == leadId then 1 else 0
  }

  /** A booking turns every creation of its lead, and no other, into a booked one. */
  lemma {:induction false} BookingCounts(evs: seq<Event>, ledger: seq<Event>, ev: Event, clientId: string)
    requires ev.BookingConfirmed? && ev.status == Booked && StatusOf(ledger, ev.leadId) != Some(Booked)
    ensures BookedLeads(evs, ledger + [ev], clientId) == BookedLeads(evs, ledger, clientId) + CreationsFor(evs, ev.leadId, clientId)
  {
    if evs != [] {
      var last := evs[|evs| - 1];
      BookingCounts(evs[..|evs| - 1], ledger, ev, clientId);
      if last.LeadCreated? {
        ReadSnoc(ledger, ev, last.leadId);
      }
    }
  }

  /** Any other event leaves the booked leads as they were. */
  lemma {:induction false} OthersDoNotCount(evs: seq<Event>, ledger: seq<Event>, ev: Event, clientId: string)
    requires !ev.ClientCreated? ==> ev.status != Booked && StatusOf(ledger, ev.leadId) != Some(Booked)
    ensures BookedLeads(evs, ledger + [ev], clientId) == BookedLeads(evs, ledger, clientId)
  {
    if evs != [] {
      var last := evs[|evs| - 1];
      OthersDoNotCount(evs[..|evs| - 1], ledger, ev, clientId);
      if last.LeadCreated? {
        ReadSnoc(ledger, ev, last.leadId);
      }
    }
  }

  /** A lead is created once, under its own client. */
  lemma {:induction false} CreatedUnderOwnClient(ledger: seq<Event>, leadId: string, clientId: string)
    requires AllAppendable([], ledger)
    ensures CreationsFor(ledger, leadId, clientId)
         == if ClientOf(ledger, leadId) == Some(clientId) then Creations(ledger, leadId) else 0
  {
    if ledger != [] {
      var n := |ledger| - 1;
      CreatedUnderOwnClient(ledger[..n], leadId, clientId);
      SoundAppendFromEmpty(ledger[..n]);
      assert [] + ledger[..n] == ledger[..n];
      assert Account(ledger[..n], leadId);
    }
  }

  lemma EmptySound()
    ensures Sound([])
  {
  }

  lemma SoundAppendFromEmpty(ledger: seq<Event>)
    requires AllAppendable([], ledger)
    ensures Sound(ledger)
  {
    EmptySound();
    SoundAppend([], ledger);
    assert [] + ledger == ledger;
  }

  /** In every ledger built from such events, the booked leads of a client are as many as its booking events. */
  lemma {:induction false} BookedMatchesBookings(ledger: seq<Event>, clientId: string)
    requires AllAppendable([], ledger)
    ensures BookedLeads(ledger, ledger, clientId) == ClientBookings(ledger, clientId)
  {
    if ledger != [] {
      var n := |ledger| - 1;
      var before, ev := ledger[..n], ledger[n];
      BookedMatchesBookings(before, clientId);
      SoundAppendFromEmpty(before);
      assert [] + before == before && ledger == before + [ev];
      if !ev.ClientCreated? {
        assert Account(before, ev.leadId);
        ReadSnoc(before, ev, ev.leadId);
      }
      if ev.BookingConfirmed? {
        BookingCounts(before, before, ev, clientId);
        CreatedUnderOwnClient(before, ev.leadId, clientId);
      } else {
        OthersDoNotCount(before, before, ev, clientId);
      }
    }
  }

  lemma {:induction false} AppendableConcat(ledger: seq<Event>, evs: seq<Event>)
    requires AllAppendable([], ledger) && AllAppendable(ledger, evs)
    ensures AllAppendable([], ledger + evs)
  {
    if evs == [] {
      assert ledger + evs == ledger;
    } else {
      var n := |evs| - 1;
      AppendableConcat(ledger, evs[..n]);
      assert (ledger + evs)[..|ledger + evs| - 1] == ledger + evs[..n];
      assert [] + (ledger + evs[..n]) == ledger + evs[..n];
    }
  }

  lemma {:induction false} RunIsAppendable(cmds: seq<Command>)
    requires FreshRun(cmds)
    ensures AllAppendable([], Ledger(cmds))
  {
    if cmds != [] {
      var before := Ledger(cmds[..|cmds| - 1]);
      RunIsAppendable(cmds[..|cmds| - 1]);
      SoundOverRuns(cmds[..|cmds| - 1]);
      CommandAppends(before, cmds[|cmds| - 1]);
      AppendableConcat(before, Appended(before, cmds[|cmds| - 1]));
    }
  }

  datatype Report = Report(leads: nat, bookings: nat, byStatus: multiset<Status>, bySource: multiset<string>, byCampaign: multiset<string>)

  lemma {:induction false} HasStatus(ledger: seq<Event>, i: nat)
    requires i < |ledger| && ledger[i].LeadCreated?
    ensures StatusOf(ledger, ledger[i].leadId).Some?
  {
    if i < |ledger| - 1 {
      HasStatus(ledger[..|ledger| - 1], i);
    }
  }

  /** The leads of a client that a report counts under one heading. */
  function LeadsWhere(evs: seq<Event>, clientId: string, heading: (string, Lead) -> bool): nat {
    if evs == [] then 0
    else
      var last := evs[|evs| - 1];
      LeadsWhere(evs[..|evs| - 1], clientId, heading) + if LeadOf(last, clientId) && heading(last.leadId, last.lead) then 1 else 0
  }

  function CampaignOf(lead: Lead): string {
    if lead.campaign == "" then "unknown" else lead.campaign
  }

  /** What a report must say: its three breakdowns each add up to the client's leads, every status, source and campaign
      is counted as often as leads have it, and its bookings are both the booked leads and the booking events recorded
      for the client. */
  ghost predicate AddsUp(r: Report, ledger: seq<Event>, clientId: string) {
    && r.leads == Leads(ledger, clientId) == |r.byStatus| == |r.bySource| == |r.byCampaign|
    && r.bookings == r.byStatus[Booked] == ClientBookings(ledger, clientId)
    && Broken(r, ledger, ledger, clientId)
  }

  ghost predicate Broken(r: Report, evs: seq<Event>, ledger: seq<Event>, clientId: string) {
    && (forall status :: r.byStatus[status] == LeadsWhere(evs, clientId, (id: string, l: Lead) => StatusOf(ledger, id) == Some(status)))
    && (forall source :: r.bySource[source] == LeadsWhere(evs, clientId, (id: string, l: Lead) => l.source == source))
    && (forall campaign :: r.byCampaign[campaign] == LeadsWhere(evs, clientId, (id: string, l: Lead) => CampaignOf(l) == campaign))
  }

  /** The report with one more lead counted. */
  function Counted(r: Report, lead: Lead, status: Status): Report {
    Report(r.leads + 1, r.bookings + if status == Booked then 1 else 0, r.byStatus + multiset{status},
           r.bySource + multiset{lead.source}, r.byCampaign + multiset{CampaignOf(lead)})
  }

  lemma WhereSnoc(evs: seq<Event>, ev: Event, clientId: string, heading: (string, Lead) -> bool)
    ensures LeadsWhere(evs + [ev], clientId, heading)
         == LeadsWhere(evs, clientId, heading) + if LeadOf(ev, clientId) && heading(ev.leadId, ev.lead) then 1 else 0
  {
    assert (evs + [ev])[..|evs|] == evs;
  }

  lemma BrokenNext(r: Report, evs: seq<Event>, ev: Event, ledger: seq<Event>, clientId: string, status: Status)
    requires Broken(r, evs, ledger, clientId) && (LeadOf(ev, clientId) ==> StatusOf(ledger, ev.leadId) == Some(status))
    ensures Broken(if LeadOf(ev, clientId) then Counted(r, ev.lead, status) else r, evs + [ev], ledger, clientId)
  {
    var next := if LeadOf(ev, clientId) then Counted(r, ev.lead, status) else r;
    forall st
      ensures next.byStatus[st] == LeadsWhere(evs + [ev], clientId, (id: string, l: Lead) => StatusOf(ledger, id) == Some(st))
    {
      WhereSnoc(evs, ev, clientId, (id: string, l: Lead) => StatusOf(ledger, id) == Some(st));
    }
    forall source
      ensures next.bySource[source] == LeadsWhere(evs + [ev], clientId, (id: string, l: Lead) => l.source == source)
    {
      WhereSnoc(evs, ev, clientId, (id: string, l: Lead) => l.source == source);
    }
    forall campaign
      ensures next.byCampaign[campaign] == LeadsWhere(evs + [ev], clientId, (id: string, l: Lead) => CampaignOf(l) == campaign)
    {
      WhereSnoc(evs, ev, clientId, (id: string, l: Lead) => CampaignOf(l) == campaign);
    }
  }

  /** The leads among the first events are counted. */
  ghost predicate CountedTo(r: Report, evs: seq<Event>, ledger: seq<Event>, clientId: string) {
    Totals(r, evs, ledger, clientId) && Broken(r, evs, ledger, clientId)
  }

  ghost predicate Totals(r: Report, evs: seq<Event>, ledger: seq<Event>, clientId: string) {
    && r.leads == Leads(evs, clientId) && r.bookings == BookedLeads(evs, ledger, clientId)
    && |r.byStatus| == |r.bySource| == |r.byCampaign| == r.leads && r.byStatus[Booked] == r.bookings
  }

  lemma TotalsNext(r: Report, evs: seq<Event>, ev: Event, ledger: seq<Event>, clientId: string, status: Status)
    requires Totals(r, evs, ledger, clientId) && (LeadOf(ev, clientId) ==> StatusOf(ledger, ev.leadId) == Some(status))
    ensures Totals(if LeadOf(ev, clientId) then Counted(r, ev.lead, status) else r, evs + [ev], ledger, clientId)
  {
    assert (evs + [ev])[..|evs|] == evs;
  }

  lemma CountedNext(r: Report, ledger: seq<Event>, i: nat, clientId: string, status: Status)
    requires i < |ledger| && CountedTo(r, ledger[..i], ledger, clientId)
    requires LeadOf(ledger[i], clientId) ==> StatusOf(ledger, ledger[i].leadId) == Some(status)
    ensures CountedTo(if LeadOf(ledger[i], clientId) then Counted(r, ledger[i].lead, status) else r,
                      ledger[..i + 1], ledger, clientId)
  {
    assert ledger[..i + 1] == ledger[..i] + [ledger[i]];
    TotalsNext(r, ledger[..i], ledger[i], ledger, clientId, status);
    BrokenNext(r, ledger[..i], ledger[i], ledger, clientId, status);
  }

  lemma NothingCounted(ledger: seq<Event>, clientId: string)
    ensures CountedTo(Report(0, 0, multiset{}, multiset{}, multiset{}), [], ledger, clientId)
  {
  }

  /** The events of a new lead, and the status they leave it in. */
  lemma LeadAppends(ledger: seq<Event>, clientId: string, leadId: string, lead: Lead)
    requires FindClient(ledger, clientId).Some? && StatusOf(ledger, leadId) == None
    ensures var s := if lead.optedOut then OptedOut else Responded;
            var created := ledger + [LeadCreated(clientId, leadId, s, lead)];
            var after := if s == Responded then created + [ResponseReady(clientId, leadId, s)] else created;
            after == ledger + Appended(ledger, CreateLead(clientId, leadId, lead)) && StatusOf(after, leadId) == Some(s)
  {
    var s := if lead.optedOut then OptedOut else Responded;
    var created := ledger + [LeadCreated(clientId, leadId, s, lead)];
    ReadSnoc(ledger, LeadCreated(clientId, leadId, s, lead), leadId);
    ReadSnoc(created, ResponseReady(clientId, leadId, s), leadId);
    assert created + [ResponseReady(clientId, leadId, s)] == ledger + [LeadCreated(clientId, leadId, s, lead), ResponseReady(clientId, leadId, s)];
  }

  /** The service over its ledger file: every operation appends, nothing is rewritten. */
  class Service {
    var ledger: seq<Event>
    ghost var commands: seq<Command>

    ghost predicate Valid()
      reads this
    {
      FreshRun(commands) && ledger == Ledger(commands)
    }

    constructor ()
      ensures Valid() && commands == []
    {
      ledger, commands := [], [];
    }

    ghost method Remember(cmd: Command)
      requires FreshRun(commands) && FreshIds(Ledger(commands), cmd)
      requires ledger == Ledger(commands) + Appended(Ledger(commands), cmd)
      modifies this`commands
      ensures Valid() && commands == old(commands) + [cmd]
    {
      commands := commands + [cmd];
      assert commands[..|commands| - 1] == old(commands);
    }

    method AddClient(clientId: string, client: Client)
      requires Valid() && FindClient(ledger, clientId) == None
      modifies this
      ensures Valid() && commands == old(commands) + [CreateClient(clientId, client)]
    {
      ledger := ledger + [ClientCreated(clientId, client)];
      Remember(CreateClient(clientId, client));
    }

    method AddLead(clientId: string, leadId: string, lead: Lead) returns (status: Option<Status>)
      requires Valid() && StatusOf(ledger, leadId) == None
      modifies this
      ensures Valid() && commands == old(commands) + [CreateLead(clientId, leadId, lead)]
      ensures status == StatusOf(ledger, leadId)
    {
      var client := FindClient(ledger, clientId);
      if client == None {
        assert ledger + [] == ledger;
        Remember(CreateLead(clientId, leadId, lead));
        return None;
      }
      LeadAppends(ledger, clientId, leadId, lead);
      var s := if lead.optedOut then OptedOut else Responded;
      ledger := ledger + [LeadCreated(clientId, leadId, s, lead)];
      if s == Responded {
        ledger := ledger + [ResponseReady(clientId, leadId, s)];
      }
      Remember(CreateLead(clientId, leadId, lead));
      return Some(s);
    }

    method QualifyLead(leadId: string) returns (status: Option<Status>)
      requires Valid()
      modifies this
      ensures Valid() && commands == old(commands) + [Qualify(leadId)]
      ensures status == StatusOf(ledger, leadId)
    {
      status := StatusOf(ledger, leadId);
      SoundOverRuns(commands);
      assert Account(ledger, leadId);
      if status == None || Closed(status.value) {
        assert ledger + [] == ledger;
        Remember(Qualify(leadId));
        return;
      }
      var clientId := ClientOf(ledger, leadId).value;
      var verdict, reasons := Assess(FindClient(ledger, clientId).value, FindLead(ledger, leadId).value);
      ReadSnoc(ledger, LeadQualified(clientId, leadId, verdict), leadId);
      ledger := ledger + [LeadQualified(clientId, leadId, verdict)];
      status := Some(verdict);
      Remember(Qualify(leadId));
    }

    method FollowUpLead(leadId: string) returns (prepared: bool)
      requires Valid()
      modifies this
      ensures Valid() && commands == old(commands) + [FollowUp(leadId)]
      ensures prepared <==> Alive(old(ledger), leadId)
    {
      prepared := Alive(ledger, leadId);
      assert ledger + [] == ledger;
      if prepared {
        ledger := ledger + [FollowUpReady(ClientOf(ledger, leadId).value, leadId, NEEDS_HUMAN_REVIEW)];
      }
      Remember(FollowUp(leadId));
    }

    method Book(leadId: string, calendarEvent: string, calendar: string) returns (booked: bool)
      requires Valid()
      modifies this
      ensures Valid() && commands == old(commands) + [RecordBooking(leadId, calendarEvent, calendar)]
      ensures booked ==> StatusOf(old(ledger), leadId) == Some(QUALIFIED) && StatusOf(ledger, leadId) == Some(Booked)
      ensures !booked ==> ledger == old(ledger)
    {
      SoundOverRuns(commands);
      assert Account(ledger, leadId);
      booked := false;
      assert ledger + [] == ledger;
      if StatusOf(ledger, leadId) == Some(QUALIFIED) {
        var clientId := ClientOf(ledger, leadId).value;
        var client := FindClient(ledger, clientId).value;
        if client.calendar == "" || calendar == client.calendar {
          ReadSnoc(ledger, BookingConfirmed(clientId, leadId, Booked, calendarEvent), leadId);
          ledger := ledger + [BookingConfirmed(clientId, leadId, Booked, calendarEvent)];
          booked := true;
        }
      }
      Remember(RecordBooking(leadId, calendarEvent, calendar));
    }

    /** Counts a client's leads from the ledger; a Counter is a multiset. */
    method CountLeads(clientId: string) returns (r: Report)
      requires Sound(ledger)
      ensures CountedTo(r, ledger, ledger, clientId)
    {
      r := Report(0, 0, multiset{}, multiset{}, multiset{});
      NothingCounted(ledger, clientId);
      assert ledger[..0] == [];
      for i := 0 to |ledger|
        invariant CountedTo(r, ledger[..i], ledger, clientId)
      {
        if LeadOf(ledger[i], clientId) {
          HasStatus(ledger, i);
          var status := StatusOf(ledger, ledger[i].leadId).value;
          CountedNext(r, ledger, i, clientId, status);
          r := Counted(r, ledger[i].lead, status);
        } else {
          CountedNext(r, ledger, i, clientId, Booked);
        }
      }
      assert ledger[..|ledger|] == ledger;
    }

    /** After every run the report of a known client adds up. */
    method MakeReport(clientId: string) returns (r: Option<Report>)
      requires Valid()
      ensures r.Some? <==> FindClient(ledger, clientId).Some?
      ensures r.Some? ==> AddsUp(r.value, ledger, clientId)
    {
      if FindClient(ledger, clientId) == None {
        return None;
      }
      SoundOverRuns(commands);
      RunIsAppendable(commands);
      BookedMatchesBookings(ledger, clientId);
      var report := CountLeads(clientId);
      return Some(report);
    }
  }
}
