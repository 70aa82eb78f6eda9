/** Qualifying a lead by text: what the conversation keeps over every run, from any number of callers. */
module TextBackLeads {
  import opened Common
  import opened Planner
  import opened TextBack

  ghost predicate Filled(field: Option<string>) {
    field.Some? && field.value != ""
  }

  /** Each stage has the answers of the stages before it, and a conversation is stopped only while the number is suppressed. */
  ghost predicate Sound(s: State) {
    s.conversation.Some? ==>
      var c := s.conversation.value;
      && (c.stage == AwaitingLocation ==> Filled(c.need))
      && (c.stage == AwaitingUrgency ==> Filled(c.need) && Filled(c.location))
      && (c.stage == HandedOff ==> Filled(c.need) && Filled(c.location) && Filled(c.urgency))
      && (c.stage == StoppedTexts ==> s.suppressed)
  }

  // ---------------------------------------------------------------- what is stored is never blank

  lemma {:induction false} TrimLeftShape(s: string)
    ensures TrimLeft(s) != "" ==> !IsSpace(TrimLeft(s)[0])
  {
    if s != "" && IsSpace(s[0]) {
      TrimLeftShape(s[1..]);
    }
  }

  lemma {:induction false} TrimRightShape(s: string)
    ensures TrimRight(s) <= s
    ensures TrimRight(s) != "" ==> !IsSpace(TrimRight(s)[|TrimRight(s)| - 1])
  {
    if s != "" && IsSpace(s[|s| - 1]) {
      TrimRightShape(s[..|s| - 1]);
    }
  }

  lemma TrimTwice(s: string)
    ensures Trim(Trim(s)) == Trim(s)
  {
    TrimLeftShape(s);
    TrimRightShape(TrimLeft(s));
  }

  lemma AnswersAreFilled(body: string, max: nat)
    requires Trim(body) != "" && max > 0
    ensures Clip(Trim(body), max) != "" && NormalizeUrgency(Trim(body)) != ""
  {
    TrimTwice(body);
  }

  // ---------------------------------------------------------------- one step

  lemma {:induction false} OutboundKeepsTalk(s: State, items: seq<Outbound>)
    ensures var after := AddAllOutbound(s, items);
            after.conversation == s.conversation && after.suppressed == s.suppressed && after.notices == s.notices
  {
    if items != [] {
      OutboundKeepsTalk(s, items[..|items| - 1]);
    }
  }

  /** What a record does to the conversation, the suppression flag and the board. */
  lemma ProjectTalk(s: State, r: Record)
    ensures var after := Project(s, Some(r));
            && after.conversation == (if r.conversation.Some? then r.conversation else s.conversation)
            && after.suppressed == (if r.clearSuppression then false else s.suppressed || r.suppress)
            && after.notices == (if r.notice.Some? then s.notices + [r.notice.value] else s.notices)
  {
    var talked := if r.conversation.Some? then s.(conversation := r.conversation) else s;
    OutboundKeepsTalk(WithSuppression(talked, r), r.outbound);
  }

  /** The event is a customer's START. */
  predicate Restarts(t: Tenant, ev: Event) {
    ev.Sms? && ev.from != "" && Owner(t) != Some(ev.from) && KeywordOf(ev.body) == Start
  }

  /** The text is one the engine answers and reads as an answer of its own. */
  predicate Answered(s: State, t: Tenant, ev: Event) {
    && ev.Sms? && ev.from != "" && Owner(t) != Some(ev.from) && KeywordOf(ev.body) == NoKeyword
    && !s.suppressed && CanText(t.shop, s.sentToday, SentTo(s, ev.from))
  }

  lemma AdvanceIsSound(c: Option<Conversation>, body: string, s: State)
    requires Sound(s) && s.conversation == c && !s.suppressed
    ensures Sound(s.(conversation := Some(Advance(c, Trim(body)).0)))
  {
    if Trim(body) != "" {
      AnswersAreFilled(body, 500);
      AnswersAreFilled(body, 160);
    }
  }

  /** A conversation changes only in a way that the event accounts for. */
  lemma ConversationMoves(s: State, t: Tenant, ev: Event)
    requires Decide(s, t, ev).Some?
    ensures var r := Decide(s, t, ev).value;
            && (r.suppress ==> r.conversation.Some? && r.conversation.value.stage == StoppedTexts && !r.clearSuppression)
            && (r.clearSuppression <==> Restarts(t, ev))
            && (r.clearSuppression ==> r.conversation == Some(BLANK))
            && (!r.suppress && !r.clearSuppression && r.conversation.Some? ==>
                  || r.conversation == s.conversation
                  || (s.conversation == None && r.conversation == Some(BLANK) && !ev.Sms?)
                  || (Answered(s, t, ev) && r.conversation == Some(Advance(s.conversation, Trim(ev.body)).0)))
            && (r.notice == Some(Notice(true, QualifiedLead)) || r.notice == Some(Notice(false, QualifiedLead)) <==>
                  Answered(s, t, ev) && Advance(s.conversation, Trim(ev.body)).2)
  {
  }

  lemma StepIsSound(s: State, t: Tenant, ev: Event)
    requires Sound(s)
    ensures Sound(Step(s, t, ev))
  {
    var decision := Decide(s, t, ev);
    if decision.Some? {
      ConversationMoves(s, t, ev);
      ProjectTalk(s, decision.value);
      if Answered(s, t, ev) {
        AdvanceIsSound(s.conversation, ev.body, s);
      }
    }
  }

  /** In every run a lead waiting for its location has said its need, one waiting for its urgency also its location,
      and one handed to the owner has all three. */
  lemma {:induction false} SoundOverRuns(t: Tenant, events: seq<Event>)
    ensures Sound(Run(FreshState(), t, events))
  {
    if events != [] {
      var n := |events| - 1;
      SoundOverRuns(t, events[..n]);
      StepIsSound(Run(FreshState(), t, events[..n]), t, events[n]);
    }
  }

  /** A later call never resets a conversation, and neither does any action of the dashboard. */
  lemma CallsNeverReset(s: State, t: Tenant, ev: Event)
    requires !ev.Sms? && s.conversation.Some?
    ensures Step(s, t, ev).conversation == s.conversation
  {
    if Decide(s, t, ev).Some? {
      ProjectTalk(s, Decide(s, t, ev).value);
    }
  }

  /** A text that is empty, comes from a suppressed number or meets a used-up limit never advances a conversation. */
  lemma UnansweredNeverAdvances(s: State, t: Tenant, ev: Event)
    requires ev.Sms? && KeywordOf(ev.body) == NoKeyword && s.conversation.Some?
    requires Trim(ev.body) == "" || !Answered(s, t, ev)
    ensures Step(s, t, ev).conversation == s.conversation
  {
    if Decide(s, t, ev).Some? {
      ConversationMoves(s, t, ev);
      ProjectTalk(s, Decide(s, t, ev).value);
    }
  }

  // ---------------------------------------------------------------- the qualified-lead alert

  function Qualified(notices: seq<Notice>): nat {
    if notices == [] then 0
    else Qualified(notices[..|notices| - 1]) + if notices[|notices| - 1].topic == QualifiedLead then 1 else 0
  }

  /** The conversation is past the point where it can qualify. */
  predicate Settled(s: State) {
    s.conversation.Some? && (s.conversation.value.stage == HandedOff || s.conversation.value.stage == StoppedTexts)
  }

  /** How many qualified-lead alerts can still follow without a restart. */
  function Left(s: State): nat {
    if Settled(s) then 0 else 1
  }

  lemma QualifiedSnoc(notices: seq<Notice>, notice: Notice)
    ensures Qualified(notices + [notice]) == Qualified(notices) + if notice.topic == QualifiedLead then 1 else 0
  {
    assert (notices + [notice])[..|notices|] == notices;
  }

  /** A settled conversation is left settled by everything but a START, and an alert settles it. */
  lemma MovesSettle(s: State, t: Tenant, ev: Event)
    requires Sound(s) && !Restarts(t, ev) && Decide(s, t, ev).Some?
    ensures var r := Decide(s, t, ev).value;
            var alerts := r.notice.Some? && r.notice.value.topic == QualifiedLead;
            var talk := if r.conversation.Some? then r.conversation else s.conversation;
            && (Settled(s) ==> Settled(s.(conversation := talk)) && !alerts)
            && (alerts ==> Settled(s.(conversation := talk)))
  {
    ConversationMoves(s, t, ev);
  }

  lemma StepSpendsAlert(s: State, t: Tenant, ev: Event, after: State)
    requires Sound(s) && !Restarts(t, ev) && after == Project(s, Decide(s, t, ev))
    ensures Qualified(after.notices) + Left(after) <= Qualified(s.notices) + Left(s)
  {
    if Decide(s, t, ev).Some? {
      var r := Decide(s, t, ev).value;
      MovesSettle(s, t, ev);
      ProjectTalk(s, r);
      if r.notice.Some? {
        QualifiedSnoc(s.notices, r.notice.value);
      }
    }
  }

  lemma {:induction false} AlertsBetweenRestarts(s: State, t: Tenant, events: seq<Event>)
    requires Sound(s) && forall ev <- events :: !Restarts(t, ev)
    ensures var after := Run(s, t, events);
            Sound(after) && Qualified(after.notices) + Left(after) <= Qualified(s.notices) + Left(s)
  {
    if events != [] {
      var n := |events| - 1;
      AlertsBetweenRestarts(s, t, events[..n]);
      assert events[n] in events;
      StepIsSound(Run(s, t, events[..n]), t, events[n]);
      StepSpendsAlert(Run(s, t, events[..n]), t, events[n], Run(s, t, events));
    }
  }

  lemma {:induction false} RunAppend(s: State, t: Tenant, before: seq<Event>, after: seq<Event>)
    ensures Run(s, t, before + after) == Run(Run(s, t, before), t, after)
  {
    if after == [] {
      assert before + after == before;
    } else {
      RunAppend(s, t, before, after[..|after| - 1]);
      assert (before + after)[..|before + after| - 1] == before + after[..|after| - 1];
    }
  }

  /** In any stretch of a run without a START the owner is told of a qualified lead at most once, and not at all
      when the conversation was already handed over or stopped. */
  lemma QualifiedAtMostOnce(t: Tenant, before: seq<Event>, stretch: seq<Event>)
    requires forall ev <- stretch :: !Restarts(t, ev)
    ensures var s, after := Run(FreshState(), t, before), Run(FreshState(), t, before + stretch);
            Qualified(after.notices) <= Qualified(s.notices) + if Settled(s) then 0 else 1
  {
    SoundOverRuns(t, before);
    RunAppend(FreshState(), t, before, stretch);
    AlertsBetweenRestarts(Run(FreshState(), t, before), t, stretch);
  }
}
