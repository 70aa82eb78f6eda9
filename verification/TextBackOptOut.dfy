/** Opting out over every run with one caller, the owner and the dashboard. */
module TextBackOptOut {
  import opened Common
  import opened TextBack

  lemma PlusDigitsTrimmed(digits: string)
    requires digits != "" && forall c <- digits :: IsDigit(c)
    ensures Trim("+" + digits) == "+" + digits
  {
    var s := "+" + digits;
    assert s[|s| - 1] == digits[|digits| - 1];
    assert digits[|digits| - 1] in digits;
  }

  /** A normalized number is its own normal form. */
  lemma NormalFormStays(input: string)
    requires NormalizePhone(input).Some?
    ensures NormalizePhone(NormalizePhone(input).value) == NormalizePhone(input)
  {
    var phone := NormalizePhone(input).value;
    var given := DigitsOf(Trim(input));
    var digits := if phone == "+1" + given && |given| == 10 then "1" + given else given;
    assert phone == "+" + digits && forall c <- digits :: IsDigit(c);
    PlusDigitsTrimmed(digits);
    assert phone[1..] == digits;
    DigitsOfDigits(digits);
  }

  /** The caller is someone other than the owner. */
  ghost predicate Customer(t: Tenant, caller: string) {
    caller != "" && (Owner(t).Some? ==> Owner(t) != Some(caller) && Owner(t) != NormalizePhone(caller))
  }

  /** Only this caller, the owner and the dashboard take part. */
  ghost predicate SingleCaller(t: Tenant, caller: string, events: seq<Event>) {
    forall ev <- events :: ev.Dashboard? || ev.from == caller || Owner(t) == Some(ev.from)
  }

  predicate Says(ev: Event, caller: string, word: Keyword) {
    ev.Sms? && ev.from == caller && KeywordOf(ev.body) == word
  }

  /** The caller's last word on the matter was STOP. */
  predicate Stopped(caller: string, events: seq<Event>) {
    if events == [] then false
    else
      var ev := events[|events| - 1];
      if Says(ev, caller, Stop) then true
      else if Says(ev, caller, Start) then false
      else Stopped(caller, events[..|events| - 1])
  }

  predicate ForCaller(caller: string, to: string) {
    to == caller || Some(to) == NormalizePhone(caller)
  }

  /** The flag and the list of suppressed numbers both record whether the caller stopped; a caller id with no
      normal form, such as a short code, never enters the list. */
  ghost predicate Suppression(s: State, caller: string, stopped: bool) {
    && s.suppressed == stopped
    && s.suppressedPhones == if stopped && NormalizePhone(caller).Some? then [NormalizePhone(caller).value] else []
  }

  lemma {:induction false} OutboundKeepsSuppression(s: State, items: seq<Outbound>)
    ensures var after := AddAllOutbound(s, items);
            after.suppressed == s.suppressed && after.suppressedPhones == s.suppressedPhones
  {
    if items != [] {
      OutboundKeepsSuppression(s, items[..|items| - 1]);
    }
  }

  lemma ProjectSuppression(s: State, r: Record)
    ensures var after := Project(s, Some(r));
            var base := WithSuppression(s, r);
            after.suppressed == base.suppressed && after.suppressedPhones == base.suppressedPhones
  {
    var talked := if r.conversation.Some? then s.(conversation := r.conversation) else s;
    OutboundKeepsSuppression(WithSuppression(talked, r), r.outbound);
  }

  /** Only the caller's own STOP and START carry the two suppression marks. */
  lemma MarksComeFromWords(s: State, t: Tenant, caller: string, ev: Event)
    requires Customer(t, caller) && SingleCaller(t, caller, [ev])
    ensures match Decide(s, t, ev)
            case None => !Says(ev, caller, Stop) && !Says(ev, caller, Start)
            case Some(r) => && (r.suppress <==> Says(ev, caller, Stop)) && (r.clearSuppression <==> Says(ev, caller, Start))
                            && (r.suppress || r.clearSuppression ==> r.from == caller)
  {
    assert ev in [ev];
  }

  lemma ResumeClears(phone: string)
    ensures Without([phone], Some(phone)) == [] && Without([], Some(phone)) == []
  {
    assert [phone][1..] == [];
  }

  lemma StepSuppression(s: State, t: Tenant, caller: string, stopped: bool, ev: Event)
    requires Customer(t, caller) && SingleCaller(t, caller, [ev]) && Suppression(s, caller, stopped)
    ensures Suppression(Step(s, t, ev), caller,
                        if Says(ev, caller, Stop) then true else if Says(ev, caller, Start) then false else stopped)
  {
    MarksComeFromWords(s, t, caller, ev);
    var decision := Decide(s, t, ev);
    if decision.Some? {
      ProjectSuppression(s, decision.value);
      if NormalizePhone(caller).Some? {
        ResumeClears(NormalizePhone(caller).value);
      }
    }
  }

  lemma {:induction false} SuppressionOverRuns(t: Tenant, caller: string, events: seq<Event>)
    requires Customer(t, caller) && SingleCaller(t, caller, events)
    ensures Suppression(Run(FreshState(), t, events), caller, Stopped(caller, events))
  {
    if events != [] {
      var n := |events| - 1;
      SuppressionOverRuns(t, caller, events[..n]);
      assert events[n] in events;
      StepSuppression(Run(FreshState(), t, events[..n]), t, caller, Stopped(caller, events[..n]), events[n]);
    }
  }

  /** After every run the flag says exactly whether the caller's number is listed, unless the caller stopped under
      an id that has no normal form: then the flag is set and the list stays empty. */
  lemma FlagMatchesList(t: Tenant, caller: string, events: seq<Event>)
    requires Customer(t, caller) && SingleCaller(t, caller, events)
    ensures var s := Run(FreshState(), t, events);
            && s.suppressed == Stopped(caller, events)
            && ((s.suppressed <==> NormalizePhone(caller).Some? && NormalizePhone(caller).value in s.suppressedPhones)
                <==> NormalizePhone(caller).Some? || !Stopped(caller, events))
  {
    SuppressionOverRuns(t, caller, events);
  }

  lemma {:induction false} FewDigits(s: string)
    ensures |DigitsOf(s)| <= |s|
  {
    if s != "" {
      FewDigits(s[1..]);
    }
  }

  /** A short code has no normal form. */
  lemma ShortCodeHasNone(code: string)
    requires code != "" && |code| < 10
    ensures NormalizePhone(code) == None
  {
    TrimShortens(code);
    FewDigits(Trim(code));
  }

  lemma {:induction false} TrimShortens(s: string)
    ensures |Trim(s)| <= |s|
  {
    TrimLeftShortens(s);
    TrimRightShortens(TrimLeft(s));
  }

  lemma {:induction false} TrimLeftShortens(s: string)
    ensures |TrimLeft(s)| <= |s|
  {
    if s != "" && IsSpace(s[0]) {
      TrimLeftShortens(s[1..]);
    }
  }

  lemma {:induction false} TrimRightShortens(s: string)
    ensures |TrimRight(s)| <= |s|
  {
    if s != "" && IsSpace(s[|s| - 1]) {
      TrimRightShortens(s[..|s| - 1]);
    }
  }

  lemma StopIsStop()
    ensures KeywordOf("STOP") == Stop
  {
    assert Upper("STOP") == "STOP" && "STOP"[0] == 'S' && "STOP"[3] == 'P';
  }

  /** For a tenant without an owner's phone, the short code 12345 that texts STOP sets the flag and is not listed. */
  lemma ShortCodeIsNotListed(t: Tenant, now: int)
    requires Owner(t) == None
    ensures var s := Run(FreshState(), t, [Sms("12345", now, "STOP", CommandHelp)]);
            s.suppressed && s.suppressedPhones == []
  {
    var events := [Sms("12345", now, "STOP", CommandHelp)];
    StopIsStop();
    ShortCodeHasNone("12345");
    SuppressionOverRuns(t, "12345", events);
  }

  // ---------------------------------------------------------------- texts while stopped

  predicate Permitted(caller: string, o: Outbound) {
    ForCaller(caller, o.to) ==> o.purpose == HelpText || o.purpose == StopConfirm
  }

  lemma OwnerAlertsPermitted(b: Batch, t: Tenant, caller: string)
    requires Customer(t, caller) && forall o <- b.outbound :: Permitted(caller, o)
    ensures forall o <- PushOwnerAlert(b, t).0.outbound :: Permitted(caller, o)
  {
  }

  /** No reply reaches a stopped caller, in whatever form the owner writes the number. */
  lemma RepliesRefused(ctx: Context, caller: string, phone: string)
    requires NormalizePhone(phone).Some? && ForCaller(caller, NormalizePhone(phone).value)
    requires NormalizePhone(caller).Some? ==> ctx.suppressedPhones == [NormalizePhone(caller).value]
    ensures IsOptedOut(ctx, phone) && IsOptedOut(ctx, NormalizePhone(phone).value)
  {
    var to := NormalizePhone(phone).value;
    NormalFormStays(phone);
    assert NormalizePhone(caller) == Some(to);
    assert Normalized(ctx.suppressedPhones) == [Some(to)];
  }

  lemma OwnerTextsPermitted(ctx: Context, t: Tenant, owner: string, caller: string)
    requires Customer(t, caller) && Owner(t) == Some(owner)
    requires NormalizePhone(caller).Some? ==> ctx.suppressedPhones == [NormalizePhone(caller).value]
    ensures forall o <- OwnerTexts(ctx, t, owner) :: Permitted(caller, o)
  {
    if ctx.command.ReplyTo? && NormalizePhone(ctx.command.phone).Some? {
      var to := NormalizePhone(ctx.command.phone).value;
      if ForCaller(caller, to) {
        RepliesRefused(ctx, caller, ctx.command.phone);
      }
    }
  }

  lemma CallsPermitted(ctx: Context, t: Tenant, caller: string)
    requires Customer(t, caller) && ctx.suppressed
    requires ctx.from == caller || Owner(t) == Some(ctx.from)
    ensures match MissedCallRecord(ctx, t)
            case None => true
            case Some(r) => forall o <- r.outbound :: Permitted(caller, o)
  {
    assert CallText(ctx, t) == NewBatch(ctx);
    OwnerAlertsPermitted(NewBatch(ctx), t, caller);
  }

  lemma SmsPermitted(ctx: Context, t: Tenant, caller: string)
    requires Customer(t, caller)
    requires ctx.from == caller || Owner(t) == Some(ctx.from)
    requires ctx.from == caller ==> KeywordOf(ctx.body) == Stop || (ctx.suppressed && KeywordOf(ctx.body) != Start)
    requires Owner(t) == Some(ctx.from) && NormalizePhone(caller).Some? ==> ctx.suppressedPhones == [NormalizePhone(caller).value]
    ensures match HandleInboundSms(ctx, t)
            case None => true
            case Some(r) => forall o <- r.outbound :: Permitted(caller, o)
  {
    if ctx.from == "" {
    } else if Owner(t) == Some(ctx.from) {
      OwnerTextsPermitted(ctx, t, ctx.from, caller);
    } else {
      OwnerAlertsPermitted(NewBatch(ctx), t, caller);
      OwnerAlertsPermitted(AddText(NewBatch(ctx), Outbound(ctx.from, StopConfirm, Twiml, None)), t, caller);
    }
  }

  lemma TextsPermitted(s: State, t: Tenant, caller: string, ev: Event)
    requires Customer(t, caller) && SingleCaller(t, caller, [ev])
    requires Says(ev, caller, Stop) || (Suppression(s, caller, true) && !Says(ev, caller, Start))
    ensures forall o <- Texts(s, t, ev) :: Permitted(caller, o)
  {
    assert ev in [ev];
    var ctx := ContextOf(s, t, ev);
    match ev {
      case Voice(_, _, _, _) => CallsPermitted(ctx, t, caller);
      case DialStatus(_, _, _, _) => CallsPermitted(ctx, t, caller);
      case Sms(_, _, _, _) => SmsPermitted(ctx, t, caller);
      case Dashboard(_, action, live) =>
        if action.DashReply? && NormalizePhone(action.phone).Some? && ForCaller(caller, NormalizePhone(action.phone).value) {
          RepliesRefused(ctx, caller, action.phone);
        }
    }
  }

  /** From a STOP until the same caller's next START, every text addressed to them, whether it comes from a call,
      a text, an owner's reply or the dashboard, only answers HELP or confirms the STOP. */
  lemma StopIsKept(t: Tenant, caller: string, events: seq<Event>, k: nat)
    requires Customer(t, caller) && SingleCaller(t, caller, events)
    requires k < |events| && Stopped(caller, events[..k + 1])
    ensures forall o <- Texts(Run(FreshState(), t, events[..k]), t, events[k]) :: Permitted(caller, o)
  {
    var before, ev := events[..k], events[k];
    assert events[..k + 1][..k] == before;
    assert ev in events;
    SuppressionOverRuns(t, caller, before);
    TextsPermitted(Run(FreshState(), t, before), t, caller, ev);
  }
}
