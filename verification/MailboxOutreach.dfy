/** Which mail of a poll belongs to outreach, told from the headers of the list and from what was known before the poll
    alone; that this is the mail that is opened; and that over every run nothing else is stored. */
module MailboxOutreach {
  import opened Common
  import opened MailboxSync
  import opened MailboxRuns

  // ---------------------------------------------------------------- outreach by the headers

  /** The first recipient of a message that is not one of our own addresses. */
  ghost predicate MailedTo(h: Header, us: Us, recipient: string) {
    exists i :: 0 <= i < |h.to| && h.to[i] == recipient && recipient !in us.ours && forall e :: 0 <= e < i ==> h.to[e] in us.ours
  }

  /** One of the first `j` messages of the list is outreach of our own with this header and this first other recipient. */
  ghost predicate Sent(us: Us, k: Known, uids: seq<nat>, headers: nat -> Option<Header>, j: nat, h: Header, recipient: string)
    requires j <= |uids|
    decreases j, 0
  {
    h.from in us.ours && MailedTo(h, us, recipient)
    && exists i: nat :: i < j && headers(uids[i]) == Some(h) && Outreach(us, k, uids, headers, i)
  }

  /** The address was mailed, or shares a business domain with one that was: before the poll, or by earlier mail in its list. */
  ghost predicate Contacted(us: Us, k: Known, uids: seq<nat>, headers: nat -> Option<Header>, j: nat, address: string)
    requires j <= |uids|
    decreases j, 1
  {
    || address in k.addresses || us.domain(address) in k.domains
    || exists h: Header, r: string :: Sent(us, k, uids, headers, j, h, r)
         && (address == r || us.domain(address) == us.domain(r) != "")
  }

  /** The thread, or a message that is referred to, was ours: before the poll, or by earlier mail in its list. */
  ghost predicate Continues(us: Us, k: Known, uids: seq<nat>, headers: nat -> Option<Header>, j: nat, reply: Header)
    requires j <= |uids|
    decreases j, 1
  {
    || reply.thread in k.threads || (exists ref <- reply.refs :: ref != "" && ref in k.msgIds)
    || exists h: Header, r: string :: Sent(us, k, uids, headers, j, h, r)
         && (reply.thread == h.thread != "" || (h.messageId != "" && h.messageId in reply.refs))
  }

  /** Message `j` of a poll's list is outreach: its header was read, it is no draft, and it is either mail to us that
      continues a thread of ours or comes from an address or business that we mailed, or mail of ours that is no prepared
      reply and carries the outreach header, the label or a recipient that we mailed before. */
  ghost predicate Outreach(us: Us, k: Known, uids: seq<nat>, headers: nat -> Option<Header>, j: nat)
    requires j < |uids|
    decreases j, 2
  {
    headers(uids[j]).Some? &&
    var h := headers(uids[j]).value;
    h.readable && !h.draft &&
    if h.from !in us.ours then
      Continues(us, k, uids, headers, j, h) || Contacted(us, k, uids, headers, j, h.from)
    else
      h.outreach != "ai-reply-draft"
      && (h.outreach != "" || h.labelled || exists t <- h.to :: t !in us.ours && Contacted(us, k, uids, headers, j, t))
  }

  // ---------------------------------------------------------------- what is known on the way

  lemma {:induction false} OthersAreOthers(to: seq<string>, us: Us)
    ensures forall t :: t in Others(to, us) <==> t in to && t !in us.ours
  {
    if to != [] {
      OthersAreOthers(to[1..], us);
    }
  }

  lemma {:induction false} FirstOfOthers(to: seq<string>, us: Us) returns (i: nat)
    requires Others(to, us) != []
    ensures i < |to| && to[i] == Others(to, us)[0] && to[i] !in us.ours && forall e :: 0 <= e < i ==> to[e] in us.ours
  {
    if to[0] in us.ours {
      var rest := FirstOfOthers(to[1..], us);
      i := rest + 1;
      assert forall e :: 1 <= e < i ==> to[e] == to[1..][e - 1];
    } else {
      i := 0;
    }
  }

  /** Someone was mailed exactly when there is another recipient, and it is the first one. */
  lemma MailedToFirst(h: Header, us: Us, recipient: string)
    ensures MailedTo(h, us, recipient) <==> Others(h.to, us) != [] && Others(h.to, us)[0] == recipient
  {
    OthersAreOthers(h.to, us);
    if Others(h.to, us) != [] {
      var i := FirstOfOthers(h.to, us);
      assert MailedTo(h, us, Others(h.to, us)[0]);
    }
    if MailedTo(h, us, recipient) {
      assert recipient in h.to;
      assert recipient in Others(h.to, us);
    }
  }

  /** What is known when the turn of message `j` comes: what was known before, and each mail of ours earlier in the list. */
  ghost predicate KnownRight(us: Us, k: Known, uids: seq<nat>, headers: nat -> Option<Header>, j: nat, now: Known)
    requires j <= |uids|
  {
    && (forall x :: x in now.msgIds <==>
          x in k.msgIds || exists h: Header, r: string :: Sent(us, k, uids, headers, j, h, r) && h.messageId == x)
    && (forall x :: x in now.threads <==>
          x in k.threads || exists h: Header, r: string :: Sent(us, k, uids, headers, j, h, r) && h.thread == x != "")
    && (forall x :: x in now.addresses <==>
          x in k.addresses || exists h: Header, r: string :: Sent(us, k, uids, headers, j, h, r) && r == x)
    && (forall x :: x in now.domains <==>
          x in k.domains || exists h: Header, r: string :: Sent(us, k, uids, headers, j, h, r) && us.domain(r) == x != "")
  }

  /** With the right knowledge, relevance is outreach. */
  lemma OutreachIsRelevant(us: Us, k: Known, uids: seq<nat>, headers: nat -> Option<Header>, j: nat, now: Known)
    requires j < |uids| && KnownRight(us, k, uids, headers, j, now)
    ensures Opened(us, now, headers(uids[j])) <==> Outreach(us, k, uids, headers, j)
  {
    if headers(uids[j]).Some? && headers(uids[j]).value.readable {
      var h := headers(uids[j]).value;
      if h.from in us.ours {
        OthersAreOthers(h.to, us);
        forall t
          ensures Contacted(us, k, uids, headers, j, t) <==> t in now.addresses || us.domain(t) in now.domains
        {
          ContactedIsKnown(us, k, uids, headers, j, now, t);
        }
      } else {
        ContactedIsKnown(us, k, uids, headers, j, now, h.from);
        ContinuesIsKnown(us, k, uids, headers, j, now, h);
      }
    }
  }

  lemma ContactedIsKnown(us: Us, k: Known, uids: seq<nat>, headers: nat -> Option<Header>, j: nat, now: Known, address: string)
    requires j <= |uids| && KnownRight(us, k, uids, headers, j, now)
    ensures Contacted(us, k, uids, headers, j, address) <==> address in now.addresses || us.domain(address) in now.domains
  {
  }

  lemma ContinuesIsKnown(us: Us, k: Known, uids: seq<nat>, headers: nat -> Option<Header>, j: nat, now: Known, reply: Header)
    requires j <= |uids| && KnownRight(us, k, uids, headers, j, now)
    ensures Continues(us, k, uids, headers, j, reply) <==>
              reply.thread in now.threads || exists ref <- reply.refs :: ref != "" && ref in now.msgIds
  {
    if exists ref <- reply.refs :: ref != "" && ref in now.msgIds {
      var ref :| ref in reply.refs && ref != "" && ref in now.msgIds;
      assert Continues(us, k, uids, headers, j, reply);
    }
    if h: Header, r: string :| Sent(us, k, uids, headers, j, h, r) && h.messageId != "" && h.messageId in reply.refs {
      assert h.messageId in now.msgIds;
    }
  }

  lemma SentNext(us: Us, k: Known, uids: seq<nat>, headers: nat -> Option<Header>, j: nat, h: Header, r: string)
    requires j < |uids|
    ensures Sent(us, k, uids, headers, j + 1, h, r) <==>
              || Sent(us, k, uids, headers, j, h, r)
              || (headers(uids[j]) == Some(h) && Outreach(us, k, uids, headers, j) && h.from in us.ours && MailedTo(h, us, r))
  {
  }

  /** Who was mailed after message `j`: who was before, and the first other recipient if it is outreach of our own. */
  lemma SentAfter(us: Us, k: Known, uids: seq<nat>, headers: nat -> Option<Header>, j: nat, now: Known, h: Header, r: string)
    requires j < |uids| && KnownRight(us, k, uids, headers, j, now)
    ensures Sent(us, k, uids, headers, j + 1, h, r) <==>
              Sent(us, k, uids, headers, j, h, r)
              || (headers(uids[j]) == Some(h) && Opened(us, now, Some(h)) && Ours(h, us) && Others(h.to, us) != [] && Others(h.to, us)[0] == r)
  {
    SentNext(us, k, uids, headers, j, h, r);
    MailedToFirst(h, us, r);
    OutreachIsRelevant(us, k, uids, headers, j, now);
  }

  /** The message teaches whom we mailed. */
  predicate Teaches(us: Us, now: Known, h: Option<Header>) {
    Opened(us, now, h) && Ours(h.value, us) && Others(h.value.to, us) != []
  }

  lemma TaughtOne(us: Us, k: Known, uids: seq<nat>, headers: nat -> Option<Header>, j: nat, next: nat, now: Known, h: Header, first: string)
    requires j <= next <= |uids| && KnownRight(us, k, uids, headers, j, now)
    requires forall g: Header, r: string :: Sent(us, k, uids, headers, next, g, r) <==> Sent(us, k, uids, headers, j, g, r) || (g == h && r == first)
    ensures KnownRight(us, k, uids, headers, next, AddOutbound(now, us, h.messageId, h.thread, first))
  {
    assert Sent(us, k, uids, headers, next, h, first);
  }

  /** Looking at message `j` keeps the knowledge right. */
  lemma LearnsRight(us: Us, k: Known, uids: seq<nat>, headers: nat -> Option<Header>, j: nat, next: nat, now: Known)
    requires j < |uids| && next == j + 1 && KnownRight(us, k, uids, headers, j, now)
    ensures KnownRight(us, k, uids, headers, next, LearnFrom(us, now, headers(uids[j])))
  {
    forall h: Header, r: string
      ensures Sent(us, k, uids, headers, next, h, r) <==>
                Sent(us, k, uids, headers, j, h, r)
                || (Teaches(us, now, headers(uids[j])) && headers(uids[j]).value == h && Others(h.to, us)[0] == r)
    {
      SentAfter(us, k, uids, headers, j, now, h, r);
    }
    if Teaches(us, now, headers(uids[j])) {
      var h := headers(uids[j]).value;
      TaughtOne(us, k, uids, headers, j, next, now, h, Others(h.to, us)[0]);
    } else {
      assert LearnFrom(us, now, headers(uids[j])) == now;
    }
  }

  lemma {:induction false} KnowledgeIsRight(us: Us, k: Known, uids: seq<nat>, headers: nat -> Option<Header>, j: nat)
    requires j <= |uids|
    ensures KnownRight(us, k, uids, headers, j, KnownAfter(us, k, uids[..j], headers))
  {
    if j > 0 {
      KnowledgeIsRight(us, k, uids, headers, j - 1);
      assert uids[..j][..j - 1] == uids[..j - 1];
      LearnsRight(us, k, uids, headers, j - 1, j, KnownAfter(us, k, uids[..j - 1], headers));
    }
  }

  // ---------------------------------------------------------------- what is opened, and what becomes of it

  /** A message is opened if and only if it is outreach by the headers of its poll. */
  lemma OpenedExactly(us: Us, k: Known, uids: seq<nat>, headers: nat -> Option<Header>, j: nat)
    requires j < |uids|
    ensures Opened(us, KnownAfter(us, k, uids[..j], headers), headers(uids[j])) <==> Outreach(us, k, uids, headers, j)
  {
    KnowledgeIsRight(us, k, uids, headers, j);
    OutreachIsRelevant(us, k, uids, headers, j, KnownAfter(us, k, uids[..j], headers));
  }

  /** The fate of message `j` by the two fetches: no header, or a body asked for and not there, is unfetched; an unreadable
      header or a failure is quarantined; a readable header that is no outreach is irrelevant whatever the body holds. */
  ghost predicate FateByHeaders(us: Us, input: Input, uids: seq<nat>, j: nat, fate: Fate)
    requires j < |uids|
  {
    var h := input.headers(uids[j]);
    var outreach := Outreach(us, input.known, uids, input.headers, j);
    match fate
    case Judged(Unfetched) => h == None || (outreach && input.handling(uids[j]) == Vanishes)
    case Judged(Quarantined) => h.Some? && (!h.value.readable || (outreach && input.handling(uids[j]) == Fails))
    case Judged(Irrelevant) => h.Some? && h.value.readable && !outreach
    case Judged(Stored(p)) => outreach && input.handling(uids[j]) == Stores(p)
    case Judged(HandledOnly) => outreach && input.handling(uids[j]) == Leaves
    case Lost(committed, p) => outreach && input.handling(uids[j]) == LosesDatabase(committed, p)
  }

  /** Every message of a poll's list has exactly the fate that its headers and its handling give. */
  lemma FateExactly(us: Us, input: Input, uids: seq<nat>, j: nat, fate: Fate)
    requires j < |uids|
    ensures Items(us, input.known, uids, input.headers, input.handling)[j].fate == fate <==> FateByHeaders(us, input, uids, j, fate)
  {
    ItemFate(us, input.known, uids, input.headers, input.handling, j);
    OpenedExactly(us, input.known, uids, input.headers, j);
  }

  // ---------------------------------------------------------------- over runs

  /** Message `j` of the list of poll `n` of the run. */
  ghost function ListOf(w: World, polls: seq<Input>, n: nat): seq<nat>
    requires n < |polls|
  {
    Capped(w, Run(w, polls[..n]).cursor, polls[n])
  }

  lemma SameList(w: World, polls: seq<Input>, m: nat, n: nat)
    requires n < m <= |polls|
    ensures polls[..m][..n] == polls[..n] && polls[..m][n] == polls[n]
    ensures ListOf(w, polls[..m], n) == ListOf(w, polls, n)
  {
    var before := polls[..m];
    assert before[..n] == polls[..n] && before[n] == polls[n];
  }

  /** The message `u` that poll `n` listed at place `j` was outreach and was stored as `p`, at once or just before the
      database was lost. */
  ghost predicate StoredAs(w: World, polls: seq<Input>, n: nat, j: nat, p: string, u: nat) {
    n < |polls| && j < |ListOf(w, polls, n)| && ListOf(w, polls, n)[j] == u
    && Outreach(w.us, polls[n].known, ListOf(w, polls, n), polls[n].headers, j)
    && polls[n].handling(u) in {Stores(p), LosesDatabase(true, p)}
  }

  lemma StoredAsLater(w: World, polls: seq<Input>, m: nat, n: nat, j: nat, p: string, u: nat)
    requires m <= |polls| && StoredAs(w, polls[..m], n, j, p, u)
    ensures StoredAs(w, polls, n, j, p, u)
  {
    SameList(w, polls, m, n);
  }

  lemma BroughtAt(us: Us, input: Input, uids: seq<nat>, p: string, u: nat) returns (j: nat)
    requires BroughtFrom(us, input, uids, p, u)
    ensures j < |uids| && uids[j] == u && Outreach(us, input.known, uids, input.headers, j)
    ensures input.handling(u) in {Stores(p), LosesDatabase(true, p)}
  {
    j :| 0 <= j < |uids| && uids[j] == u && Opened(us, KnownAfter(us, input.known, uids[..j], input.headers), input.headers(u))
         && Carries(FateOpened(input.handling(u)), p);
    OpenedExactly(us, input.known, uids, input.headers, j);
  }

  /** Personal mail is never stored: over every run each stored message was outreach by the headers of a poll that listed it. */
  lemma {:induction false} OnlyOutreachStored(w: World, polls: seq<Input>, p: string) returns (n: nat, j: nat)
    requires p in Run(w, polls).messages
    ensures StoredAs(w, polls, n, j, p, Run(w, polls).messages[p])
  {
    var last := |polls| - 1;
    var s, input, u := Run(w, polls[..last]), polls[last], Run(w, polls).messages[p];
    PollStores(w, s, input);
    if p in s.messages {
      n, j := OnlyOutreachStored(w, polls[..last], p);
      StoredAsLater(w, polls, last, n, j, p, u);
    } else {
      n := last;
      PollBringsIn(w, s, input, p);
      j := BroughtAt(w.us, input, ListOf(w, polls, n), p, u);
    }
  }

  /** The last poll that judged the message listed it at a place where its headers give this verdict. */
  ghost predicate ByItsHeaders(w: World, polls: seq<Input>, v: nat, u: nat, verdict: Verdict) {
    var n := JudgedBy(w, polls, v, u);
    n.Some? && exists j: nat :: j < |ListOf(w, polls, n.value)| && ListOf(w, polls, n.value)[j] == u
                                && FateByHeaders(w.us, polls[n.value], ListOf(w, polls, n.value), j, Judged(verdict))
  }

  /** A fate that the list records for a message is that of its headers, at some place of the list. */
  lemma FateAt(us: Us, input: Input, uids: seq<nat>, f: nat, u: nat, verdict: Verdict) returns (j: nat)
    requires f <= |uids| && HasFate(Items(us, input.known, uids, input.headers, input.handling)[..f], u, verdict)
    ensures j < f && uids[j] == u && FateByHeaders(us, input, uids, j, Judged(verdict))
  {
    var items := Items(us, input.known, uids, input.headers, input.handling);
    var item :| item in items[..f] && item.uid == u && item.fate == Judged(verdict);
    j :| 0 <= j < f && items[j] == item;
    FateExactly(us, input, uids, j, Judged(verdict));
  }

  lemma JudgedNow(w: World, polls: seq<Input>, v: nat, u: nat)
    requires polls != [] && AllAscending(polls) && Judges(w, Run(w, polls[..|polls| - 1]).cursor, polls[|polls| - 1], v, u)
    ensures (v, u) in Run(w, polls).verdicts && ByItsHeaders(w, polls, v, u, Run(w, polls).verdicts[(v, u)])
  {
    var n := |polls| - 1;
    var s, input := Run(w, polls[..n]), polls[n];
    PollVerdicts(w, s, input, v, u);
    var j := FateAt(w.us, input, ListOf(w, polls, n), Span(w, s.cursor, input), u, Run(w, polls).verdicts[(v, u)]);
  }

  lemma ByItsHeadersLater(w: World, polls: seq<Input>, last: nat, v: nat, u: nat, verdict: Verdict)
    requires last + 1 == |polls| && ByItsHeaders(w, polls[..last], v, u, verdict)
    requires JudgedBy(w, polls, v, u) == JudgedBy(w, polls[..last], v, u)
    ensures ByItsHeaders(w, polls, v, u, verdict)
  {
    SameList(w, polls, last, JudgedBy(w, polls, v, u).value);
  }

  /** Over every run, each verdict is the one that the headers and the handling of the last judging poll give: in
      particular mail that is no outreach is judged irrelevant, and outreach whose body came is stored or handled. */
  lemma {:induction false} VerdictsByHeaders(w: World, polls: seq<Input>, v: nat, u: nat)
    requires AllAscending(polls) && (v, u) in Run(w, polls).verdicts
    ensures ByItsHeaders(w, polls, v, u, Run(w, polls).verdicts[(v, u)])
  {
    var n := |polls| - 1;
    var s := Run(w, polls[..n]);
    if Judges(w, s.cursor, polls[n], v, u) {
      JudgedNow(w, polls, v, u);
    } else {
      PollVerdicts(w, s, polls[n], v, u);
      VerdictsByHeaders(w, polls[..n], v, u);
      ByItsHeadersLater(w, polls, n, v, u, s.verdicts[(v, u)]);
    }
  }

  /** A poll that saves a batch with outreach in it, whose body came and is to be stored, has stored it, and so has every
      later state of the run. */
  lemma OutreachIsStored(w: World, polls: seq<Input>, n: nat, j: nat, p: string)
    requires AllAscending(polls) && n < |polls| && j < Span(w, Run(w, polls[..n]).cursor, polls[n])
    requires Outreach(w.us, polls[n].known, ListOf(w, polls, n), polls[n].headers, j)
    requires polls[n].handling(ListOf(w, polls, n)[j]) == Stores(p)
    ensures p in Run(w, polls).messages
  {
    SameList(w, polls, n + 1, n);
    AscendingPrefix(polls, n + 1);
    JudgedStored(w, polls[..n + 1], j, p);
    StoredByVerdict(w, polls[..n + 1], (polls[n].server.validity, ListOf(w, polls, n)[j]), p);
    StoredStays(w, polls, n + 1);
  }

  lemma AscendingPrefix(polls: seq<Input>, n: nat)
    requires AllAscending(polls) && n <= |polls|
    ensures AllAscending(polls[..n])
  {
  }

  lemma StoredByVerdict(w: World, polls: seq<Input>, key: (nat, nat), p: string)
    requires AllAscending(polls) && key in Run(w, polls).verdicts && Run(w, polls).verdicts[key] == Stored(p)
    ensures p in Run(w, polls).messages
  {
    RunStoredVerdicts(w, polls);
  }

  lemma JudgedStored(w: World, polls: seq<Input>, j: nat, p: string)
    requires polls != [] && AllAscending(polls)
    requires var n := |polls| - 1;
             && j < Span(w, Run(w, polls[..n]).cursor, polls[n])
             && Outreach(w.us, polls[n].known, ListOf(w, polls, n), polls[n].headers, j)
             && polls[n].handling(ListOf(w, polls, n)[j]) == Stores(p)
    ensures var n := |polls| - 1;
            var key := (polls[n].server.validity, ListOf(w, polls, n)[j]);
            key in Run(w, polls).verdicts && Run(w, polls).verdicts[key] == Stored(p)
  {
    var n := |polls| - 1;
    var s, input, uids := Run(w, polls[..n]), polls[n], ListOf(w, polls, n);
    var v, u, f := input.server.validity, uids[j], Span(w, s.cursor, input);
    assert uids[..f][j] == u;
    CappedAscending(w, s.cursor, input);
    PollVerdicts(w, s, input, v, u);
    var i := FateAt(w.us, input, uids, f, u, Run(w, polls).verdicts[(v, u)]);
    assert i == j;
  }

  /** A stranger's mail, from an address and a business we never wrote to and in no thread of ours, alone in a first poll,
      is judged irrelevant however its body would have been handled, and nothing is stored. */
  lemma StrangerIsIrrelevant(w: World, handling: nat -> Handling, limit: nat)
    requires "friend@example.com" !in w.us.ours && w.recent(1, 7) && limit > 0
    ensures var header := Header(true, false, false, "", "friend@example.com", ["me@example.org"], "hello-1", [], "");
            var input := Input(Server(1, [7]), false, limit, Known({}, {}, {}, {}), (u: nat) => Some(header), handling, (u: nat) => GoesOn);
            var s := Run(w, [input]);
            s.messages == map[] && s.verdicts == map[(1, 7) := Irrelevant] && s.cursor == Some(Cursor(7, 1))
  {
    var header := Header(true, false, false, "", "friend@example.com", ["me@example.org"], "hello-1", [], "");
    var input := Input(Server(1, [7]), false, limit, Known({}, {}, {}, {}), (u: nat) => Some(header), handling, (u: nat) => GoesOn);
    StrangersFate(w.us, input, header);
    SearchOfOne(w, input);
    var items := Items(w.us, input.known, [7], input.headers, handling);
    assert items == [Item(7, Judged(Irrelevant))];
    WorkOfOne(input.breaks, items);
    assert [input][..0] == [] && Run(w, [input]) == Poll(w, FRESH, input);
  }

  lemma WorkOfOne(breaks: nat -> Break, items: seq<Item>)
    requires items == [Item(7, Judged(Irrelevant))] && breaks(7) == GoesOn
    ensures Work(FRESH, 1, breaks, items) == Sync(Some(Cursor(7, 1)), map[], map[(1, 7) := Irrelevant])
  {
    assert items[..1] == items && items[..0] == [] && items[1..] == [];
    assert Deliver(map[], items) == map[];
    assert Judge(map[], 1, items) == Judge(map[], 1, items[..0])[(1, 7) := Irrelevant];
    assert Saved(FRESH, 1, items) == Sync(Some(Cursor(7, 1)), map[], map[(1, 7) := Irrelevant]);
  }

  lemma SearchOfOne(w: World, input: Input)
    requires input.server == Server(1, [7]) && !input.rescan && w.recent(1, 7) && input.limit > 0
    ensures Capped(w, None, input) == [7]
  {
    var recent, positive := (u: nat) => w.recent(1, u), (u: nat) => u > 0;
    assert [7][..0] == [] && Keep([7], recent) == [7] && Keep([7], positive) == [7];
  }

  lemma StrangersFate(us: Us, input: Input, header: Header)
    requires header.readable && !header.draft && header.from !in us.ours && header.thread == "" && header.refs == []
    requires input.known == Known({}, {}, {}, {}) && input.headers(7) == Some(header)
    ensures Items(us, input.known, [7], input.headers, input.handling)[0] == Item(7, Judged(Irrelevant))
  {
    FateExactly(us, input, [7], 0, Judged(Irrelevant));
  }
}
