/** Polling the outreach mailbox: the UID cursor, batches, quarantine, and losing the database anywhere. */
module MailboxSync {
  import opened Common

  // ---------------------------------------------------------------- the server's side

  /** The messages of one UIDVALIDITY, by UID. */
  datatype Server = Server(validity: nat, uids: seq<nat>)

  ghost predicate Ascending(uids: seq<nat>) {
    forall i, j :: 0 <= i < j < |uids| ==> uids[i] < uids[j]
  }

  function Keep(uids: seq<nat>, wanted: nat -> bool): seq<nat> {
    if uids == [] then []
    else
      var n := |uids| - 1;
      Keep(uids[..n], wanted) + if wanted(uids[n]) then [uids[n]] else []
  }

  /** The range `low:*` always contains the last message, even one below `low` (section 6.4.8 of RFC 3501). */
  function SearchFrom(uids: seq<nat>, low: nat): seq<nat> {
    var hits := Keep(uids, (u: nat) => u >= low);
    if hits == [] && uids != [] then [uids[|uids| - 1]] else hits
  }

  lemma {:induction false} KeepFinds(uids: seq<nat>, wanted: nat -> bool)
    requires Ascending(uids)
    ensures Ascending(Keep(uids, wanted))
    ensures forall u :: u in Keep(uids, wanted) <==> u in uids && wanted(u)
  {
    if uids != [] {
      var n := |uids| - 1;
      KeepFinds(uids[..n], wanted);
      forall u
        ensures u in uids <==> u in uids[..n] || u == uids[n]
      {
        assert uids == uids[..n] + [uids[n]];
      }
      forall u | u in uids[..n]
        ensures u < uids[n]
      {
        var i :| 0 <= i < n && uids[i] == u;
      }
      var kept := Keep(uids[..n], wanted);
      assert forall i :: 0 <= i < |kept| ==> kept[i] in kept;
    }
  }

  /** Dropping everything up to the floor leaves exactly the new messages: the extra last message is absorbed. */
  lemma FloorAbsorbs(uids: seq<nat>, floor: nat)
    requires Ascending(uids)
    ensures var newer := Keep(SearchFrom(uids, floor + 1), (u: nat) => u > floor);
            Ascending(newer) && forall u :: u in newer <==> u in uids && u > floor
  {
    KeepFinds(uids, (u: nat) => u >= floor + 1);
    KeepFinds(SearchFrom(uids, floor + 1), (u: nat) => u > floor);
    var hits := Keep(uids, (u: nat) => u >= floor + 1);
    if hits == [] && uids != [] {
      forall u | u in uids
        ensures u <= floor
      {
        assert u !in hits;
      }
    }
  }

  // ---------------------------------------------------------------- what is known before a message is opened

  /** A message as its headers show it; empty strings stand for missing fields. */
  datatype Header = Header(
    readable: bool, draft: bool, labelled: bool, thread: string, from: string, to: seq<string>,
    messageId: string, refs: seq<string>, outreach: string)

  datatype Known = Known(msgIds: set<string>, threads: set<string>, addresses: set<string>, domains: set<string>)

  /** Our own addresses and the business domain of an address, empty for private mail providers. */
  datatype Us = Us(ours: set<string>, domain: string -> string)

  function AddOutbound(k: Known, us: Us, messageId: string, thread: string, recipient: string): Known {
    Known(k.msgIds + {messageId},
          if thread == "" then k.threads else k.threads + {thread},
          k.addresses + {recipient},
          if us.domain(recipient) == "" then k.domains else k.domains + {us.domain(recipient)})
  }

  predicate Ours(h: Header, us: Us) {
    h.from in us.ours
  }

  /** Recipients other than ourselves, in order. */
  function Others(to: seq<string>, us: Us): seq<string> {
    if to == [] then [] else (if to[0] in us.ours then [] else [to[0]]) + Others(to[1..], us)
  }

  predicate Relevant(h: Header, us: Us, k: Known) {
    if h.draft then false
    else if Ours(h, us) then
      h.outreach != "ai-reply-draft"
      && (h.outreach != "" || h.labelled || exists t <- Others(h.to, us) :: t in k.addresses || us.domain(t) in k.domains)
    else
      h.thread in k.threads || (exists r <- h.refs :: r != "" && r in k.msgIds)
      || h.from in k.addresses || us.domain(h.from) in k.domains
  }

  /** Mail we sent is known from then on, so that replies later in the same batch are recognised. */
  function Learn(h: Header, us: Us, k: Known): Known {
    if Relevant(h, us, k) && Ours(h, us) && Others(h.to, us) != [] then
      AddOutbound(k, us, h.messageId, h.thread, Others(h.to, us)[0])
    else k
  }

  ghost predicate Knows(k: Known, k': Known) {
    k.msgIds <= k'.msgIds && k.threads <= k'.threads && k.addresses <= k'.addresses && k.domains <= k'.domains
  }

  /** The message answers one of ours: same thread, our message id, our recipient or the recipient's company. */
  predicate Answers(reply: Header, h: Header, us: Us)
    requires Others(h.to, us) != []
  {
    && !reply.draft && !Ours(reply, us)
    && (reply.thread == h.thread != "" || (h.messageId != "" && h.messageId in reply.refs)
        || reply.from == Others(h.to, us)[0] || us.domain(reply.from) == us.domain(Others(h.to, us)[0]) != "")
  }

  /** Learning never makes a message irrelevant, and after an outbound message is learned every later reply in its
      thread, to its id, from its recipient or from the recipient's company is relevant. */
  lemma LearningKeepsRelevance(h: Header, us: Us, k: Known, reply: Header)
    ensures Knows(k, Learn(h, us, k))
    ensures Relevant(reply, us, k) ==> Relevant(reply, us, Learn(h, us, k))
    ensures Relevant(h, us, k) && Ours(h, us) && Others(h.to, us) != [] && Answers(reply, h, us) ==>
              Relevant(reply, us, Learn(h, us, k))
  {
    var k' := Learn(h, us, k);
    if Ours(reply, us) && Relevant(reply, us, k) && reply.outreach == "" && !reply.labelled {
      var t :| t in Others(reply.to, us) && (t in k.addresses || us.domain(t) in k.domains);
      assert t in k'.addresses || us.domain(t) in k'.domains;
    }
    if !Ours(reply, us) && exists r <- reply.refs :: r != "" && r in k.msgIds {
      var r :| r in reply.refs && r != "" && r in k.msgIds;
      assert r in k'.msgIds;
    }
    if h.messageId != "" && h.messageId in reply.refs && k' != k {
      assert h.messageId in k'.msgIds;
    }
  }

  // ---------------------------------------------------------------- what becomes of one message

  /** How a message that is opened fares: stored under its provider id, handled without storing, failed, missing from the
      answer to the second fetch, or interrupted by losing the database before or after its own commit. */
  datatype Handling = Stores(providerId: string) | Leaves | Fails | Vanishes | LosesDatabase(committed: bool, providerId: string)

  /** What became of a message that a saved batch dealt with. Unfetched means that no answer contained it: the poll does
      not look at the status of its fetches, so such a message is passed over like any other. */
  datatype Verdict = Irrelevant | Stored(providerId: string) | HandledOnly | Quarantined | Unfetched

  /** A verdict, or the end of the poll. */
  datatype Fate = Judged(verdict: Verdict) | Lost(committed: bool, providerId: string)

  datatype Item = Item(uid: nat, fate: Fate)

  /** A poll may also end outside the messages: before a batch is read, or before the cursor is saved behind it. */
  datatype Break = GoesOn | EndsBefore | EndsUnsaved

  /** What one poll meets: the mailbox, what the database knows, how each message fares, and whether the poll ends around
      the batch that finishes with a given message. */
  datatype Input = Input(
    server: Server, rescan: bool, limit: nat, known: Known,
    headers: nat -> Option<Header>, handling: nat -> Handling, breaks: nat -> Break)

  /** The message is relevant and is opened. */
  predicate Opened(us: Us, k: Known, h: Option<Header>) {
    h.Some? && h.value.readable && Relevant(h.value, us, k)
  }

  function FateOf(us: Us, k: Known, h: Option<Header>, handling: Handling): Fate {
    if h == None then Judged(Unfetched)
    else if !h.value.readable then Judged(Quarantined)
    else if !Relevant(h.value, us, k) then Judged(Irrelevant)
    else FateOpened(handling)
  }

  function FateOpened(handling: Handling): Fate {
    match handling
    case Stores(providerId) => Judged(Stored(providerId))
    case Leaves => Judged(HandledOnly)
    case Fails => Judged(Quarantined)
    case Vanishes => Judged(Unfetched)
    case LosesDatabase(committed, providerId) => Lost(committed, providerId)
  }

  function LearnFrom(us: Us, k: Known, h: Option<Header>): Known {
    if h.Some? && h.value.readable then Learn(h.value, us, k) else k
  }

  /** What is known after the headers of these messages have been looked at. */
  function KnownAfter(us: Us, k: Known, uids: seq<nat>, headers: nat -> Option<Header>): Known {
    if uids == [] then k
    else LearnFrom(us, KnownAfter(us, k, uids[..|uids| - 1], headers), headers(uids[|uids| - 1]))
  }

  /** Each message with its fate, relevance being decided by what was known when its turn came. */
  function Items(us: Us, k: Known, uids: seq<nat>, headers: nat -> Option<Header>, handling: nat -> Handling): (items: seq<Item>)
    ensures |items| == |uids| && forall j :: 0 <= j < |uids| ==> items[j].uid == uids[j]
  {
    if uids == [] then []
    else
      var n := |uids| - 1;
      Items(us, k, uids[..n], headers, handling)
      + [Item(uids[n], FateOf(us, KnownAfter(us, k, uids[..n], headers), headers(uids[n]), handling(uids[n])))]
  }

  lemma KnownSnoc(us: Us, k: Known, uids: seq<nat>, u: nat, headers: nat -> Option<Header>)
    ensures KnownAfter(us, k, uids + [u], headers) == LearnFrom(us, KnownAfter(us, k, uids, headers), headers(u))
  {
    assert (uids + [u])[..|uids|] == uids;
  }

  lemma {:induction false} KnownSplit(us: Us, k: Known, a: seq<nat>, b: seq<nat>, headers: nat -> Option<Header>)
    ensures KnownAfter(us, k, a + b, headers) == KnownAfter(us, KnownAfter(us, k, a, headers), b, headers)
  {
    if b == [] {
      assert a + b == a;
    } else {
      var front, last := b[..|b| - 1], b[|b| - 1];
      KnownSplit(us, k, a, front, headers);
      assert a + b == (a + front) + [last] && b == front + [last];
      KnownSnoc(us, k, a + front, last, headers);
      KnownSnoc(us, KnownAfter(us, k, a, headers), front, last, headers);
    }
  }

  /** The fates of a list are those of its first part, and those of the rest given what the first part taught. */
  lemma {:induction false} ItemsSplit(us: Us, k: Known, a: seq<nat>, b: seq<nat>, headers: nat -> Option<Header>, handling: nat -> Handling)
    ensures Items(us, k, a + b, headers, handling)
         == Items(us, k, a, headers, handling) + Items(us, KnownAfter(us, k, a, headers), b, headers, handling)
  {
    if b == [] {
      assert a + b == a;
    } else {
      var n := |b| - 1;
      ItemsSplit(us, k, a, b[..n], headers, handling);
      KnownSplit(us, k, a, b[..n], headers);
      assert (a + b)[..|a + b| - 1] == a + b[..n];
    }
  }

  lemma {:induction false} ItemFate(us: Us, k: Known, uids: seq<nat>, headers: nat -> Option<Header>, handling: nat -> Handling, j: nat)
    requires j < |uids|
    ensures Items(us, k, uids, headers, handling)[j]
         == Item(uids[j], FateOf(us, KnownAfter(us, k, uids[..j], headers), headers(uids[j]), handling(uids[j])))
  {
    var n := |uids| - 1;
    if j < n {
      ItemFate(us, k, uids[..n], headers, handling, j);
      assert uids[..n][..j] == uids[..j];
    }
  }

  // ---------------------------------------------------------------- polling

  datatype Cursor = Cursor(lastUid: nat, validity: nat)

  /** The cursor row and the stored messages, each with the UID it was first stored from; beside them, for the account
      of what happened, the last verdict on every message that a saved batch dealt with. */
  datatype Sync = Sync(cursor: Option<Cursor>, messages: map<string, nat>, verdicts: map<(nat, nat), Verdict>)

  /** Our addresses, and whether a message of a validity falls in the date window of a first search or a rescan. */
  datatype World = World(us: Us, recent: (nat, nat) -> bool)

  function LastUid(cursor: Option<Cursor>, validity: nat): nat {
    if cursor.Some? && cursor.value.validity == validity then cursor.value.lastUid else 0
  }

  predicate Continues(cursor: Option<Cursor>, input: Input) {
    cursor.Some? && cursor.value.validity == input.server.validity && !input.rescan
  }

  /** What one poll looks at: everything past the cursor, or the date window on a first run or a rescan. */
  function Search(w: World, cursor: Option<Cursor>, input: Input): seq<nat> {
    if Continues(cursor, input) then
      var floor := cursor.value.lastUid;
      Keep(SearchFrom(input.server.uids, floor + 1), (u: nat) => u > floor)
    else
      var v := input.server.validity;
      Keep(Keep(input.server.uids, (u: nat) => w.recent(v, u)), (u: nat) => u > 0)
  }

  lemma SearchFinds(w: World, cursor: Option<Cursor>, input: Input)
    requires Ascending(input.server.uids)
    ensures Ascending(Search(w, cursor, input))
    ensures forall u :: u in Search(w, cursor, input) <==> u in input.server.uids && Sought(w, cursor, input, u)
  {
    if Continues(cursor, input) {
      FloorAbsorbs(input.server.uids, cursor.value.lastUid);
    } else {
      WindowFinds(w, input.server);
    }
  }

  /** The poll is meant to see the message. */
  predicate Sought(w: World, cursor: Option<Cursor>, input: Input, u: nat) {
    if Continues(cursor, input) then u > cursor.value.lastUid else w.recent(input.server.validity, u) && u > 0
  }

  lemma WindowFinds(w: World, server: Server)
    requires Ascending(server.uids)
    ensures var v := server.validity;
            var found := Keep(Keep(server.uids, (u: nat) => w.recent(v, u)), (u: nat) => u > 0);
            Ascending(found) && forall u :: u in found <==> u in server.uids && w.recent(v, u) && u > 0
  {
    var v := server.validity;
    KeepFinds(server.uids, (u: nat) => w.recent(v, u));
    KeepFinds(Keep(server.uids, (u: nat) => w.recent(v, u)), (u: nat) => u > 0);
  }

  /** A provider id is stored once, from the first message that carries it. */
  function Insert(messages: map<string, nat>, providerId: string, uid: nat): map<string, nat> {
    if providerId in messages then messages else messages[providerId := uid]
  }

  predicate Carries(fate: Fate, providerId: string) {
    fate == Judged(Stored(providerId)) || fate == Lost(true, providerId)
  }

  function Put(messages: map<string, nat>, item: Item): map<string, nat> {
    match item.fate
    case Judged(Stored(providerId)) => Insert(messages, providerId, item.uid)
    case Lost(true, providerId) => Insert(messages, providerId, item.uid)
    case _ => messages
  }

  predicate Survives(items: seq<Item>) {
    forall item <- items :: item.fate.Judged?
  }

  /** The stored messages after a batch: each message commits on its own, up to the one that loses the database. */
  function Deliver(messages: map<string, nat>, items: seq<Item>): map<string, nat>
    decreases |items|
  {
    if items == [] then messages
    else if items[0].fate.Lost? then Put(messages, items[0])
    else Deliver(Put(messages, items[0]), items[1..])
  }

  function Judge(verdicts: map<(nat, nat), Verdict>, v: nat, items: seq<Item>): map<(nat, nat), Verdict>
    requires Survives(items)
  {
    if items == [] then verdicts
    else
      var n := |items| - 1;
      assert items[n] in items;
      Judge(verdicts, v, items[..n])[(v, items[n].uid) := items[n].fate.verdict]
  }

  function Larger(a: nat, b: nat): nat {
    if a < b then b else a
  }

  /** A batch that survived: its messages have their verdicts and the cursor moves behind it. */
  function Saved(s: Sync, v: nat, batch: seq<Item>): Sync
    requires batch != [] && Survives(batch)
  {
    s.(messages := Deliver(s.messages, batch),
       verdicts := Judge(s.verdicts, v, batch),
       cursor := Some(Cursor(Larger(LastUid(s.cursor, v), batch[|batch| - 1].uid), v)))
  }

  function BatchSize(n: nat): nat {
    if n < 100 then n else 100
  }

  predicate Saves(batch: seq<Item>, end: Break) {
    end == GoesOn && Survives(batch)
  }

  /** Batches of a hundred, until the list is done or the poll ends early. */
  function Work(s: Sync, v: nat, breaks: nat -> Break, items: seq<Item>): Sync
    decreases |items|
  {
    if items == [] then s
    else
      var n := BatchSize(|items|);
      if breaks(items[n - 1].uid) == EndsBefore then s
      else if Saves(items[..n], breaks(items[n - 1].uid)) then Work(Saved(s, v, items[..n]), v, breaks, items[n..])
      else s.(messages := Deliver(s.messages, items[..n]))
  }

  /** How many messages are in the batches that were saved. */
  function Finished(breaks: nat -> Break, items: seq<Item>): (f: nat)
    ensures f <= |items|
    decreases |items|
  {
    if items == [] then 0
    else
      var n := BatchSize(|items|);
      if Saves(items[..n], breaks(items[n - 1].uid)) then n + Finished(breaks, items[n..]) else 0
  }

  function Capped(w: World, cursor: Option<Cursor>, input: Input): seq<nat> {
    var uids := Search(w, cursor, input);
    if |uids| <= input.limit then uids else uids[..input.limit]
  }

  function Worklist(w: World, cursor: Option<Cursor>, input: Input): seq<Item> {
    Items(w.us, input.known, Capped(w, cursor, input), input.headers, input.handling)
  }

  function Poll(w: World, s: Sync, input: Input): Sync {
    Work(s, input.server.validity, input.breaks, Worklist(w, s.cursor, input))
  }

  const FRESH := Sync(None, map[], map[])

  function Run(w: World, polls: seq<Input>): Sync {
    if polls == [] then FRESH else Poll(w, Run(w, polls[..|polls| - 1]), polls[|polls| - 1])
  }
}
