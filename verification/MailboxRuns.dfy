/** What every poll of the outreach mailbox keeps, wherever it stops, and what every run of polls adds up to. */
module MailboxRuns {
  import opened Common
  import opened MailboxSync

  // ---------------------------------------------------------------- one batch

  ghost predicate Extends(before: map<string, nat>, after: map<string, nat>) {
    forall p <- before :: p in after && after[p] == before[p]
  }

  lemma {:induction false} DeliverKeeps(messages: map<string, nat>, items: seq<Item>)
    decreases |items|
    ensures Extends(messages, Deliver(messages, items))
    ensures forall p <- Deliver(messages, items) :: p in messages
              || exists item <- items :: Carries(item.fate, p) && item.uid == Deliver(messages, items)[p]
  {
    if items != [] && items[0].fate.Judged? {
      DeliverKeeps(Put(messages, items[0]), items[1..]);
      assert forall item <- items[1..] :: item in items;
    }
  }

  /** Every message of a surviving batch that is judged stored is stored. */
  lemma {:induction false} DeliverStores(messages: map<string, nat>, items: seq<Item>)
    decreases |items|
    requires Survives(items)
    ensures forall item <- items :: item.fate.verdict.Stored? ==> item.fate.verdict.providerId in Deliver(messages, items)
  {
    if items != [] {
      assert items[0] in items;
      assert forall item <- items[1..] :: item in items;
      DeliverStores(Put(messages, items[0]), items[1..]);
      DeliverKeeps(Put(messages, items[0]), items[1..]);
      assert forall item <- items :: item == items[0] || item in items[1..];
    }
  }

  ghost predicate AscendingItems(items: seq<Item>) {
    forall i, j :: 0 <= i < j < |items| ==> items[i].uid < items[j].uid
  }

  ghost predicate Listed(items: seq<Item>, uid: nat) {
    exists item <- items :: item.uid == uid
  }

  ghost predicate FatesReached(verdicts: map<(nat, nat), Verdict>, v: nat, items: seq<Item>) {
    forall item <- items :: (v, item.uid) in verdicts && item.fate == Judged(verdicts[(v, item.uid)])
  }

  /** Every message of a surviving batch gets the verdict that is its fate. */
  lemma {:induction false} JudgeOne(verdicts: map<(nat, nat), Verdict>, v: nat, items: seq<Item>, j: nat)
    requires Survives(items) && AscendingItems(items) && j < |items|
    ensures var key := (v, items[j].uid);
            key in Judge(verdicts, v, items) && items[j].fate == Judged(Judge(verdicts, v, items)[key])
  {
    var n := |items| - 1;
    var front := items[..n];
    assert items[n] in items && forall item <- front :: item in items;
    if j < n {
      JudgeOne(verdicts, v, front, j);
      assert front[j] == items[j] && items[j].uid < items[n].uid;
    }
  }

  lemma JudgeExact(verdicts: map<(nat, nat), Verdict>, v: nat, items: seq<Item>)
    requires Survives(items) && AscendingItems(items)
    ensures FatesReached(Judge(verdicts, v, items), v, items)
  {
    forall item | item in items
      ensures (v, item.uid) in Judge(verdicts, v, items) && item.fate == Judged(Judge(verdicts, v, items)[(v, item.uid)])
    {
      var j :| 0 <= j < |items| && items[j] == item;
      JudgeOne(verdicts, v, items, j);
    }
  }

  /** And nothing else gets one. */
  lemma {:induction false} JudgeOnly(verdicts: map<(nat, nat), Verdict>, v: nat, items: seq<Item>)
    requires Survives(items)
    ensures forall key <- verdicts :: key in Judge(verdicts, v, items)
    ensures forall key <- Judge(verdicts, v, items) :: key.0 != v || !Listed(items, key.1) ==>
              key in verdicts && Judge(verdicts, v, items)[key] == verdicts[key]
  {
    if items != [] {
      var n := |items| - 1;
      assert forall item <- items[..n] :: item in items;
      JudgeOnly(verdicts, v, items[..n]);
      assert items[n] in items;
    }
  }

  lemma {:induction false} JudgeTwice(verdicts: map<(nat, nat), Verdict>, v: nat, a: seq<Item>, b: seq<Item>)
    requires Survives(a) && Survives(b) && Survives(a + b)
    ensures Judge(Judge(verdicts, v, a), v, b) == Judge(verdicts, v, a + b)
  {
    if b == [] {
      assert a + b == a;
    } else {
      var n := |b| - 1;
      assert forall item <- b[..n] :: item in b;
      assert (a + b)[..|a + b| - 1] == a + b[..n];
      assert forall item <- a + b[..n] :: item in a + b;
      JudgeTwice(verdicts, v, a, b[..n]);
    }
  }

  // ---------------------------------------------------------------- one worklist

  /** Where the cursor stands after the first `f` messages of a list were saved. */
  function CursorAfter(cursor: Option<Cursor>, v: nat, items: seq<Item>, f: nat): Option<Cursor>
    requires f <= |items|
  {
    if f == 0 then cursor else Some(Cursor(Larger(LastUid(cursor, v), items[f - 1].uid), v))
  }

  lemma {:induction false} FinishedSurvive(breaks: nat -> Break, items: seq<Item>)
    ensures Survives(items[..Finished(breaks, items)])
    decreases |items|
  {
    if items != [] {
      var n := BatchSize(|items|);
      var batch, rest := items[..n], items[n..];
      if Saves(batch, breaks(items[n - 1].uid)) {
        FinishedSurvive(breaks, rest);
        assert items[..n + Finished(breaks, rest)] == batch + rest[..Finished(breaks, rest)];
      }
    }
  }

  lemma SavedVerdicts(s: Sync, v: nat, batch: seq<Item>, done: seq<Item>)
    requires batch != [] && Survives(batch) && Survives(done) && Survives(batch + done)
    ensures Judge(Saved(s, v, batch).verdicts, v, done) == Judge(s.verdicts, v, batch + done)
  {
    JudgeTwice(s.verdicts, v, batch, done);
  }

  /** However the batches end, the verdicts are those of the messages that were saved, taken together. */
  lemma {:induction false} WorkVerdicts(s: Sync, v: nat, breaks: nat -> Break, items: seq<Item>)
    requires Survives(items[..Finished(breaks, items)])
    ensures Work(s, v, breaks, items).verdicts == Judge(s.verdicts, v, items[..Finished(breaks, items)])
    decreases |items|
  {
    if items != [] {
      var n := BatchSize(|items|);
      var batch, rest := items[..n], items[n..];
      if Saves(batch, breaks(items[n - 1].uid)) {
        FinishedSurvive(breaks, rest);
        WorkVerdicts(Saved(s, v, batch), v, breaks, rest);
        assert items[..n + Finished(breaks, rest)] == batch + rest[..Finished(breaks, rest)];
        SavedVerdicts(s, v, batch, rest[..Finished(breaks, rest)]);
      } else {
        assert items[..0] == [];
      }
    }
  }

  lemma CursorJoin(cursor: Option<Cursor>, v: nat, items: seq<Item>, n: nat, f: nat)
    requires AscendingItems(items) && n > 0 && n + f <= |items|
    ensures CursorAfter(CursorAfter(cursor, v, items, n), v, items[n..], f) == CursorAfter(cursor, v, items, n + f)
  {
    if f > 0 {
      assert items[n..][f - 1] == items[n + f - 1];
    }
  }

  lemma SavedCursor(s: Sync, v: nat, items: seq<Item>, n: nat)
    requires 0 < n <= |items| && Survives(items[..n])
    ensures Saved(s, v, items[..n]).cursor == CursorAfter(s.cursor, v, items, n)
  {
    assert items[..n][n - 1] == items[n - 1];
  }

  /** And the cursor stands behind the last of them. */
  lemma {:induction false} WorkCursor(s: Sync, v: nat, breaks: nat -> Break, items: seq<Item>)
    requires AscendingItems(items)
    ensures Work(s, v, breaks, items).cursor == CursorAfter(s.cursor, v, items, Finished(breaks, items))
    decreases |items|
  {
    if items != [] {
      var n := BatchSize(|items|);
      if Saves(items[..n], breaks(items[n - 1].uid)) {
        SavedCursor(s, v, items, n);
        WorkCursor(Saved(s, v, items[..n]), v, breaks, items[n..]);
        CursorJoin(s.cursor, v, items, n, Finished(breaks, items[n..]));
      }
    }
  }

  /** Whatever is stored stays, and whatever a poll stores comes from a message whose fate was to be stored. */
  lemma {:induction false} WorkStores(s: Sync, v: nat, breaks: nat -> Break, items: seq<Item>)
    ensures var after := Work(s, v, breaks, items).messages;
            && Extends(s.messages, after)
            && forall p <- after :: p in s.messages || exists item <- items :: Carries(item.fate, p) && item.uid == after[p]
    decreases |items|
  {
    if items != [] {
      var n := BatchSize(|items|);
      DeliverKeeps(s.messages, items[..n]);
      assert forall item <- items[..n] :: item in items;
      if Saves(items[..n], breaks(items[n - 1].uid)) {
        WorkStores(Saved(s, v, items[..n]), v, breaks, items[n..]);
        assert forall item <- items[n..] :: item in items;
      }
    }
  }

  /** What a saved message was judged to be stored as is stored. */
  ghost predicate StoredVerdicts(s: Sync) {
    forall key <- s.verdicts :: s.verdicts[key].Stored? ==> s.verdicts[key].providerId in s.messages
  }

  lemma {:induction false} WorkKeepsStoredVerdicts(s: Sync, v: nat, breaks: nat -> Break, items: seq<Item>)
    requires StoredVerdicts(s) && AscendingItems(items)
    ensures StoredVerdicts(Work(s, v, breaks, items))
    decreases |items|
  {
    if items != [] {
      var n := BatchSize(|items|);
      DeliverKeeps(s.messages, items[..n]);
      if Saves(items[..n], breaks(items[n - 1].uid)) {
        SavedStoredVerdicts(s, v, items[..n]);
        WorkKeepsStoredVerdicts(Saved(s, v, items[..n]), v, breaks, items[n..]);
      }
    }
  }

  lemma SavedStoredVerdicts(s: Sync, v: nat, batch: seq<Item>)
    requires StoredVerdicts(s) && AscendingItems(batch) && batch != [] && Survives(batch)
    ensures StoredVerdicts(Saved(s, v, batch))
  {
    DeliverKeeps(s.messages, batch);
    DeliverStores(s.messages, batch);
    JudgeExact(s.verdicts, v, batch);
    JudgeOnly(s.verdicts, v, batch);
    var after := Saved(s, v, batch);
    forall key | key in after.verdicts && after.verdicts[key].Stored?
      ensures after.verdicts[key].providerId in after.messages
    {
      if key.0 == v && Listed(batch, key.1) {
        var item :| item in batch && item.uid == key.1;
        assert item.fate == Judged(after.verdicts[key]);
      }
    }
  }

  /** The batch of a list that begins at this place: a hundred messages, or what is left. */
  function BatchAt(items: seq<Item>, from: nat): (batch: seq<Item>)
    requires from < |items|
    ensures batch != []
  {
    if from + 100 <= |items| then items[from..from + 100] else items[from..]
  }

  /** Every message of the batch survived, and the poll went on behind its last one. */
  predicate BatchSaved(breaks: nat -> Break, batch: seq<Item>)
    requires batch != []
  {
    (forall item <- batch :: item.fate.Judged?) && breaks(batch[|batch| - 1].uid) == GoesOn
  }

  /** A poll saves its list by the hundred, up to the first batch that loses the database or behind which it ends. */
  lemma {:induction false} SavesToTheFirstBreak(breaks: nat -> Break, items: seq<Item>)
    requires Finished(breaks, items) < |items|
    ensures Finished(breaks, items) % 100 == 0 && !BatchSaved(breaks, BatchAt(items, Finished(breaks, items)))
    decreases |items|
  {
    var n := BatchSize(|items|);
    assert items[..n] == BatchAt(items, 0);
    if Saves(items[..n], breaks(items[n - 1].uid)) {
      SavesToTheFirstBreak(breaks, items[n..]);
      LaterBatch(items, Finished(breaks, items[n..]));
    }
  }

  /** And every batch before that was saved. */
  lemma {:induction false} SavedBefore(breaks: nat -> Break, items: seq<Item>, b: nat)
    requires 100 * b < Finished(breaks, items)
    ensures BatchSaved(breaks, BatchAt(items, 100 * b))
    decreases |items|
  {
    var n := BatchSize(|items|);
    assert items[..n] == BatchAt(items, 0);
    if b > 0 {
      SavedBefore(breaks, items[n..], b - 1);
      LaterBatch(items, 100 * (b - 1));
    }
  }

  lemma LaterBatch(items: seq<Item>, from: nat)
    requires from + 100 < |items|
    ensures BatchAt(items[100..], from) == BatchAt(items, from + 100)
  {
  }

  // ---------------------------------------------------------------- one poll

  /** How many messages of its worklist the poll saved. */
  function Span(w: World, cursor: Option<Cursor>, input: Input): (n: nat)
    ensures n <= |Capped(w, cursor, input)|
  {
    Finished(input.breaks, Worklist(w, cursor, input))
  }

  /** The poll saved a batch with this message in it. */
  ghost predicate Judges(w: World, cursor: Option<Cursor>, input: Input, v: nat, u: nat) {
    v == input.server.validity && u in Capped(w, cursor, input)[..Span(w, cursor, input)]
  }

  lemma CappedAscending(w: World, cursor: Option<Cursor>, input: Input)
    requires Ascending(input.server.uids)
    ensures var uids := Capped(w, cursor, input);
            Ascending(uids) && uids <= Search(w, cursor, input) && AscendingItems(Worklist(w, cursor, input))
  {
    SearchFinds(w, cursor, input);
  }

  /** A poll judges only what it was meant to see. */
  lemma JudgedIsSought(w: World, cursor: Option<Cursor>, input: Input, v: nat, u: nat)
    requires Ascending(input.server.uids) && Judges(w, cursor, input, v, u)
    ensures u in Search(w, cursor, input) && u in input.server.uids && Sought(w, cursor, input, u)
  {
    CappedAscending(w, cursor, input);
    SearchFinds(w, cursor, input);
  }

  ghost predicate HasFate(items: seq<Item>, u: nat, verdict: Verdict) {
    exists item <- items :: item.uid == u && item.fate == Judged(verdict)
  }

  lemma JudgeLookup(verdicts: map<(nat, nat), Verdict>, v: nat, items: seq<Item>, key: (nat, nat))
    requires Survives(items) && AscendingItems(items)
    ensures var after, hit := Judge(verdicts, v, items), key.0 == v && Listed(items, key.1);
            && (key in after <==> key in verdicts || hit)
            && (hit ==> HasFate(items, key.1, after[key]))
            && (!hit && key in verdicts ==> after[key] == verdicts[key])
  {
    JudgeExact(verdicts, v, items);
    JudgeOnly(verdicts, v, items);
    if key.0 == v && Listed(items, key.1) {
      var item :| item in items && item.uid == key.1;
      assert item.fate == Judged(Judge(verdicts, v, items)[(v, item.uid)]);
    }
  }

  lemma ListedUids(us: Us, k: Known, uids: seq<nat>, headers: nat -> Option<Header>, handling: nat -> Handling, f: nat, u: nat)
    requires f <= |uids|
    ensures Listed(Items(us, k, uids, headers, handling)[..f], u) <==> u in uids[..f]
  {
    var items := Items(us, k, uids, headers, handling);
    if u in uids[..f] {
      var j :| 0 <= j < f && uids[..f][j] == u;
      assert items[..f][j].uid == u && items[..f][j] in items[..f];
    }
    if Listed(items[..f], u) {
      var item :| item in items[..f] && item.uid == u;
      var j :| 0 <= j < f && items[..f][j] == item;
      assert uids[..f][j] == u;
    }
  }

  /** The verdicts after a poll: those it judged anew have the fate of their message, the others stay. */
  lemma PollVerdicts(w: World, s: Sync, input: Input, v: nat, u: nat)
    requires Ascending(input.server.uids)
    ensures var after, now := Poll(w, s, input).verdicts, Judges(w, s.cursor, input, v, u);
            && ((v, u) in after <==> (v, u) in s.verdicts || now)
            && (now ==> HasFate(Worklist(w, s.cursor, input)[..Span(w, s.cursor, input)], u, after[(v, u)]))
            && (!now && (v, u) in s.verdicts ==> after[(v, u)] == s.verdicts[(v, u)])
  {
    var items, f := Worklist(w, s.cursor, input), Span(w, s.cursor, input);
    CappedAscending(w, s.cursor, input);
    FinishedSurvive(input.breaks, items);
    WorkVerdicts(s, input.server.validity, input.breaks, items);
    JudgeLookup(s.verdicts, input.server.validity, items[..f], (v, u));
    ListedUids(w.us, input.known, Capped(w, s.cursor, input), input.headers, input.handling, f, u);
  }

  /** A poll looks at the first messages of its search, as many as its limit allows. */
  lemma CappedIs(w: World, cursor: Option<Cursor>, input: Input)
    ensures Capped(w, cursor, input) <= Search(w, cursor, input)
    ensures var found := |Search(w, cursor, input)|; |Capped(w, cursor, input)| == if found < input.limit then found else input.limit
  {
  }

  /** The cursor after a poll: it stays, or moves to a message that the poll saved and the mailbox held. */
  lemma PollCursor(w: World, s: Sync, input: Input)
    requires Ascending(input.server.uids)
    ensures var before, after, v := LastUid(s.cursor, input.server.validity), Poll(w, s, input).cursor, input.server.validity;
            var uids, f := Capped(w, s.cursor, input), Span(w, s.cursor, input);
            after == s.cursor
            || (after.Some? && after.value.validity == v && before <= after.value.lastUid
                && f > 0 && after.value.lastUid == uids[f - 1] && after.value.lastUid in input.server.uids)
    ensures var before, v := LastUid(s.cursor, input.server.validity), input.server.validity;
            var uids, f := Capped(w, s.cursor, input), Span(w, s.cursor, input);
            f > 0 ==> Poll(w, s, input).cursor == Some(Cursor(Larger(before, uids[f - 1]), v))
  {
    CappedAscending(w, s.cursor, input);
    SearchFinds(w, s.cursor, input);
    WorkCursor(s, input.server.validity, input.breaks, Worklist(w, s.cursor, input));
  }

  /** When a poll moves the cursor past a message of the mailbox, it judges the message exactly if it was meant to see it. */
  lemma PollPasses(w: World, s: Sync, input: Input, u: nat)
    requires Ascending(input.server.uids) && u in input.server.uids
    requires LastUid(s.cursor, input.server.validity) < u <= LastUid(Poll(w, s, input).cursor, input.server.validity)
    ensures Judges(w, s.cursor, input, input.server.validity, u) <==> Sought(w, s.cursor, input, u)
  {
    var found, uids, f := Search(w, s.cursor, input), Capped(w, s.cursor, input), Span(w, s.cursor, input);
    CappedAscending(w, s.cursor, input);
    SearchFinds(w, s.cursor, input);
    PollCursor(w, s, input);
    if Sought(w, s.cursor, input, u) {
      var j :| 0 <= j < |found| && found[j] == u;
      assert found[f - 1] == uids[f - 1];
      assert uids[..f][j] == u;
    }
  }

  // ---------------------------------------------------------------- read or passed over

  /** The first fetch answered with the header of the message and, where the message was relevant, the second with its body. */
  predicate Fetched(us: Us, input: Input, uids: seq<nat>, j: nat)
    requires j < |uids|
  {
    var h := input.headers(uids[j]);
    h.Some? && (Opened(us, KnownAfter(us, input.known, uids[..j], input.headers), h) ==> input.handling(uids[j]) != Vanishes)
  }

  ghost predicate FetchedIn(w: World, cursor: Option<Cursor>, input: Input, u: nat) {
    var uids := Capped(w, cursor, input);
    exists j :: 0 <= j < |uids| && uids[j] == u && Fetched(w.us, input, uids, j)
  }

  /** A fate other than unfetched means that the message was fetched. */
  lemma FateTells(us: Us, input: Input, uids: seq<nat>, f: nat, u: nat, verdict: Verdict)
    requires Ascending(uids) && f <= |uids|
    requires HasFate(Items(us, input.known, uids, input.headers, input.handling)[..f], u, verdict)
    ensures verdict != Unfetched <==> exists j :: 0 <= j < |uids| && uids[j] == u && Fetched(us, input, uids, j)
  {
    var items := Items(us, input.known, uids, input.headers, input.handling);
    var item :| item in items[..f] && item.uid == u && item.fate == Judged(verdict);
    var j :| 0 <= j < f && items[..f][j] == item;
    ItemFate(us, input.known, uids, input.headers, input.handling, j);
    assert uids[j] == u && (verdict != Unfetched <==> Fetched(us, input, uids, j));
    assert forall i :: 0 <= i < |uids| && uids[i] == u ==> i == j;
  }

  /** What one poll does to one message. */
  lemma PollReads(w: World, s: Sync, input: Input, v: nat, u: nat)
    requires Ascending(input.server.uids) && Judges(w, s.cursor, input, v, u)
    ensures (v, u) in Poll(w, s, input).verdicts
    ensures Poll(w, s, input).verdicts[(v, u)] != Unfetched <==> FetchedIn(w, s.cursor, input, u)
  {
    CappedAscending(w, s.cursor, input);
    PollVerdicts(w, s, input, v, u);
    FateTells(w.us, input, Capped(w, s.cursor, input), Span(w, s.cursor, input), u, Poll(w, s, input).verdicts[(v, u)]);
  }

  /** The last poll that judged the message. */
  ghost function JudgedBy(w: World, polls: seq<Input>, v: nat, u: nat): (k: Option<nat>)
    ensures k.Some? ==> k.value < |polls|
  {
    if polls == [] then None
    else
      var n := |polls| - 1;
      if Judges(w, Run(w, polls[..n]).cursor, polls[n], v, u) then Some(n) else JudgedBy(w, polls[..n], v, u)
  }

  ghost predicate AllAscending(polls: seq<Input>) {
    forall i :: 0 <= i < |polls| ==> Ascending(polls[i].server.uids)
  }

  /** The fetches of poll `k` of the run contained the message. */
  ghost predicate FetchedBy(w: World, polls: seq<Input>, k: nat, u: nat)
    requires k < |polls|
  {
    FetchedIn(w, Run(w, polls[..k]).cursor, polls[k], u)
  }

  lemma FetchedByPrefix(w: World, polls: seq<Input>, n: nat, k: nat, u: nat)
    requires k < n <= |polls|
    ensures FetchedBy(w, polls[..n], k, u) <==> FetchedBy(w, polls, k, u)
  {
    assert polls[..n][..k] == polls[..k] && polls[..n][k] == polls[k];
  }

  /** A poll judged the message, and the verdict is other than unfetched exactly when the last one that did was given the
      header and, where relevant, the body. */
  ghost predicate ReadIfFetched(w: World, polls: seq<Input>, v: nat, u: nat) {
    var k := JudgedBy(w, polls, v, u);
    && k.Some? && (v, u) in Run(w, polls).verdicts
    && (Run(w, polls).verdicts[(v, u)] != Unfetched <==> FetchedBy(w, polls, k.value, u))
  }

  /** A reading lasts as long as no later poll judges the message again. */
  lemma ReadingStays(w: World, polls: seq<Input>, v: nat, u: nat)
    requires polls != [] && AllAscending(polls) && ReadIfFetched(w, polls[..|polls| - 1], v, u)
    requires !Judges(w, Run(w, polls[..|polls| - 1]).cursor, polls[|polls| - 1], v, u)
    ensures ReadIfFetched(w, polls, v, u)
  {
    var n := |polls| - 1;
    var k := JudgedBy(w, polls[..n], v, u).value;
    PollVerdicts(w, Run(w, polls[..n]), polls[n], v, u);
    FetchedByPrefix(w, polls, n, k, u);
  }

  /** Over every run, a message has a verdict exactly when a poll judged it, and then it was read exactly when that poll's
      fetches contained it: irrelevant, stored, handled and quarantined messages were, an unfetched one was not. */
  lemma {:induction false} VerdictsAreReadings(w: World, polls: seq<Input>, v: nat, u: nat)
    requires AllAscending(polls)
    ensures (v, u) in Run(w, polls).verdicts <==> JudgedBy(w, polls, v, u).Some?
    ensures (v, u) in Run(w, polls).verdicts ==> ReadIfFetched(w, polls, v, u)
  {
    if polls != [] {
      var n := |polls| - 1;
      var s := Run(w, polls[..n]);
      VerdictsAreReadings(w, polls[..n], v, u);
      PollVerdicts(w, s, polls[n], v, u);
      if Judges(w, s.cursor, polls[n], v, u) {
        PollReads(w, s, polls[n], v, u);
      } else if (v, u) in s.verdicts {
        ReadingStays(w, polls, v, u);
      }
    }
  }

  // ---------------------------------------------------------------- mailboxes that change

  /** How a mailbox changes, as section 2.3.1.1 of RFC 3501 has it: a new validity is larger than the old, and under the
      same validity mail may disappear and new mail gets larger UIDs than any before. */
  ghost predicate Later(earlier: Server, later: Server) {
    && earlier.validity <= later.validity
    && (earlier.validity == later.validity ==>
          forall u <- later.uids :: u in earlier.uids || forall x <- earlier.uids :: x < u)
  }

  ghost predicate WellFormed(server: Server) {
    Ascending(server.uids) && 0 !in server.uids
  }

  /** The mailbox comes after those of all polls. */
  ghost predicate Follows(polls: seq<Input>, server: Server) {
    WellFormed(server) && forall i :: 0 <= i < |polls| ==> Later(polls[i].server, server)
  }

  /** Each poll sees the mailbox after those before it did. */
  ghost predicate Changing(polls: seq<Input>) {
    polls == [] || (Changing(polls[..|polls| - 1]) && Follows(polls[..|polls| - 1], polls[|polls| - 1].server))
  }

  lemma {:induction false} ChangingAscending(polls: seq<Input>)
    requires Changing(polls)
    ensures AllAscending(polls)
  {
    if polls != [] {
      var n := |polls| - 1;
      ChangingAscending(polls[..n]);
      assert forall i :: 0 <= i < n ==> polls[..n][i] == polls[i];
    }
  }

  lemma {:induction false} ChangingPrefix(polls: seq<Input>, n: nat)
    requires Changing(polls) && n <= |polls|
    ensures Changing(polls[..n]) && AllAscending(polls[..n])
    ensures n < |polls| ==> Follows(polls[..n], polls[n].server)
  {
    if n == |polls| {
      assert polls[..n] == polls;
    } else if n < |polls| - 1 {
      var shorter := polls[..|polls| - 1];
      ChangingPrefix(shorter, n);
      assert shorter[..n] == polls[..n] && shorter[n] == polls[n];
    }
    ChangingAscending(polls[..n]);
  }

  lemma FollowsPrefix(polls: seq<Input>, server: Server, n: nat)
    requires Follows(polls, server) && n <= |polls|
    ensures Follows(polls[..n], server)
    ensures n < |polls| ==> Later(polls[n].server, server)
  {
  }

  /** Nothing stored is ever changed, by later polls or by reading a half-done batch again. */
  lemma {:induction false} StoredStays(w: World, polls: seq<Input>, n: nat)
    requires n <= |polls|
    ensures Extends(Run(w, polls[..n]).messages, Run(w, polls).messages)
  {
    if n == |polls| {
      assert polls[..n] == polls;
    } else {
      var shorter, last := polls[..|polls| - 1], polls[|polls| - 1];
      var s := Run(w, shorter);
      assert shorter[..n] == polls[..n];
      StoredStays(w, shorter, n);
      WorkStores(s, last.server.validity, last.breaks, Worklist(w, s.cursor, last));
    }
  }

  /** The cursor stands at a message that one of the polls was shown. */
  ghost predicate CursorSeen(cursor: Option<Cursor>, polls: seq<Input>) {
    cursor.Some? ==>
      exists k :: 0 <= k < |polls| && polls[k].server.validity == cursor.value.validity && cursor.value.lastUid in polls[k].server.uids
  }

  lemma {:induction false} RunCursorSeen(w: World, polls: seq<Input>)
    requires AllAscending(polls)
    ensures CursorSeen(Run(w, polls).cursor, polls)
  {
    if polls != [] {
      var n := |polls| - 1;
      RunCursorSeen(w, polls[..n]);
      NewCursorSeen(w, Run(w, polls[..n]), polls);
    }
  }

  lemma NewCursorSeen(w: World, s: Sync, polls: seq<Input>)
    requires polls != [] && CursorSeen(s.cursor, polls[..|polls| - 1])
    requires Ascending(polls[|polls| - 1].server.uids)
    ensures CursorSeen(Poll(w, s, polls[|polls| - 1]).cursor, polls)
  {
    var n := |polls| - 1;
    PollCursor(w, s, polls[n]);
    if s.cursor.Some? {
      var k :| 0 <= k < n && polls[..n][k].server.validity == s.cursor.value.validity && s.cursor.value.lastUid in polls[..n][k].server.uids;
      assert polls[k] == polls[..n][k];
    }
  }

  /** A mailbox that follows the polls has no smaller validity than the cursor. */
  lemma CursorNotAhead(w: World, polls: seq<Input>, server: Server)
    requires AllAscending(polls) && Follows(polls, server)
    ensures Run(w, polls).cursor.Some? ==> Run(w, polls).cursor.value.validity <= server.validity
  {
    RunCursorSeen(w, polls);
  }

  ghost predicate NotBehind(before: Option<Cursor>, after: Option<Cursor>) {
    before.Some? ==>
      && after.Some? && before.value.validity <= after.value.validity
      && (before.value.validity == after.value.validity ==> before.value.lastUid <= after.value.lastUid)
  }

  /** The cursor never goes back within one validity, and validities only grow. */
  lemma {:induction false} CursorForward(w: World, polls: seq<Input>, n: nat)
    requires n <= |polls| && Changing(polls)
    ensures NotBehind(Run(w, polls[..n]).cursor, Run(w, polls).cursor)
  {
    if n == |polls| {
      assert polls[..n] == polls;
    } else {
      var shorter, last := polls[..|polls| - 1], polls[|polls| - 1];
      assert shorter[..n] == polls[..n];
      ChangingPrefix(polls, |polls| - 1);
      CursorForward(w, shorter, n);
      CursorNotAhead(w, shorter, last.server);
      PollCursor(w, Run(w, shorter), last);
    }
  }

  // ---------------------------------------------------------------- what the cursor passes

  /** Verdicts lie at or behind the cursor. */
  ghost predicate VerdictsBehind(s: Sync) {
    forall key <- s.verdicts ::
      && s.cursor.Some? && key.0 <= s.cursor.value.validity
      && (key.0 == s.cursor.value.validity ==> key.1 <= s.cursor.value.lastUid)
  }

  /** What a poll judges ends up at or behind its cursor. */
  lemma JudgedBehind(w: World, s: Sync, input: Input, u: nat)
    requires Ascending(input.server.uids) && Judges(w, s.cursor, input, input.server.validity, u)
    ensures var after := Poll(w, s, input).cursor;
            after.Some? && after.value.validity == input.server.validity && u <= after.value.lastUid
  {
    var uids, f := Capped(w, s.cursor, input), Span(w, s.cursor, input);
    CappedAscending(w, s.cursor, input);
    PollCursor(w, s, input);
    var j :| 0 <= j < f && uids[..f][j] == u;
    assert uids[j] <= uids[f - 1];
  }

  lemma PollVerdictsBehind(w: World, s: Sync, input: Input)
    requires Ascending(input.server.uids) && VerdictsBehind(s)
    requires s.cursor.Some? ==> s.cursor.value.validity <= input.server.validity
    ensures VerdictsBehind(Poll(w, s, input))
  {
    var after := Poll(w, s, input);
    PollCursor(w, s, input);
    forall key | key in after.verdicts
      ensures after.cursor.Some? && key.0 <= after.cursor.value.validity
      ensures key.0 == after.cursor.value.validity ==> key.1 <= after.cursor.value.lastUid
    {
      PollVerdicts(w, s, input, key.0, key.1);
      if Judges(w, s.cursor, input, key.0, key.1) {
        JudgedBehind(w, s, input, key.1);
      } else {
        assert key in s.verdicts;
      }
    }
  }

  lemma {:induction false} RunVerdictsBehind(w: World, polls: seq<Input>)
    requires Changing(polls)
    ensures VerdictsBehind(Run(w, polls))
  {
    if polls != [] {
      var n := |polls| - 1;
      ChangingPrefix(polls, n);
      RunVerdictsBehind(w, polls[..n]);
      CursorNotAhead(w, polls[..n], polls[n].server);
      PollVerdictsBehind(w, Run(w, polls[..n]), polls[n]);
    }
  }

  /** Before poll `k` the cursor was short of the message, afterwards it was not. */
  ghost predicate Passes(w: World, polls: seq<Input>, k: nat, v: nat, u: nat)
    requires k < |polls|
  {
    LastUid(Run(w, polls[..k]).cursor, v) < u <= LastUid(Run(w, polls[..k + 1]).cursor, v)
  }

  /** The poll that moved the cursor past the message. */
  ghost function Mover(w: World, polls: seq<Input>, v: nat, u: nat): (k: Option<nat>)
    ensures k.Some? ==> k.value < |polls|
  {
    if polls == [] then None
    else
      var n := |polls| - 1;
      if LastUid(Run(w, polls[..n]).cursor, v) < u <= LastUid(Run(w, polls).cursor, v) then Some(n)
      else Mover(w, polls[..n], v, u)
  }

  /** Poll `k` went on from the cursor; it was neither a first run nor a rescan. */
  ghost predicate WentOn(w: World, polls: seq<Input>, k: nat)
    requires k < |polls|
  {
    Continues(Run(w, polls[..k]).cursor, polls[k])
  }

  /** What poll `k` does to the cursor does not depend on later polls. */
  lemma PrefixOfRun(w: World, polls: seq<Input>, n: nat, k: nat)
    requires k < n <= |polls|
    ensures WentOn(w, polls[..n], k) <==> WentOn(w, polls, k)
    ensures forall v, u: nat :: Passes(w, polls[..n], k, v, u) <==> Passes(w, polls, k, v, u)
  {
    assert polls[..n][..k] == polls[..k] && polls[..n][k] == polls[k] && polls[..n][..k + 1] == polls[..k + 1];
  }

  lemma LastPasses(w: World, polls: seq<Input>, v: nat, u: nat)
    requires polls != []
    ensures Passes(w, polls, |polls| - 1, v, u)
       <==> LastUid(Run(w, polls[..|polls| - 1]).cursor, v) < u <= LastUid(Run(w, polls).cursor, v)
  {
    assert polls[..|polls| - 1 + 1] == polls;
  }

  lemma {:induction false} MoverPasses(w: World, polls: seq<Input>, v: nat, u: nat)
    requires Mover(w, polls, v, u).Some?
    ensures Passes(w, polls, Mover(w, polls, v, u).value, v, u)
  {
    var n := |polls| - 1;
    LastPasses(w, polls, v, u);
    if !Passes(w, polls, n, v, u) {
      MoverPasses(w, polls[..n], v, u);
      PrefixOfRun(w, polls, n, Mover(w, polls[..n], v, u).value);
    }
  }

  /** One poll that moves the cursor past a message which is still there afterwards. */
  lemma OnePollJudges(w: World, s: Sync, input: Input, server: Server, u: nat)
    requires WellFormed(input.server) && WellFormed(server) && Later(input.server, server) && u in server.uids
    requires VerdictsBehind(s) && (s.cursor.Some? ==> s.cursor.value.validity <= input.server.validity)
    requires LastUid(s.cursor, server.validity) < u <= LastUid(Poll(w, s, input).cursor, server.validity)
    ensures input.server.validity == server.validity
    ensures (server.validity, u) in Poll(w, s, input).verdicts <==> w.recent(server.validity, u) || Continues(s.cursor, input)
  {
    PollCursor(w, s, input);
    PollVerdicts(w, s, input, server.validity, u);
    PollPasses(w, s, input, u);
  }

  /** The message has a verdict exactly when it is recent or was passed by a poll that went on from the cursor. */
  ghost predicate JudgedRight(w: World, polls: seq<Input>, v: nat, u: nat) {
    var k := Mover(w, polls, v, u);
    k.Some? && ((v, u) in Run(w, polls).verdicts <==> w.recent(v, u) || WentOn(w, polls, k.value))
  }

  lemma StillRight(w: World, polls: seq<Input>, v: nat, u: nat)
    requires polls != [] && Ascending(polls[|polls| - 1].server.uids)
    requires JudgedRight(w, polls[..|polls| - 1], v, u) && u <= LastUid(Run(w, polls[..|polls| - 1]).cursor, v)
    ensures JudgedRight(w, polls, v, u)
  {
    var n := |polls| - 1;
    var s := Run(w, polls[..n]);
    PollVerdicts(w, s, polls[n], v, u);
    if Judges(w, s.cursor, polls[n], v, u) {
      JudgedIsSought(w, s.cursor, polls[n], v, u);
    }
    PrefixOfRun(w, polls, n, Mover(w, polls[..n], v, u).value);
  }

  lemma NowRight(w: World, polls: seq<Input>, server: Server, u: nat)
    requires polls != [] && WellFormed(polls[|polls| - 1].server) && WellFormed(server)
    requires Later(polls[|polls| - 1].server, server) && u in server.uids
    requires var s := Run(w, polls[..|polls| - 1]);
             && VerdictsBehind(s) && (s.cursor.Some? ==> s.cursor.value.validity <= polls[|polls| - 1].server.validity)
             && LastUid(s.cursor, server.validity) < u <= LastUid(Run(w, polls).cursor, server.validity)
    ensures JudgedRight(w, polls, server.validity, u)
  {
    var n, v := |polls| - 1, server.validity;
    var s := Run(w, polls[..n]);
    assert Run(w, polls) == Poll(w, s, polls[n]);
    OnePollJudges(w, s, polls[n], server, u);
    assert Mover(w, polls, v, u) == Some(n) && (WentOn(w, polls, n) <==> Continues(s.cursor, polls[n]));
  }

  /** Over every run, of first polls, ordinary ones and rescans, each ending anywhere, of a mailbox from which mail may
      disappear: a message that is still there and at or below the cursor has a verdict exactly when it falls in the date
      window or the poll that moved the cursor past it went on from the cursor. */
  lemma {:induction false} JudgedExactly(w: World, polls: seq<Input>, server: Server, u: nat)
    requires Changing(polls) && Follows(polls, server) && u in server.uids
    requires u <= LastUid(Run(w, polls).cursor, server.validity)
    ensures JudgedRight(w, polls, server.validity, u)
  {
    assert polls == [] ==> u == 0;
    var n := |polls| - 1;
    ChangingPrefix(polls, n);
    FollowsPrefix(polls, server, n);
    if u <= LastUid(Run(w, polls[..n]).cursor, server.validity) {
      JudgedExactly(w, polls[..n], server, u);
      StillRight(w, polls, server.validity, u);
    } else {
      RunVerdictsBehind(w, polls[..n]);
      CursorNotAhead(w, polls[..n], polls[n].server);
      NowRight(w, polls, server, u);
    }
  }

  /** In particular, recent mail that is still in the mailbox never falls behind the cursor unjudged, wherever polls end,
      and it was read exactly when the fetches of the last poll that judged it contained it. */
  lemma RecentMailIsJudged(w: World, polls: seq<Input>, server: Server, u: nat)
    requires Changing(polls) && Follows(polls, server) && u in server.uids && w.recent(server.validity, u)
    requires u <= LastUid(Run(w, polls).cursor, server.validity)
    ensures ReadIfFetched(w, polls, server.validity, u)
  {
    JudgedExactly(w, polls, server, u);
    ChangingAscending(polls);
    VerdictsAreReadings(w, polls, server.validity, u);
  }

  // ---------------------------------------------------------------- what was searched

  /** Poll `i` was an ordinary one and its search found the message. */
  ghost predicate SearchedBy(w: World, polls: seq<Input>, i: nat, v: nat, u: nat) {
    && i < |polls| && !polls[i].rescan && polls[i].server.validity == v
    && u in Search(w, Run(w, polls[..i]).cursor, polls[i])
  }

  lemma CursorForwardBetween(w: World, polls: seq<Input>, m: nat, n: nat)
    requires m <= n <= |polls| && Changing(polls)
    ensures NotBehind(Run(w, polls[..m]).cursor, Run(w, polls[..n]).cursor)
  {
    ChangingPrefix(polls, n);
    assert polls[..n][..m] == polls[..m];
    CursorForward(w, polls[..n], m);
  }

  /** A poll that comes after another under the same validity, with a cursor of that validity in between, goes on from it. */
  lemma GoesOnLater(w: World, polls: seq<Input>, i: nat, k: nat)
    requires Changing(polls) && i <= k < |polls| && WentOn(w, polls, i) && !polls[k].rescan
    requires polls[i].server.validity == polls[k].server.validity
    ensures WentOn(w, polls, k)
  {
    ChangingPrefix(polls, k);
    CursorForwardBetween(w, polls, i, k);
    CursorNotAhead(w, polls[..k], polls[k].server);
  }

  /** The poll that passes a message works under the message's validity. */
  lemma PassedUnderValidity(w: World, polls: seq<Input>, k: nat, v: nat, u: nat)
    requires AllAscending(polls) && k < |polls| && Passes(w, polls, k, v, u)
    ensures polls[k].server.validity == v
  {
    PollCursor(w, Run(w, polls[..k]), polls[k]);
    assert polls[..k + 1][..k] == polls[..k];
  }

  /** The cursor moves past a message only once, and not before a poll that still stood short of it. */
  lemma PassedLater(w: World, polls: seq<Input>, i: nat, k: nat, v: nat, u: nat)
    requires Changing(polls) && i < |polls| && k < |polls| && Passes(w, polls, k, v, u)
    requires var c := Run(w, polls[..i]).cursor; c.Some? && c.value.validity == v && c.value.lastUid < u
    ensures i <= k
  {
    if k < i {
      CursorForwardBetween(w, polls, k + 1, i);
      StaysPassed(Run(w, polls[..k + 1]).cursor, Run(w, polls[..i]).cursor, v, u);
    }
  }

  lemma StaysPassed(before: Option<Cursor>, after: Option<Cursor>, v: nat, u: nat)
    requires NotBehind(before, after) && 0 < u <= LastUid(before, v)
    requires after.Some? && after.value.validity == v
    ensures u <= after.value.lastUid
  {
  }

  /** Over every run: a message that an ordinary poll searched, still there and at or below the cursor, is judged exactly
      when it is recent or the poll that moved the cursor past it was not a rescan; and it was read exactly when the
      fetches of the poll that judged it contained it. */
  lemma SearchedIsJudged(w: World, polls: seq<Input>, server: Server, i: nat, u: nat)
    requires Changing(polls) && Follows(polls, server) && u in server.uids
    requires SearchedBy(w, polls, i, server.validity, u) && u <= LastUid(Run(w, polls).cursor, server.validity)
    ensures var k, v := Mover(w, polls, server.validity, u), server.validity;
            && k.Some?
            && ((v, u) in Run(w, polls).verdicts <==> w.recent(v, u) || !polls[k.value].rescan)
            && ((v, u) in Run(w, polls).verdicts ==> ReadIfFetched(w, polls, v, u))
  {
    var v := server.validity;
    JudgedExactly(w, polls, server, u);
    ChangingAscending(polls);
    VerdictsAreReadings(w, polls, v, u);
    var k := Mover(w, polls, v, u).value;
    if !w.recent(v, u) {
      MoverPasses(w, polls, v, u);
      SearchFinds(w, Run(w, polls[..i]).cursor, polls[i]);
      assert WentOn(w, polls, i);
      PassedUnderValidity(w, polls, k, v, u);
      PassedLater(w, polls, i, k, v, u);
      if !polls[k].rescan {
        GoesOnLater(w, polls, i, k);
      }
    }
  }

  /** What an ordinary poll searched and did not get past, the next one finds again if it is still there. */
  lemma FoundAgain(w: World, polls: seq<Input>, i: nat, k: nat, u: nat)
    requires Changing(polls) && i < k < |polls| && SearchedBy(w, polls, i, polls[k].server.validity, u)
    requires !polls[k].rescan && u in polls[k].server.uids && u > LastUid(Run(w, polls[..k]).cursor, polls[k].server.validity)
    ensures SearchedBy(w, polls, k, polls[k].server.validity, u)
  {
    ChangingAscending(polls);
    SearchFinds(w, Run(w, polls[..i]).cursor, polls[i]);
    SearchFinds(w, Run(w, polls[..k]).cursor, polls[k]);
    if WentOn(w, polls, i) {
      GoesOnLater(w, polls, i, k);
    }
  }

  // ---------------------------------------------------------------- catching up

  /** A poll during which the database stays and whose search fits its limit. */
  ghost predicate Undisturbed(w: World, cursor: Option<Cursor>, input: Input) {
    |Search(w, cursor, input)| <= input.limit && Survives(Worklist(w, cursor, input))
    && forall u: nat :: input.breaks(u) == GoesOn
  }

  lemma {:induction false} AllFinished(breaks: nat -> Break, items: seq<Item>)
    requires Survives(items) && forall u: nat :: breaks(u) == GoesOn
    ensures Finished(breaks, items) == |items|
    decreases |items|
  {
    if items != [] {
      var n := BatchSize(|items|);
      assert forall item <- items[..n] :: item in items;
      assert forall item <- items[n..] :: item in items;
      AllFinished(breaks, items[n..]);
    }
  }

  /** An undisturbed poll judges everything its search found. */
  lemma UndisturbedJudges(w: World, cursor: Option<Cursor>, input: Input)
    requires Undisturbed(w, cursor, input)
    ensures Capped(w, cursor, input) == Search(w, cursor, input) && Span(w, cursor, input) == |Search(w, cursor, input)|
    ensures forall u :: u in Search(w, cursor, input) <==> Judges(w, cursor, input, input.server.validity, u)
  {
    AllFinished(input.breaks, Worklist(w, cursor, input));
    var uids := Capped(w, cursor, input);
    assert uids[..|uids|] == uids;
  }

  lemma {:induction false} RunStoredVerdicts(w: World, polls: seq<Input>)
    requires AllAscending(polls)
    ensures StoredVerdicts(Run(w, polls))
  {
    if polls != [] {
      var n := |polls| - 1;
      RunStoredVerdicts(w, polls[..n]);
      var s := Run(w, polls[..n]);
      CappedAscending(w, s.cursor, polls[n]);
      WorkKeepsStoredVerdicts(s, polls[n].server.validity, polls[n].breaks, Worklist(w, s.cursor, polls[n]));
    }
  }

  /** What an undisturbed poll leaves of the recent mail: its own findings judged, the rest judged before. */
  lemma RecentAfterUndisturbed(w: World, polls: seq<Input>, u: nat)
    requires polls != [] && Changing(polls) && Undisturbed(w, Run(w, polls[..|polls| - 1]).cursor, polls[|polls| - 1])
    requires u in polls[|polls| - 1].server.uids && w.recent(polls[|polls| - 1].server.validity, u)
    ensures (polls[|polls| - 1].server.validity, u) in Run(w, polls).verdicts
  {
    var n, v := |polls| - 1, polls[|polls| - 1].server.validity;
    var s := Run(w, polls[..n]);
    assert u != 0;
    UndisturbedJudges(w, s.cursor, polls[n]);
    SearchFinds(w, s.cursor, polls[n]);
    PollVerdicts(w, s, polls[n], v, u);
    if u !in Search(w, s.cursor, polls[n]) {
      JudgedExactly(w, polls[..n], polls[n].server, u);
    }
  }

  /** After any run that ends with an undisturbed poll, every recent message of the mailbox is judged, and read exactly
      when the fetches of the last poll that judged it contained it; what the poll found it judged itself; and what is
      judged stored is stored. */
  lemma CaughtUp(w: World, polls: seq<Input>, u: nat)
    requires polls != [] && Changing(polls) && Undisturbed(w, Run(w, polls[..|polls| - 1]).cursor, polls[|polls| - 1])
    requires u in polls[|polls| - 1].server.uids
    ensures var n, v := |polls| - 1, polls[|polls| - 1].server.validity;
            && (w.recent(v, u) ==> ReadIfFetched(w, polls, v, u))
            && (u in Search(w, Run(w, polls[..n]).cursor, polls[n]) ==>
                  JudgedBy(w, polls, v, u) == Some(n) && ReadIfFetched(w, polls, v, u))
            && StoredVerdicts(Run(w, polls))
  {
    var n, v := |polls| - 1, polls[|polls| - 1].server.validity;
    ChangingAscending(polls);
    UndisturbedJudges(w, Run(w, polls[..n]).cursor, polls[n]);
    VerdictsAreReadings(w, polls, v, u);
    RunStoredVerdicts(w, polls);
    if w.recent(v, u) {
      RecentAfterUndisturbed(w, polls, u);
    }
  }

  // ---------------------------------------------------------------- personal mail

  /** Among these messages, `u` was opened as relevant by what was known when its turn came, and stored as `p`. */
  ghost predicate BroughtFrom(us: Us, input: Input, uids: seq<nat>, p: string, u: nat) {
    exists j :: 0 <= j < |uids| && uids[j] == u
                && Opened(us, KnownAfter(us, input.known, uids[..j], input.headers), input.headers(u))
                && Carries(FateOpened(input.handling(u)), p)
  }

  /** The poll that starts at this cursor did that. */
  ghost predicate BroughtIn(w: World, cursor: Option<Cursor>, input: Input, p: string, u: nat) {
    BroughtFrom(w.us, input, Capped(w, cursor, input), p, u)
  }

  /** A message whose fate is to be stored was opened. */
  lemma CarriedIsOpened(us: Us, input: Input, uids: seq<nat>, item: Item, p: string)
    requires item in Items(us, input.known, uids, input.headers, input.handling) && Carries(item.fate, p)
    ensures BroughtFrom(us, input, uids, p, item.uid)
  {
    var items := Items(us, input.known, uids, input.headers, input.handling);
    var j :| 0 <= j < |items| && items[j] == item;
    ItemFate(us, input.known, uids, input.headers, input.handling, j);
  }

  lemma PollStores(w: World, s: Sync, input: Input)
    ensures Extends(s.messages, Poll(w, s, input).messages)
  {
    WorkStores(s, input.server.validity, input.breaks, Worklist(w, s.cursor, input));
  }

  lemma PollBringsIn(w: World, s: Sync, input: Input, p: string)
    requires p in Poll(w, s, input).messages && p !in s.messages
    ensures BroughtIn(w, s.cursor, input, p, Poll(w, s, input).messages[p])
  {
    var items := Worklist(w, s.cursor, input);
    WorkStores(s, input.server.validity, input.breaks, items);
    var item :| item in items && Carries(item.fate, p) && item.uid == Poll(w, s, input).messages[p];
    CarriedIsOpened(w.us, input, Capped(w, s.cursor, input), item, p);
  }

  /** The message was brought in by one of the polls of this run. */
  ghost predicate BroughtInRun(w: World, polls: seq<Input>, p: string, u: nat) {
    polls != [] &&
    var n := |polls| - 1;
    BroughtIn(w, Run(w, polls[..n]).cursor, polls[n], p, u) || BroughtInRun(w, polls[..n], p, u)
  }

  /** Over every run, personal mail is never stored: each stored message was brought in by a poll that found it relevant. */
  lemma {:induction false} OnlyRelevantStored(w: World, polls: seq<Input>, p: string)
    requires p in Run(w, polls).messages
    ensures BroughtInRun(w, polls, p, Run(w, polls).messages[p])
  {
    var n := |polls| - 1;
    var s := Run(w, polls[..n]);
    PollStores(w, s, polls[n]);
    if p in s.messages {
      OnlyRelevantStored(w, polls[..n], p);
    } else {
      PollBringsIn(w, s, polls[n], p);
    }
  }

  lemma {:induction false} RelevantLater(us: Us, k: Known, uids: seq<nat>, headers: nat -> Option<Header>, reply: Header)
    requires Relevant(reply, us, k)
    ensures Relevant(reply, us, KnownAfter(us, k, uids, headers))
  {
    if uids != [] {
      var n := |uids| - 1;
      RelevantLater(us, k, uids[..n], headers, reply);
      var h := headers(uids[n]);
      if h.Some? && h.value.readable {
        LearningKeepsRelevance(h.value, us, KnownAfter(us, k, uids[..n], headers), reply);
      }
    }
  }

  /** An answer that comes later in the same poll as the mail it answers is opened, though nothing stored told of it. */
  lemma AnswerInSamePoll(us: Us, k: Known, uids: seq<nat>, headers: nat -> Option<Header>, i: nat, j: nat)
    requires i < j < |uids|
    requires Opened(us, KnownAfter(us, k, uids[..i], headers), headers(uids[i])) && Ours(headers(uids[i]).value, us)
    requires Others(headers(uids[i]).value.to, us) != []
    requires headers(uids[j]).Some? && headers(uids[j]).value.readable
    requires Answers(headers(uids[j]).value, headers(uids[i]).value, us)
    ensures Opened(us, KnownAfter(us, k, uids[..j], headers), headers(uids[j]))
  {
    var known := KnownAfter(us, k, uids[..i], headers);
    LearningKeepsRelevance(headers(uids[i]).value, us, known, headers(uids[j]).value);
    var learned := KnownAfter(us, k, uids[..i + 1], headers);
    assert uids[..i + 1][..i] == uids[..i];
    RelevantLater(us, learned, uids[i + 1..j], headers, headers(uids[j]).value);
    KnownSplit(us, k, uids[..i + 1], uids[i + 1..j], headers);
    assert uids[..i + 1] + uids[i + 1..j] == uids[..j];
  }
}
