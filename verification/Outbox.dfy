/** The reviewable e-mail outbox: a draft is loaded, checked against its fingerprint and the send guard, and sent once,
    with a receipt written before the first message and after every one. Any call may end early. */
module Outbox {
  import opened Common

  const MAX_EMAILS := 10

  datatype OutboxMessage = OutboxMessage(to: string, subject: string, text: string, kind: string)

  /** One row of a draft file; `plain` tells that the address parser returns the recipient unchanged. */
  datatype RawRow = NotAnObject | RawRow(to: string, plain: bool, subject: string, text: string, kind: string)

  datatype File = Unreadable | Rows(rows: seq<RawRow>)

  /** Hashing is taken to be injective: a fingerprint stands for the message list it was made from. */
  type Fingerprint = seq<OutboxMessage>

  // ---------------------------------------------------------------- loading a draft

  predicate IdChar(c: char) {
    'a' <= c <= 'z' || 'A' <= c <= 'Z' || IsDigit(c) || c == '_' || c == '-'
  }

  predicate DraftId(id: string) {
    1 <= |id| <= 64 && id[0] != '_' && id[0] != '-' && forall c <- id :: IdChar(c)
  }

  predicate OneLine(s: string) {
    '\r' !in s && '\n' !in s
  }

  predicate KnownKind(kind: string) {
    kind in {"cold", "followup", "reply", "pricing", "audit", "proposal"}
  }

  function KindOf(raw: string): string {
    Lower(Trim(if raw == "" then "cold" else raw))
  }

  predicate RowFine(row: RawRow) {
    && row.RawRow?
    && row.plain && '@' in Trim(row.to) && OneLine(Trim(row.to))
    && Trim(row.subject) != "" && Trim(row.text) != "" && OneLine(Trim(row.subject))
    && KnownKind(KindOf(row.kind))
  }

  function ToMessage(row: RawRow): OutboxMessage
    requires row.RawRow?
  {
    var subject := Trim(row.subject);
    OutboxMessage(Trim(row.to), if |subject| <= 200 then subject else subject[..200], Trim(row.text), KindOf(row.kind))
  }

  /** No two recipients agree up to letter case. */
  ghost predicate DistinctRecipients(messages: seq<OutboxMessage>) {
    forall i, j :: 0 <= i < j < |messages| ==> Lower(messages[i].to) != Lower(messages[j].to)
  }

  function AddressOf(row: RawRow): string {
    if row.RawRow? then Lower(Trim(row.to)) else ""
  }

  function Addresses(rows: seq<RawRow>): set<string> {
    if rows == [] then {} else Addresses(rows[..|rows| - 1]) + {AddressOf(rows[|rows| - 1])}
  }

  /** Every row is acceptable and its recipient is new, letter case aside. */
  predicate FineRows(rows: seq<RawRow>) {
    rows == [] ||
    var n := |rows| - 1;
    FineRows(rows[..n]) && RowFine(rows[n]) && AddressOf(rows[n]) !in Addresses(rows[..n])
  }

  /** A file that may be sent: one to ten fine rows. */
  predicate Sendable(file: File) {
    file.Rows? && 1 <= |file.rows| <= MAX_EMAILS && FineRows(file.rows)
  }

  function Messages(rows: seq<RawRow>): (messages: seq<OutboxMessage>)
    requires FineRows(rows)
    ensures |messages| == |rows|
  {
    if rows == [] then [] else Messages(rows[..|rows| - 1]) + [ToMessage(rows[|rows| - 1])]
  }

  lemma {:induction false} PrefixFine(rows: seq<RawRow>, n: nat)
    requires n <= |rows| && FineRows(rows)
    ensures FineRows(rows[..n])
  {
    if n == |rows| {
      assert rows[..n] == rows;
    } else {
      PrefixFine(rows[..|rows| - 1], n);
      assert rows[..|rows| - 1][..n] == rows[..n];
    }
  }

  /** Acceptable rows become messages with distinct recipients. */
  lemma {:induction false} FineRowsDistinct(rows: seq<RawRow>)
    requires FineRows(rows)
    ensures DistinctRecipients(Messages(rows))
    ensures forall m <- Messages(rows) :: Lower(m.to) in Addresses(rows)
  {
    if rows != [] {
      FineRowsDistinct(rows[..|rows| - 1]);
      var all, n := Messages(rows), |rows| - 1;
      assert all[..n] == Messages(rows[..n]) && all[n] == ToMessage(rows[n]);
      forall i, j | 0 <= i < j < |all|
        ensures Lower(all[i].to) != Lower(all[j].to)
      {
        assert all[i] == all[..n][i];
        if j < n {
          assert all[j] == all[..n][j];
        }
      }
    }
  }

  lemma NextRow(rows: seq<RawRow>, i: nat)
    requires i < |rows| && FineRows(rows[..i])
    ensures FineRows(rows[..i + 1]) <==> RowFine(rows[i]) && AddressOf(rows[i]) !in Addresses(rows[..i])
    ensures FineRows(rows[..i + 1]) ==> Messages(rows[..i + 1]) == Messages(rows[..i]) + [ToMessage(rows[i])]
    ensures Addresses(rows[..i + 1]) == Addresses(rows[..i]) + {AddressOf(rows[i])}
  {
    assert rows[..i + 1][..i] == rows[..i] && rows[..i + 1][i] == rows[i];
  }

  lemma UnfinePrefix(rows: seq<RawRow>, n: nat)
    requires n <= |rows| && !FineRows(rows[..n])
    ensures !FineRows(rows)
  {
    if FineRows(rows) {
      PrefixFine(rows, n);
    }
  }

  /** Checks the next row against the recipients seen so far and adds it. */
  method Admit(rows: seq<RawRow>, i: nat, messages: Fingerprint, seen: set<string>)
    returns (ok: bool, more: Fingerprint, met: set<string>)
    requires i < |rows| && FineRows(rows[..i]) && messages == Messages(rows[..i]) && seen == Addresses(rows[..i])
    ensures ok <==> FineRows(rows[..i + 1])
    ensures ok ==> more == Messages(rows[..i + 1]) && met == Addresses(rows[..i + 1])
  {
    NextRow(rows, i);
    ok := RowFine(rows[i]) && AddressOf(rows[i]) !in seen;
    more, met := messages, seen;
    if ok {
      more := messages + [ToMessage(rows[i])];
      met := seen + {AddressOf(rows[i])};
    }
  }

  /** Reads a draft file row by row, remembering the recipients seen so far. */
  method LoadRows(rows: seq<RawRow>) returns (r: Option<Fingerprint>)
    ensures r == if FineRows(rows) then Some(Messages(rows)) else None
  {
    var messages: Fingerprint, seen: set<string>, ok := [], {}, true;
    for i := 0 to |rows|
      invariant FineRows(rows[..i]) && messages == Messages(rows[..i]) && seen == Addresses(rows[..i])
    {
      ok, messages, seen := Admit(rows, i, messages, seen);
      if !ok {
        UnfinePrefix(rows, i + 1);
        return None;
      }
    }
    assert rows[..|rows|] == rows;
    return Some(messages);
  }

  method Load(file: File) returns (r: Option<Fingerprint>)
    ensures r == if Sendable(file) then Some(Messages(file.rows)) else None
    ensures r.Some? ==> DistinctRecipients(r.value)
  {
    if file.Unreadable? || !(1 <= |file.rows| <= MAX_EMAILS) {
      return None;
    }
    r := LoadRows(file.rows);
    if r.Some? {
      FineRowsDistinct(file.rows);
    }
  }

  // ---------------------------------------------------------------- the world around a send

  /** How one message of a batch fares: the guard may refuse it at the last moment, the mail server may fail with or
      without having accepted it, the process may stop before it or between its delivery and the receipt, and rewriting
      the receipt may fail, after a delivery or for a refusal. The turn after the last message is the closing of the
      connection and the last rewriting of the receipt. */
  datatype Turn = Proceeds | StopsBefore | GuardRefuses(written: bool) | ServerFails(accepted: bool) | StopsAfterDelivery
                | ReceiptFails

  datatype Conditions = Conditions(
    enabled: bool, credentials: bool, owner: set<string>, guardAllows: (string, string) -> bool,
    stopsEarly: bool, connects: bool, turn: nat -> Turn)

  datatype Call = WriteDraft(draftId: string, rows: seq<RawRow>)
                | SendDraft(draftId: string, fingerprint: Fingerprint, conditions: Conditions)

  datatype ReceiptStatus = Sending | StoppedByGuard | AllSent

  datatype Receipt = Receipt(status: ReceiptStatus, sent: seq<string>)

  datatype Key = Key(draftId: string, fingerprint: Fingerprint)

  datatype Delivery = Delivery(key: Key, to: string)

  datatype Outcome = Invalid | WrongFingerprint | Disabled | NoCredentials | Blocked | AlreadyAttempted
                   | ServerDown(sentBefore: nat) | Interrupted | Sent(count: nat)

  function Recipients(messages: seq<OutboxMessage>): seq<string> {
    seq(|messages|, i requires 0 <= i < |messages| => messages[i].to)
  }

  // ---------------------------------------------------------------- what each operation does

  /** The draft files, the receipts, and everything the mail server accepted, in order. */
  datatype Store = Store(pending: map<string, File>, receipts: map<Key, Receipt>, log: seq<Delivery>)

  const EMPTY := Store(map[], map[], [])

  predicate Cleared(messages: seq<OutboxMessage>, c: Conditions) {
    forall m <- messages :: Lower(m.to) in c.owner || c.guardAllows(m.to, m.kind)
  }

  /** What is looked at, in order, before anything is attempted. */
  function Refusal(pending: map<string, File>, draftId: string, fingerprint: Fingerprint, c: Conditions): Option<Outcome> {
    if !DraftId(draftId) || draftId !in pending || !Sendable(pending[draftId]) then Some(Invalid)
    else if fingerprint != Messages(pending[draftId].rows) then Some(WrongFingerprint)
    else if !c.enabled then Some(Disabled)
    else if !c.credentials then Some(NoCredentials)
    else if !Cleared(fingerprint, c) then Some(Blocked)
    else None
  }

  /** How a batch ends: its outcome, how many messages the server accepted, how many of them the receipt lists, and the
      receipt's status. */
  datatype End = End(outcome: Outcome, delivered: nat, listed: nat, status: ReceiptStatus)

  /** The batch from message `i` on. */
  function BatchFrom(messages: seq<OutboxMessage>, c: Conditions, i: nat): End
    requires i <= |messages|
    decreases |messages| - i
  {
    var turn := c.turn(i);
    if turn == StopsBefore then End(Interrupted, i, i, Sending)
    else if i == |messages| then
      if turn.ServerFails? then End(ServerDown(i), i, i, Sending)
      else if turn == ReceiptFails then End(Interrupted, i, i, Sending)
      else End(Sent(i), i, i, AllSent)
    else if Lower(messages[i].to) !in c.owner && turn.GuardRefuses? then
      if turn.written then End(Blocked, i, i, StoppedByGuard) else End(ServerDown(i), i, i, Sending)
    else if turn.ServerFails? then End(ServerDown(i), if turn.accepted then i + 1 else i, i, Sending)
    else if turn == StopsAfterDelivery then End(Interrupted, i + 1, i, Sending)
    else if turn == ReceiptFails then End(ServerDown(i + 1), i + 1, i, Sending)
    else BatchFrom(messages, c, i + 1)
  }

  function Attempt(messages: seq<OutboxMessage>, c: Conditions): End {
    if c.connects then BatchFrom(messages, c, 0) else End(ServerDown(0), 0, 0, Sending)
  }

  function Deliveries(key: Key, to: seq<string>): seq<Delivery> {
    seq(|to|, i requires 0 <= i < |to| => Delivery(key, to[i]))
  }

  function FirstOf(messages: seq<OutboxMessage>, n: nat): seq<string> {
    if n <= |messages| then Recipients(messages)[..n] else Recipients(messages)
  }

  /** The attempt leaves a receipt and the deliveries. */
  function Attempted(s: Store, key: Key, e: End): Store {
    s.(receipts := s.receipts[key := Receipt(e.status, FirstOf(key.fingerprint, e.listed))],
       log := s.log + Deliveries(key, FirstOf(key.fingerprint, e.delivered)))
  }

  function SendDraftStep(s: Store, draftId: string, fingerprint: Fingerprint, c: Conditions): (Store, Outcome) {
    var key, refusal := Key(draftId, fingerprint), Refusal(s.pending, draftId, fingerprint, c);
    if refusal.Some? then (s, refusal.value)
    else if key in s.receipts then (s, AlreadyAttempted)
    else if c.stopsEarly then (s, Interrupted)
    else (Attempted(s, key, Attempt(fingerprint, c)), Attempt(fingerprint, c).outcome)
  }

  /** A draft may be written or replaced at any time; one that does not load is removed again. */
  function WriteDraftStep(s: Store, draftId: string, rows: seq<RawRow>): Store {
    if !DraftId(draftId) || !(1 <= |rows| <= MAX_EMAILS) then s
    else s.(pending := if Sendable(Rows(rows)) then s.pending[draftId := Rows(rows)] else s.pending - {draftId})
  }

  function Step(s: Store, call: Call): Store {
    match call
    case WriteDraft(draftId, rows) => WriteDraftStep(s, draftId, rows)
    case SendDraft(draftId, fingerprint, c) => SendDraftStep(s, draftId, fingerprint, c).0
  }

  function Run(s: Store, calls: seq<Call>): Store {
    if calls == [] then s else Step(Run(s, calls[..|calls| - 1]), calls[|calls| - 1])
  }

  // ---------------------------------------------------------------- how a batch can end

  /** Nothing goes wrong in this turn. */
  predicate Passes(messages: seq<OutboxMessage>, c: Conditions, j: nat) {
    if j < |messages| then
      c.turn(j) == Proceeds || (c.turn(j).GuardRefuses? && Lower(messages[j].to) in c.owner)
    else c.turn(j) != StopsBefore && !c.turn(j).ServerFails? && c.turn(j) != ReceiptFails
  }

  /** The first turn that does not pass. */
  function FirstTrouble(messages: seq<OutboxMessage>, c: Conditions, i: nat): (j: Option<nat>)
    requires i <= |messages|
    ensures j.Some? ==> i <= j.value <= |messages| && !Passes(messages, c, j.value) && forall k :: i <= k < j.value ==> Passes(messages, c, k)
    ensures j.None? ==> forall k :: i <= k <= |messages| ==> Passes(messages, c, k)
    decreases |messages| - i
  {
    if !Passes(messages, c, i) then Some(i)
    else if i == |messages| then None
    else FirstTrouble(messages, c, i + 1)
  }

  /** What goes wrong first is the rewriting of a receipt after a delivery. */
  predicate ReceiptFailsFirst(messages: seq<OutboxMessage>, c: Conditions, i: nat)
    requires i <= |messages|
  {
    var j := FirstTrouble(messages, c, i);
    j.Some? && j.value < |messages| && c.turn(j.value) == ReceiptFails
  }

  /** A batch succeeds exactly when every turn passes, and then everything is sent and listed; otherwise the receipt
      lists the messages before the first turn that does not pass, all that was accepted or all but the last; the reported
      count is one above the receipt exactly when that turn failed to rewrite the receipt; and no message goes out that the
      guard refused at its turn. */
  lemma {:induction false} BatchEnds(messages: seq<OutboxMessage>, c: Conditions, i: nat)
    requires i <= |messages|
    ensures var e, trouble := BatchFrom(messages, c, i), FirstTrouble(messages, c, i);
            && e.listed == (if trouble.Some? then trouble.value else |messages|)
            && e.listed <= e.delivered <= |messages| && e.delivered <= e.listed + 1
            && (e.outcome.Sent? <==> forall j :: i <= j <= |messages| ==> Passes(messages, c, j))
            && (e.outcome.Sent? <==> e.status == AllSent) && (e.outcome.Sent? ==> e.outcome.count == |messages|)
            && (e.outcome.ServerDown? ==> e.outcome.sentBefore == e.listed || e.outcome.sentBefore == e.listed + 1)
            && (e.outcome.ServerDown? && e.outcome.sentBefore == e.listed + 1 <==> ReceiptFailsFirst(messages, c, i))
            && (e.status == StoppedByGuard ==> trouble.Some? && c.turn(trouble.value).GuardRefuses?)
            && forall j :: i <= j < e.delivered ==> Lower(messages[j].to) in c.owner || !c.turn(j).GuardRefuses?
    decreases |messages| - i
  {
    if i < |messages| && Passes(messages, c, i) {
      BatchEnds(messages, c, i + 1);
    } else {
      assert BatchFrom(messages, c, i).outcome.Sent? <==> Passes(messages, c, i);
    }
  }

  /** A draft of one message whose receipt cannot be rewritten after the delivery. */
  lemma ReceiptBehindReport()
    ensures var messages := [OutboxMessage("ann@example.com", "Hello", "How are you?", "cold")];
            var c := Conditions(true, true, {}, (to: string, kind: string) => true, false, true, (i: nat) => ReceiptFails);
            BatchFrom(messages, c, 0) == End(ServerDown(1), 1, 0, Sending)
  {
  }

  // ---------------------------------------------------------------- the account

  /** The recipients the mail server accepted a message for, under one draft and fingerprint, in order. */
  function Delivered(log: seq<Delivery>, key: Key): seq<string> {
    if log == [] then []
    else
      var last := log[|log| - 1];
      Delivered(log[..|log| - 1], key) + if last.key == key then [last.to] else []
  }

  lemma DeliveredSnoc(log: seq<Delivery>, d: Delivery, key: Key)
    ensures Delivered(log + [d], key) == Delivered(log, key) + if d.key == key then [d.to] else []
  {
    assert (log + [d])[..|log|] == log;
  }

  /** What the receipts and the mail log say about each other at every moment: without a receipt nothing was sent;
      with one, the deliveries are a prefix of the draft's distinct recipients, and the receipt lists all of them
      or all but the last. */
  ghost predicate Consistent(receipts: map<Key, Receipt>, log: seq<Delivery>) {
    forall key: Key :: Accounted(key, receipts, Delivered(log, key))
  }

  ghost predicate Accounted(key: Key, receipts: map<Key, Receipt>, delivered: seq<string>) {
    if key !in receipts then delivered == []
    else
      && DistinctRecipients(key.fingerprint)
      && delivered <= Recipients(key.fingerprint)
      && Trails(receipts[key].sent, delivered)
      && (receipts[key].status == AllSent ==> delivered == Recipients(key.fingerprint) == receipts[key].sent)
  }

  /** The receipt lists every delivery, or every one but the last. */
  ghost predicate Trails(sent: seq<string>, delivered: seq<string>) {
    sent == delivered || (delivered != [] && sent == delivered[..|delivered| - 1])
  }

  function Times(items: seq<string>, to: string): nat {
    if items == [] then 0 else Times(items[1..], to) + if items[0] == to then 1 else 0
  }

  lemma {:induction false} AbsentTimes(items: seq<string>, to: string)
    requires to !in items
    ensures Times(items, to) == 0
  {
    if items != [] {
      AbsentTimes(items[1..], to);
    }
  }

  lemma {:induction false} DistinctTimes(items: seq<string>, to: string)
    requires forall i, j :: 0 <= i < j < |items| ==> items[i] != items[j]
    ensures Times(items, to) <= 1
  {
    if items != [] {
      if items[0] == to {
        AbsentTimes(items[1..], to);
      }
      DistinctTimes(items[1..], to);
    }
  }

  /** No recipient of a draft and fingerprint is ever sent to twice. */
  lemma AtMostOnce(receipts: map<Key, Receipt>, log: seq<Delivery>, key: Key, to: string)
    requires Consistent(receipts, log)
    ensures Times(Delivered(log, key), to) <= 1
  {
    assert Accounted(key, receipts, Delivered(log, key));
    var delivered := Delivered(log, key);
    if key in receipts {
      forall i, j | 0 <= i < j < |delivered|
        ensures delivered[i] != delivered[j]
      {
        assert delivered[i] == Recipients(key.fingerprint)[i] == key.fingerprint[i].to;
        assert delivered[j] == Recipients(key.fingerprint)[j] == key.fingerprint[j].to;
      }
    }
    DistinctTimes(delivered, to);
  }

  /** The rest of the account is untouched by what happens under one key. */
  lemma OneKeyChanges(receipts: map<Key, Receipt>, log: seq<Delivery>, receipts': map<Key, Receipt>, log': seq<Delivery>, key: Key)
    requires Consistent(receipts, log)
    requires forall k: Key :: k != key ==> (k in receipts' <==> k in receipts) && (k in receipts ==> receipts'[k] == receipts[k])
    requires forall k: Key :: k != key ==> Delivered(log', k) == Delivered(log, k)
    requires Accounted(key, receipts', Delivered(log', key))
    ensures Consistent(receipts', log')
  {
    forall k: Key
      ensures Accounted(k, receipts', Delivered(log', k))
    {
      assert Accounted(k, receipts, Delivered(log, k));
    }
  }

  /** The account of a batch after `n` messages have been delivered and `listed` of them written down. */
  lemma BatchAccount(key: Key, receipts: map<Key, Receipt>, n: nat, listed: nat)
    requires DistinctRecipients(key.fingerprint) && listed <= n <= |key.fingerprint| && n <= listed + 1
    requires key in receipts && receipts[key].sent == Recipients(key.fingerprint)[..listed]
    requires receipts[key].status == AllSent ==> listed == |key.fingerprint|
    ensures Accounted(key, receipts, Recipients(key.fingerprint)[..n])
  {
    var all := Recipients(key.fingerprint);
    assert n == listed + 1 ==> all[..n][..n - 1] == all[..listed];
  }

  // ---------------------------------------------------------------- every run

  lemma LastDelivery(log: seq<Delivery>, key: Key, to: seq<string>)
    requires to != []
    ensures log + Deliveries(key, to) == log + Deliveries(key, to[..|to| - 1]) + [Delivery(key, to[|to| - 1])]
  {
  }

  lemma {:induction false} DeliveredAppend(log: seq<Delivery>, key: Key, to: seq<string>, k: Key)
    ensures Delivered(log + Deliveries(key, to), k) == Delivered(log, k) + if k == key then to else []
  {
    if to == [] {
      assert log + Deliveries(key, to) == log;
    } else {
      var front, last := to[..|to| - 1], to[|to| - 1];
      DeliveredAppend(log, key, front, k);
      LastDelivery(log, key, to);
      DeliveredSnoc(log + Deliveries(key, front), Delivery(key, last), k);
      assert to == front + [last];
    }
  }

  lemma AttemptKeepsAccount(s: Store, key: Key, c: Conditions)
    requires Consistent(s.receipts, s.log) && key !in s.receipts && DistinctRecipients(key.fingerprint)
    ensures var after := Attempted(s, key, Attempt(key.fingerprint, c));
            && Consistent(after.receipts, after.log)
            && forall k :: k != key ==> Delivered(after.log, k) == Delivered(s.log, k)
  {
    var e := Attempt(key.fingerprint, c);
    var after, to := Attempted(s, key, e), FirstOf(key.fingerprint, e.delivered);
    if c.connects {
      BatchEnds(key.fingerprint, c, 0);
    }
    assert Accounted(key, s.receipts, Delivered(s.log, key));
    forall k: Key {
      DeliveredAppend(s.log, key, to, k);
    }
    BatchAccount(key, after.receipts, e.delivered, e.listed);
    OneKeyChanges(s.receipts, s.log, after.receipts, after.log, key);
  }

  /** One call keeps the account and leaves what was attempted before alone. */
  lemma StepKeepsAccount(s: Store, call: Call)
    requires Consistent(s.receipts, s.log)
    ensures Consistent(Step(s, call).receipts, Step(s, call).log) && Untouched(s, Step(s, call))
  {
    if call.SendDraft? && Refusal(s.pending, call.draftId, call.fingerprint, call.conditions) == None {
      FineRowsDistinct(s.pending[call.draftId].rows);
      var key := Key(call.draftId, call.fingerprint);
      if key !in s.receipts {
        AttemptKeepsAccount(s, key, call.conditions);
      }
    }
  }

  /** Whatever has a receipt keeps it, and nothing more is delivered under it. */
  ghost predicate Untouched(s: Store, later: Store) {
    forall k <- s.receipts :: k in later.receipts && later.receipts[k] == s.receipts[k]
                              && Delivered(later.log, k) == Delivered(s.log, k)
  }

  /** Over any sequence of calls, drafts being rewritten in between, each call ending anywhere: the account stays
      consistent, and a draft and fingerprint that were attempted once are never touched again. */
  lemma {:induction false} RunKeepsAccount(s: Store, calls: seq<Call>)
    requires Consistent(s.receipts, s.log)
    ensures Consistent(Run(s, calls).receipts, Run(s, calls).log) && Untouched(s, Run(s, calls))
  {
    if calls != [] {
      var n := |calls| - 1;
      RunKeepsAccount(s, calls[..n]);
      StepKeepsAccount(Run(s, calls[..n]), calls[n]);
    }
  }

  /** From an empty outbox, no run ever sends to a recipient twice under one draft and fingerprint. */
  lemma SentAtMostOnce(calls: seq<Call>, key: Key, to: string)
    ensures var s := Run(EMPTY, calls);
            && Times(Delivered(s.log, key), to) <= 1
            && Delivered(s.log, key) <= Recipients(key.fingerprint)
            && (key !in s.receipts ==> Delivered(s.log, key) == [])
            && (key in s.receipts ==> Trails(s.receipts[key].sent, Delivered(s.log, key)))
  {
    RunKeepsAccount(EMPTY, calls);
    var s := Run(EMPTY, calls);
    AtMostOnce(s.receipts, s.log, key, to);
    assert Accounted(key, s.receipts, Delivered(s.log, key));
  }

  // ---------------------------------------------------------------- the outbox as it runs

  class OutboxStore {
    var pending: map<string, File>
    var receipts: map<Key, Receipt>
    var log: seq<Delivery>

    function Value(): Store
      reads this
    {
      Store(pending, receipts, log)
    }

    constructor ()
      ensures Value() == EMPTY
    {
      pending, receipts, log := map[], map[], [];
    }

    method CreateDraft(draftId: string, rows: seq<RawRow>) returns (ok: bool)
      modifies this`pending
      ensures ok <==> DraftId(draftId) && Sendable(Rows(rows))
      ensures Value() == WriteDraftStep(old(Value()), draftId, rows)
    {
      if !DraftId(draftId) || !(1 <= |rows| <= MAX_EMAILS) {
        return false;
      }
      pending := pending[draftId := Rows(rows)];
      var loaded := Load(pending[draftId]);
      ok := loaded.Some?;
      if !ok {
        pending := pending - {draftId};
        assert pending == old(pending) - {draftId};
      }
    }

    /** Sends the messages one by one after the receipt has been opened, with a last look at the guard before each. */
    method SendBatch(key: Key, c: Conditions) returns (r: Outcome)
      requires key in receipts && receipts[key] == Receipt(Sending, [])
      modifies this`receipts, this`log
      ensures var e := BatchFrom(key.fingerprint, c, 0);
              && r == e.outcome
              && receipts == old(receipts)[key := Receipt(e.status, FirstOf(key.fingerprint, e.listed))]
              && log == old(log) + Deliveries(key, FirstOf(key.fingerprint, e.delivered))
    {
      var messages := key.fingerprint;
      var sent: seq<string> := [];
      for i := 0 to |messages|
        invariant BatchFrom(messages, c, 0) == BatchFrom(messages, c, i)
        invariant sent == FirstOf(messages, i)
        invariant receipts == old(receipts)[key := Receipt(Sending, sent)]
        invariant log == old(log) + Deliveries(key, sent)
      {
        var turn := c.turn(i);
        if turn == StopsBefore {
          return Interrupted;
        }
        if Lower(messages[i].to) !in c.owner && turn.GuardRefuses? {
          if !turn.written {
            return ServerDown(i);
          }
          receipts := receipts[key := Receipt(StoppedByGuard, sent)];
          return Blocked;
        }
        if turn == ServerFails(false) {
          return ServerDown(i);
        }
        OneMore(key, i, old(log));
        log := log + [Delivery(key, messages[i].to)];
        if turn == ServerFails(true) {
          return ServerDown(i);
        }
        if turn == StopsAfterDelivery {
          return Interrupted;
        }
        sent := sent + [messages[i].to];
        if turn == ReceiptFails {
          return ServerDown(|sent|);
        }
        receipts := receipts[key := Receipt(Sending, sent)];
      }
      var closing := c.turn(|messages|);
      if closing == StopsBefore {
        return Interrupted;
      }
      if closing.ServerFails? {
        return ServerDown(|sent|);
      }
      if closing == ReceiptFails {
        return Interrupted;
      }
      receipts := receipts[key := Receipt(AllSent, sent)];
      return Sent(|sent|);
    }

    /** The guard clears every recipient that is not the owner's own. */
    method GuardClears(messages: seq<OutboxMessage>, c: Conditions) returns (ok: bool)
      ensures ok <==> Cleared(messages, c)
    {
      ok := true;
      for i := 0 to |messages|
        invariant ok <==> Cleared(messages[..i], c)
      {
        assert messages[..i + 1] == messages[..i] + [messages[i]];
        if Lower(messages[i].to) !in c.owner && !c.guardAllows(messages[i].to, messages[i].kind) {
          ok := false;
        }
      }
      assert messages[..|messages|] == messages;
    }

    method Precheck(draftId: string, fingerprint: Fingerprint, c: Conditions) returns (refusal: Option<Outcome>)
      ensures refusal == Refusal(pending, draftId, fingerprint, c)
    {
      if !DraftId(draftId) || draftId !in pending {
        return Some(Invalid);
      }
      var loaded := Load(pending[draftId]);
      if loaded.None? {
        return Some(Invalid);
      }
      if fingerprint != loaded.value {
        return Some(WrongFingerprint);
      }
      if !c.enabled {
        return Some(Disabled);
      }
      if !c.credentials {
        return Some(NoCredentials);
      }
      var cleared := GuardClears(loaded.value, c);
      return if cleared then None else Some(Blocked);
    }

    /** The receipt is written before the mail server is spoken to. */
    method Send(draftId: string, fingerprint: Fingerprint, c: Conditions) returns (r: Outcome)
      modifies this`receipts, this`log
      ensures (Value(), r) == SendDraftStep(old(Value()), draftId, fingerprint, c)
    {
      var key := Key(draftId, fingerprint);
      var refusal := Precheck(draftId, fingerprint, c);
      if refusal.Some? {
        return refusal.value;
      }
      if key in receipts {
        return AlreadyAttempted;
      }
      if c.stopsEarly {
        return Interrupted;
      }
      receipts := receipts[key := Receipt(Sending, [])];
      assert FirstOf(fingerprint, 0) == [] && log + Deliveries(key, []) == log;
      if !c.connects {
        return ServerDown(0);
      }
      r := SendBatch(key, c);
      assert receipts == old(receipts)[key := receipts[key]];
    }

    method RunCalls(calls: seq<Call>)
      modifies this
      ensures Value() == Run(old(Value()), calls)
    {
      for i := 0 to |calls|
        invariant Value() == Run(old(Value()), calls[..i])
      {
        assert calls[..i + 1][..i] == calls[..i];
        match calls[i] {
          case WriteDraft(draftId, rows) => var ok := CreateDraft(draftId, rows);
          case SendDraft(draftId, fingerprint, c) => var r := Send(draftId, fingerprint, c);
        }
      }
      assert calls[..|calls|] == calls;
    }
  }

  lemma OneMore(key: Key, i: nat, log: seq<Delivery>)
    requires i < |key.fingerprint|
    ensures var m := key.fingerprint;
            && FirstOf(m, i + 1) == FirstOf(m, i) + [m[i].to]
            && log + Deliveries(key, FirstOf(m, i + 1)) == log + Deliveries(key, FirstOf(m, i)) + [Delivery(key, m[i].to)]
  {
  }
}
