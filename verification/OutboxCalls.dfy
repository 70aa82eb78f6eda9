/** Which calls of the outbox send mail, which are refused and why, told from the draft file, the settings and the guard,
    and that every delivery of every run belongs to such a call. */
module OutboxCalls {
  import opened Common
  import opened Outbox

  // ---------------------------------------------------------------- what a draft file says

  predicate NoBreaks(s: string) {
    forall c <- s :: c != '\r' && c != '\n'
  }

  /** The row is acceptable by itself and says exactly this. */
  ghost predicate RowSays(row: RawRow, m: OutboxMessage) {
    && row.RawRow? && row.plain
    && m.to == Trim(row.to) && '@' in m.to && NoBreaks(m.to)
    && m.text == Trim(row.text) && m.text != ""
    && m.subject <= Trim(row.subject) && m.subject != "" && NoBreaks(Trim(row.subject))
    && (m.subject == Trim(row.subject) || |m.subject| == 200) && |m.subject| <= 200
    && m.kind == (if row.kind == "" then "cold" else Lower(Trim(row.kind)))
    && m.kind in {"cold", "followup", "reply", "pricing", "audit", "proposal"}
  }

  lemma ColdIsCold()
    ensures Lower(Trim("cold")) == "cold"
  {
    assert Trim("cold") == "cold" && Lower("cold") == "cold";
  }

  lemma RowSaysExactly(row: RawRow, m: OutboxMessage)
    ensures RowSays(row, m) <==> RowFine(row) && m == ToMessage(row)
  {
    ColdIsCold();
  }

  /** The rows say these messages, each its own, with distinct addresses. */
  ghost predicate RowsSay(rows: seq<RawRow>, messages: Fingerprint) {
    |messages| == |rows| && EachSays(rows, messages) && Apart(messages)
  }

  ghost predicate EachSays(rows: seq<RawRow>, messages: Fingerprint)
    requires |messages| == |rows|
  {
    forall i :: 0 <= i < |messages| ==> RowSays(rows[i], messages[i])
  }

  ghost predicate Apart(messages: Fingerprint) {
    forall i, j :: 0 <= i < j < |messages| ==> Lower(messages[i].to) != Lower(messages[j].to)
  }

  /** The file says exactly these messages: one to ten of them, no two to one address, letter case aside. */
  ghost predicate Says(file: File, messages: Fingerprint) {
    file.Rows? && 1 <= |file.rows| <= 10 && RowsSay(file.rows, messages)
  }

  lemma {:induction false} AddressesAre(rows: seq<RawRow>)
    ensures forall a :: a in Addresses(rows) <==> exists row <- rows :: AddressOf(row) == a
  {
    if rows != [] {
      var n := |rows| - 1;
      AddressesAre(rows[..n]);
      assert rows == rows[..n] + [rows[n]];
    }
  }

  /** One row more: the rows before it say their messages, it says its own, and its address is new. */
  lemma RowsSayNext(rows: seq<RawRow>, messages: Fingerprint, n: nat)
    requires |messages| == |rows| == n + 1
    ensures RowsSay(rows, messages) <==>
              RowsSay(rows[..n], messages[..n]) && RowSays(rows[n], messages[n])
              && forall i :: 0 <= i < n ==> Lower(messages[i].to) != Lower(messages[n].to)
  {
    EachSaysNext(rows, messages, n);
    ApartNext(messages, n);
  }

  lemma EachSaysNext(rows: seq<RawRow>, messages: Fingerprint, n: nat)
    requires |messages| == |rows| == n + 1
    ensures EachSays(rows, messages) <==> EachSays(rows[..n], messages[..n]) && RowSays(rows[n], messages[n])
  {
    var front, said := rows[..n], messages[..n];
    assert forall i :: 0 <= i < n ==> front[i] == rows[i] && said[i] == messages[i];
    if EachSays(front, said) && RowSays(rows[n], messages[n]) {
      forall i | 0 <= i < |messages|
        ensures RowSays(rows[i], messages[i])
      {
        assert i < n ==> RowSays(front[i], said[i]);
      }
    }
  }

  lemma ApartNext(messages: Fingerprint, n: nat)
    requires |messages| == n + 1
    ensures Apart(messages) <==> Apart(messages[..n]) && forall i :: 0 <= i < n ==> Lower(messages[i].to) != Lower(messages[n].to)
  {
    var said := messages[..n];
    assert forall i :: 0 <= i < n ==> said[i] == messages[i];
    if Apart(said) && forall i :: 0 <= i < n ==> Lower(messages[i].to) != Lower(messages[n].to) {
      forall i, j | 0 <= i < j < |messages|
        ensures Lower(messages[i].to) != Lower(messages[j].to)
      {
        assert j < n ==> Lower(said[i].to) != Lower(said[j].to);
      }
    }
  }

  lemma NewAddress(rows: seq<RawRow>, messages: Fingerprint, row: RawRow, m: OutboxMessage)
    requires RowsSay(rows, messages) && RowSays(row, m)
    ensures AddressOf(row) !in Addresses(rows) <==> forall i :: 0 <= i < |rows| ==> Lower(messages[i].to) != Lower(m.to)
  {
    AddressesAre(rows);
    assert AddressOf(row) == Lower(m.to);
    forall i | 0 <= i < |rows|
      ensures AddressOf(rows[i]) == Lower(messages[i].to)
    {
      assert RowSays(rows[i], messages[i]);
    }
  }

  lemma {:induction false} RowsSayExactly(rows: seq<RawRow>, messages: Fingerprint)
    ensures RowsSay(rows, messages) <==> FineRows(rows) && Messages(rows) == messages
  {
    if rows != [] && |messages| == |rows| {
      var n := |rows| - 1;
      RowsSayExactly(rows[..n], messages[..n]);
      RowSaysExactly(rows[n], messages[n]);
      RowsSayNext(rows, messages, n);
      if RowsSay(rows[..n], messages[..n]) && RowSays(rows[n], messages[n]) {
        NewAddress(rows[..n], messages[..n], rows[n], messages[n]);
      }
      MessagesNext(rows, messages, n);
    }
  }

  lemma MessagesNext(rows: seq<RawRow>, messages: Fingerprint, n: nat)
    requires |messages| == |rows| == n + 1
    ensures FineRows(rows) && Messages(rows) == messages <==>
              && FineRows(rows[..n]) && Messages(rows[..n]) == messages[..n]
              && RowFine(rows[n]) && ToMessage(rows[n]) == messages[n] && AddressOf(rows[n]) !in Addresses(rows[..n])
  {
    assert messages == messages[..n] + [messages[n]];
  }

  /** A draft loads exactly to what its file says, and not at all when it says nothing. */
  lemma LoadsExactly(file: File, messages: Fingerprint)
    ensures Sendable(file) && Messages(file.rows) == messages <==> Says(file, messages)
  {
    if file.Rows? {
      RowsSayExactly(file.rows, messages);
    }
  }

  // ---------------------------------------------------------------- which calls send

  /** The named draft is there and says exactly these messages. */
  ghost predicate Loads(s: Store, draftId: string, messages: Fingerprint) {
    draftId in s.pending && IsDraftId(draftId) && Says(s.pending[draftId], messages)
  }

  /** One to sixty-four letters, digits, underscores and hyphens, a letter or digit first. */
  ghost predicate IsDraftId(id: string) {
    && 1 <= |id| <= 64 && id[0] != '_' && id[0] != '-'
    && forall i :: 0 <= i < |id| ==> id[i] == '_' || id[i] == '-' || '0' <= id[i] <= '9' || 'A' <= id[i] <= 'Z' || 'a' <= id[i] <= 'z'
  }

  /** The recipient is the owner or is cleared by the guard. */
  predicate MayGo(m: OutboxMessage, c: Conditions) {
    Lower(m.to) in c.owner || c.guardAllows(m.to, m.kind)
  }

  /** Everything that must hold before the first message is attempted. */
  ghost predicate Sends(s: Store, call: Call) {
    call.SendDraft? &&
    var c := call.conditions;
    && Loads(s, call.draftId, call.fingerprint) && c.enabled && c.credentials
    && (forall m <- call.fingerprint :: MayGo(m, c))
    && Key(call.draftId, call.fingerprint) !in s.receipts && !c.stopsEarly
  }

  lemma IdsAgree(id: string)
    ensures IsDraftId(id) <==> DraftId(id)
  {
    if DraftId(id) {
      assert forall i :: 0 <= i < |id| ==> id[i] in id;
    }
  }

  lemma LoadsIs(s: Store, draftId: string, messages: Fingerprint)
    ensures Loads(s, draftId, messages) <==>
              DraftId(draftId) && draftId in s.pending && Sendable(s.pending[draftId]) && Messages(s.pending[draftId].rows) == messages
  {
    if draftId in s.pending {
      LoadsExactly(s.pending[draftId], messages);
    }
    IdsAgree(draftId);
  }

  lemma SendsUnrefused(s: Store, draftId: string, fingerprint: Fingerprint, c: Conditions)
    ensures Sends(s, SendDraft(draftId, fingerprint, c)) <==>
              Refusal(s.pending, draftId, fingerprint, c) == None && Key(draftId, fingerprint) !in s.receipts && !c.stopsEarly
  {
    LoadsIs(s, draftId, fingerprint);
  }

  /** A call changes the receipts or the mail log if and only if it sends a draft that says exactly what was confirmed,
      with sending enabled and credentials, no recipient refused, no receipt yet and no early stop; then it leaves a receipt. */
  lemma SendsExactly(s: Store, call: Call)
    ensures Step(s, call).receipts != s.receipts || Step(s, call).log != s.log <==> Sends(s, call)
    ensures Sends(s, call) ==> Step(s, call).receipts.Keys == s.receipts.Keys + {Key(call.draftId, call.fingerprint)}
  {
    match call {
      case WriteDraft(_, _) =>
      case SendDraft(draftId, fingerprint, c) =>
        SendsUnrefused(s, draftId, fingerprint, c);
        AttemptsLeaveReceipts(s, Key(draftId, fingerprint), Attempt(fingerprint, c));
    }
  }

  /** Every refusal happens if and only if its own condition is the first to fail: the draft, the fingerprint, the switch,
      the credentials, the guard, the receipt, an early stop. */
  lemma RefusedExactly(s: Store, draftId: string, fingerprint: Fingerprint, c: Conditions)
    ensures var (after, outcome) := SendDraftStep(s, draftId, fingerprint, c);
            var right, ready := Loads(s, draftId, fingerprint), c.enabled && c.credentials;
            var cleared, tried := (forall m <- fingerprint :: MayGo(m, c)), Key(draftId, fingerprint) in s.receipts;
            && (outcome == Invalid <==> forall messages: Fingerprint :: !Loads(s, draftId, messages))
            && (outcome == WrongFingerprint <==> !right && exists messages: Fingerprint :: Loads(s, draftId, messages))
            && (outcome == Disabled <==> right && !c.enabled)
            && (outcome == NoCredentials <==> right && c.enabled && !c.credentials)
            && (outcome == Blocked && after == s <==> right && ready && !cleared)
            && (outcome == AlreadyAttempted <==> right && ready && cleared && tried)
            && (outcome == Interrupted && after == s <==> right && ready && cleared && !tried && c.stopsEarly)
  {
    LoadsIs(s, draftId, fingerprint);
    if draftId in s.pending && Sendable(s.pending[draftId]) {
      LoadsIs(s, draftId, Messages(s.pending[draftId].rows));
    }
    forall messages: Fingerprint
      ensures Loads(s, draftId, messages) ==> DraftId(draftId) && draftId in s.pending && Sendable(s.pending[draftId])
      ensures Loads(s, draftId, messages) ==> Messages(s.pending[draftId].rows) == messages
    {
      LoadsIs(s, draftId, messages);
    }
    AttemptsLeaveReceipts(s, Key(draftId, fingerprint), Attempt(fingerprint, c));
    EndsAreNoRefusals(fingerprint, c);
  }

  lemma AttemptsLeaveReceipts(s: Store, key: Key, e: End)
    ensures Attempted(s, key, e).receipts.Keys == s.receipts.Keys + {key}
    ensures key !in s.receipts ==> Attempted(s, key, e).receipts != s.receipts
  {
    assert key in Attempted(s, key, e).receipts;
  }

  lemma EndsAreNoRefusals(messages: seq<OutboxMessage>, c: Conditions)
    ensures Attempt(messages, c).outcome !in {Invalid, WrongFingerprint, Disabled, NoCredentials, AlreadyAttempted}
  {
    if c.connects {
      EndsExactly(messages, c, 0);
    }
  }

  // ---------------------------------------------------------------- how an attempt ends

  /** How the batch ends when this turn is the first that does not pass. */
  ghost predicate EndsAt(messages: seq<OutboxMessage>, turn: Turn, j: nat, e: End) {
    if turn == StopsBefore || (turn == ReceiptFails && j == |messages|) then e == End(Interrupted, j, j, Sending)
    else if turn.GuardRefuses? then e == if turn.written then End(Blocked, j, j, StoppedByGuard) else End(ServerDown(j), j, j, Sending)
    else if turn.ServerFails? then e == End(ServerDown(j), if turn.accepted && j < |messages| then j + 1 else j, j, Sending)
    else if turn == ReceiptFails then e == End(ServerDown(j + 1), j + 1, j, Sending)
    else turn == StopsAfterDelivery && e == End(Interrupted, j + 1, j, Sending)
  }

  /** The outcome, the deliveries, the receipt's list and its status are those of the first turn that does not pass; without
      one everything is sent and listed. */
  lemma {:induction false} EndsExactly(messages: seq<OutboxMessage>, c: Conditions, i: nat)
    requires i <= |messages|
    ensures var trouble := FirstTrouble(messages, c, i);
            if trouble.Some? then EndsAt(messages, c.turn(trouble.value), trouble.value, BatchFrom(messages, c, i))
            else BatchFrom(messages, c, i) == End(Outcome.Sent(|messages|), |messages|, |messages|, AllSent)
    decreases |messages| - i
  {
    if i < |messages| && Passes(messages, c, i) {
      EndsExactly(messages, c, i + 1);
    }
  }

  /** A call that sends writes a receipt with the messages it lists and delivers, in order, a first part of the draft:
      nothing without a connection, and otherwise what its batch comes to. */
  lemma AttemptLeaves(s: Store, call: Call)
    requires Sends(s, call)
    ensures var after, key := Step(s, call), Key(call.draftId, call.fingerprint);
            var e := if call.conditions.connects then BatchFrom(call.fingerprint, call.conditions, 0) else End(ServerDown(0), 0, 0, Sending);
            && e.listed <= |call.fingerprint| && e.delivered <= |call.fingerprint|
            && SendDraftStep(s, call.draftId, call.fingerprint, call.conditions).1 == e.outcome
            && after.receipts == s.receipts[key := Receipt(e.status, Recipients(call.fingerprint)[..e.listed])]
            && |after.log| == |s.log| + e.delivered && after.log[..|s.log|] == s.log
            && forall i :: 0 <= i < e.delivered ==> after.log[|s.log| + i] == Delivery(key, call.fingerprint[i].to)
  {
    SendsUnrefused(s, call.draftId, call.fingerprint, call.conditions);
    var e := Attempt(call.fingerprint, call.conditions);
    if call.conditions.connects {
      BatchEnds(call.fingerprint, call.conditions, 0);
    }
    AttemptedLeaves(s, Key(call.draftId, call.fingerprint), e);
  }

  lemma AttemptedLeaves(s: Store, key: Key, e: End)
    requires e.listed <= |key.fingerprint| && e.delivered <= |key.fingerprint|
    ensures var after := Attempted(s, key, e);
            && after.receipts == s.receipts[key := Receipt(e.status, Recipients(key.fingerprint)[..e.listed])]
            && |after.log| == |s.log| + e.delivered && after.log[..|s.log|] == s.log
            && forall i :: 0 <= i < e.delivered ==> after.log[|s.log| + i] == Delivery(key, key.fingerprint[i].to)
  {
  }

  // ---------------------------------------------------------------- over runs

  /** Call `k` of the run sends the draft of this delivery or receipt. */
  ghost predicate SentBy(calls: seq<Call>, k: nat, key: Key) {
    k < |calls| && Sends(Run(EMPTY, calls[..k]), calls[k]) && key == Key(calls[k].draftId, calls[k].fingerprint)
  }

  lemma SentByLater(calls: seq<Call>, n: nat, k: nat, key: Key)
    requires n <= |calls| && SentBy(calls[..n], k, key)
    ensures SentBy(calls, k, key)
  {
    assert calls[..n][..k] == calls[..k] && calls[..n][k] == calls[k];
  }

  /** Over every run each receipt belongs to a call that met all the conditions when it was made. */
  lemma {:induction false} ReceiptHasCall(calls: seq<Call>, key: Key) returns (k: nat)
    requires key in Run(EMPTY, calls).receipts
    ensures SentBy(calls, k, key)
  {
    var n := |calls| - 1;
    var s := Run(EMPTY, calls[..n]);
    SendsExactly(s, calls[n]);
    if key in s.receipts {
      k := ReceiptHasCall(calls[..n], key);
      SentByLater(calls, n, k, key);
    } else {
      k := n;
    }
  }

  /** Over every run each delivery belongs to such a call, to a recipient of its draft who is the owner or was cleared by
      the guard. */
  lemma DeliveryHasCall(calls: seq<Call>, d: Delivery) returns (k: nat, i: nat)
    requires d in Run(EMPTY, calls).log
    ensures SentBy(calls, k, d.key) && i < |d.key.fingerprint| && d.to == d.key.fingerprint[i].to
    ensures MayGo(d.key.fingerprint[i], calls[k].conditions)
  {
    var s := Run(EMPTY, calls);
    RunKeepsAccount(EMPTY, calls);
    InDelivered(s.log, d);
    assert Accounted(d.key, s.receipts, Delivered(s.log, d.key));
    k := ReceiptHasCall(calls, d.key);
    var all := Recipients(d.key.fingerprint);
    i :| 0 <= i < |Delivered(s.log, d.key)| && Delivered(s.log, d.key)[i] == d.to;
    assert all[i] == d.to;
  }

  lemma {:induction false} InDelivered(log: seq<Delivery>, d: Delivery)
    requires d in log
    ensures d.to in Delivered(log, d.key)
  {
    var n := |log| - 1;
    if log[n] != d {
      assert d in log[..n];
      InDelivered(log[..n], d);
    }
  }

  /** Writing a draft of one to ten rows puts exactly those rows in its place if they say anything, and removes it otherwise;
      other drafts are untouched. */
  lemma WritesExactly(s: Store, draftId: string, rows: seq<RawRow>)
    ensures var after := WriteDraftStep(s, draftId, rows);
            && after.receipts == s.receipts && after.log == s.log
            && (forall id :: id != draftId ==> (id in after.pending <==> id in s.pending) && (id in s.pending ==> after.pending[id] == s.pending[id]))
            && if IsDraftId(draftId) && 1 <= |rows| <= 10 then
                 && (draftId in after.pending <==> exists messages: Fingerprint :: RowsSay(rows, messages))
                 && (draftId in after.pending ==> after.pending[draftId] == Rows(rows))
               else after.pending == s.pending
  {
    IdsAgree(draftId);
    RowsSaySomething(rows);
  }

  lemma RowsSaySomething(rows: seq<RawRow>)
    ensures FineRows(rows) <==> exists messages: Fingerprint :: RowsSay(rows, messages)
  {
    if FineRows(rows) {
      RowsSayExactly(rows, Messages(rows));
    }
    if messages: Fingerprint :| RowsSay(rows, messages) {
      RowsSayExactly(rows, messages);
    }
  }
}
