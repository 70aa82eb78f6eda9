/** The poll as it runs: headers first, then the relevant messages one by one, and the cursor after every batch. */
module MailboxPoll {
  import opened Common
  import opened MailboxSync

  predicate OpenedAt(us: Us, k: Known, chunk: seq<nat>, headers: nat -> Option<Header>, j: nat) {
    j < |chunk| && Opened(us, KnownAfter(us, k, chunk[..j], headers), headers(chunk[j]))
  }

  /** The positions, in order, of the messages to open among the first `n` of a batch. */
  ghost predicate Selected(us: Us, k: Known, chunk: seq<nat>, headers: nat -> Option<Header>, wanted: seq<nat>, n: nat) {
    Ascending(wanted) && forall j: nat :: j in wanted <==> j < n && OpenedAt(us, k, chunk, headers, j)
  }

  lemma SelectedNext(us: Us, k: Known, chunk: seq<nat>, headers: nat -> Option<Header>, wanted: seq<nat>, i: nat)
    requires i < |chunk| && Selected(us, k, chunk, headers, wanted, i)
    ensures Selected(us, k, chunk, headers, if OpenedAt(us, k, chunk, headers, i) then wanted + [i] else wanted, i + 1)
  {
    assert forall t :: 0 <= t < |wanted| ==> wanted[t] in wanted;
  }

  /** The messages up to `done` are handled, and `wanted` from `i` on are the ones still to be opened. */
  ghost predicate Position(wanted: seq<nat>, i: nat, done: nat, size: nat) {
    && i <= |wanted| && done <= size
    && (forall t :: 0 <= t < i ==> wanted[t] < done)
    && forall t :: i <= t < |wanted| ==> done <= wanted[t] < size
  }

  /** Messages that are not opened change nothing. */
  lemma {:induction false} PassUnopened(us: Us, k: Known, chunk: seq<nat>, headers: nat -> Option<Header>, handling: nat -> Handling,
                                        messages: map<string, nat>, done: nat, next: nat)
    requires done <= next <= |chunk| && forall j :: done <= j < next ==> !OpenedAt(us, k, chunk, headers, j)
    ensures var items := Items(us, k, chunk, headers, handling);
            && Deliver(messages, items[done..]) == Deliver(messages, items[next..])
            && (Survives(items[..done]) ==> Survives(items[..next]))
    decreases next - done
  {
    if done < next {
      var items := Items(us, k, chunk, headers, handling);
      ItemFate(us, k, chunk, headers, handling, done);
      assert !OpenedAt(us, k, chunk, headers, done);
      assert items[done..][1..] == items[done + 1..];
      assert items[..done + 1] == items[..done] + [items[done]];
      PassUnopened(us, k, chunk, headers, handling, messages, done + 1, next);
    }
  }

  lemma PassOver(us: Us, k: Known, chunk: seq<nat>, headers: nat -> Option<Header>, handling: nat -> Handling,
                 wanted: seq<nat>, i: nat, done: nat, messages: map<string, nat>)
    requires Selected(us, k, chunk, headers, wanted, |chunk|) && Position(wanted, i, done, |chunk|)
    ensures var items, next := Items(us, k, chunk, headers, handling), if i < |wanted| then wanted[i] else |chunk|;
            && Deliver(messages, items[done..]) == Deliver(messages, items[next..])
            && (Survives(items[..done]) ==> Survives(items[..next]))
            && (i < |wanted| ==> OpenedAt(us, k, chunk, headers, next))
  {
    var next := if i < |wanted| then wanted[i] else |chunk|;
    assert i < |wanted| ==> wanted[i] in wanted;
    assert forall j :: done <= j < next ==> j !in wanted;
    PassUnopened(us, k, chunk, headers, handling, messages, done, next);
  }

  /** What the fate of one message does to a batch. */
  lemma DeliverFrom(items: seq<Item>, j: nat, messages: map<string, nat>)
    requires j < |items|
    ensures Deliver(messages, items[j..])
         == if items[j].fate.Lost? then Put(messages, items[j]) else Deliver(Put(messages, items[j]), items[j + 1..])
    ensures items[j].fate.Lost? ==> !Survives(items)
    ensures items[j].fate.Judged? && Survives(items[..j]) ==> Survives(items[..j + 1])
  {
    assert items[j] in items && items[j..][0] == items[j] && items[j..][1..] == items[j + 1..];
    assert items[..j + 1] == items[..j] + [items[j]];
  }

  /** The next message that is opened, and what its fate does to the batch. */
  lemma OpenNext(us: Us, k: Known, chunk: seq<nat>, headers: nat -> Option<Header>, handling: nat -> Handling,
                 wanted: seq<nat>, i: nat, done: nat, messages: map<string, nat>)
    requires Selected(us, k, chunk, headers, wanted, |chunk|) && Position(wanted, i, done, |chunk|) && i < |wanted|
    ensures var items, j := Items(us, k, chunk, headers, handling), wanted[i];
            var next := Put(messages, Item(chunk[j], FateOpened(handling(chunk[j]))));
            && Position(wanted, i + 1, j + 1, |chunk|)
            && if handling(chunk[j]).LosesDatabase? then Deliver(messages, items[done..]) == next && !Survives(items)
               else Deliver(messages, items[done..]) == Deliver(next, items[j + 1..])
                    && (Survives(items[..done]) ==> Survives(items[..j + 1]))
  {
    var items, j := Items(us, k, chunk, headers, handling), wanted[i];
    PassOver(us, k, chunk, headers, handling, wanted, i, done, messages);
    ItemFate(us, k, chunk, headers, handling, j);
    DeliverFrom(items, j, messages);
    assert items[j] == Item(chunk[j], FateOpened(handling(chunk[j])));
  }

  lemma OpenedLast(us: Us, k: Known, chunk: seq<nat>, headers: nat -> Option<Header>, handling: nat -> Handling,
                   wanted: seq<nat>, done: nat, messages: map<string, nat>)
    requires Selected(us, k, chunk, headers, wanted, |chunk|) && Position(wanted, |wanted|, done, |chunk|)
    ensures var items := Items(us, k, chunk, headers, handling);
            Deliver(messages, items[done..]) == messages && (Survives(items[..done]) ==> Survives(items))
  {
    var items := Items(us, k, chunk, headers, handling);
    PassOver(us, k, chunk, headers, handling, wanted, |wanted|, done, messages);
    assert items[..|chunk|] == items && items[|chunk|..] == [];
  }

  class Mailbox {
    var cursor: Option<Cursor>
    /** Stored messages by provider id, with the UID each was stored from. */
    var messages: map<string, nat>
    /** Read from the database when a poll begins, and added to as headers are looked at. */
    var known: Known

    ghost var verdicts: map<(nat, nat), Verdict>

    ghost function Value(): Sync
      reads this
    {
      Sync(cursor, messages, verdicts)
    }

    constructor ()
      ensures Value() == FRESH
    {
      cursor, messages, known := None, map[], Known({}, {}, {}, {});
      verdicts := map[];
    }

    /** Appends a message unless its provider id is stored already. */
    method InsertMessage(providerId: string, uid: nat)
      modifies this`messages
      ensures messages == Insert(old(messages), providerId, uid)
    {
      if providerId !in messages {
        messages := messages[providerId := uid];
      }
    }

    /** Opens one relevant message; any failure but losing the database is quarantined and passed over. */
    method One(uid: nat, handling: Handling) returns (lost: bool)
      modifies this`messages
      ensures messages == Put(old(messages), Item(uid, FateOpened(handling)))
      ensures lost == handling.LosesDatabase?
    {
      match handling {
        case LosesDatabase(committed, providerId) =>
          if committed {
            InsertMessage(providerId, uid);
          }
          return true;
        case Stores(providerId) => InsertMessage(providerId, uid);
        case _ =>
      }
      return false;
    }

    /** Looks at the headers of one batch in order, learning from our own mail, and selects the messages to open. */
    method Select(us: Us, chunk: seq<nat>, headers: nat -> Option<Header>) returns (wanted: seq<nat>)
      modifies this`known
      ensures known == KnownAfter(us, old(known), chunk, headers)
      ensures Selected(us, old(known), chunk, headers, wanted, |chunk|)
    {
      wanted := [];
      for i := 0 to |chunk|
        invariant known == KnownAfter(us, old(known), chunk[..i], headers)
        invariant Selected(us, old(known), chunk, headers, wanted, i)
      {
        var h := headers(chunk[i]);
        SelectedNext(us, old(known), chunk, headers, wanted, i);
        assert chunk[..i + 1][..i] == chunk[..i];
        if h.Some? && h.value.readable {
          if Relevant(h.value, us, known) {
            wanted := wanted + [i];
          }
          known := Learn(h.value, us, known);
        }
      }
      assert chunk[..|chunk|] == chunk;
    }

    /** Opens the selected messages in turn: what each one commits stays, and nothing follows the loss of the database. */
    method OpenAll(us: Us, ghost k: Known, chunk: seq<nat>, ghost headers: nat -> Option<Header>, handling: nat -> Handling,
                   wanted: seq<nat>) returns (lost: bool)
      requires Selected(us, k, chunk, headers, wanted, |chunk|)
      modifies this`messages
      ensures messages == Deliver(old(messages), Items(us, k, chunk, headers, handling))
      ensures lost == !Survives(Items(us, k, chunk, headers, handling))
    {
      ghost var items := Items(us, k, chunk, headers, handling);
      ghost var done: nat := 0;
      assert forall t :: 0 <= t < |wanted| ==> wanted[t] in wanted;
      assert items[0..] == items && items[..0] == [];
      for i := 0 to |wanted|
        invariant Position(wanted, i, done, |chunk|) && Survives(items[..done])
        invariant Deliver(messages, items[done..]) == Deliver(old(messages), items)
      {
        OpenNext(us, k, chunk, headers, handling, wanted, i, done, messages);
        lost := One(chunk[wanted[i]], handling(chunk[wanted[i]]));
        if lost {
          return;
        }
        done := wanted[i] + 1;
      }
      OpenedLast(us, k, chunk, headers, handling, wanted, done, messages);
      lost := false;
    }

    /** Handles one batch. */
    method Batch(us: Us, chunk: seq<nat>, headers: nat -> Option<Header>, handling: nat -> Handling) returns (lost: bool)
      modifies this`known, this`messages
      ensures known == KnownAfter(us, old(known), chunk, headers)
      ensures messages == Deliver(old(messages), Items(us, old(known), chunk, headers, handling))
      ensures lost == !Survives(Items(us, old(known), chunk, headers, handling))
    {
      ghost var k := known;
      var wanted := Select(us, chunk, headers);
      lost := OpenAll(us, k, chunk, headers, handling, wanted);
    }

    /** The batch `items` is done: its cursor is saved, and its verdicts are noted. */
    method SaveCursor(v: nat, lastUid: nat, ghost before: Sync, ghost items: seq<Item>)
      requires items != [] && Survives(items) && lastUid == Larger(LastUid(before.cursor, v), items[|items| - 1].uid)
      requires Value() == before.(messages := Deliver(before.messages, items))
      modifies this`cursor, this`verdicts
      ensures Value() == Saved(before, v, items) && lastUid == LastUid(cursor, v)
    {
      cursor := Some(Cursor(lastUid, v));
      verdicts := Judge(verdicts, v, items);
    }

    /** One turn of the loop: the batch, and its cursor if the database and the poll survived it. */
    method OneBatch(us: Us, v: nat, lastUid: nat, chunk: seq<nat>,
                    headers: nat -> Option<Header>, handling: nat -> Handling, ends: Break) returns (goesOn: bool, last: nat)
      requires chunk != [] && lastUid == LastUid(cursor, v)
      modifies this
      ensures var items := Items(us, old(known), chunk, headers, handling);
              && goesOn == Saves(items, ends)
              && (ends == EndsBefore ==> Value() == old(Value()))
              && (ends != EndsBefore && !goesOn ==> Value() == old(Value()).(messages := Deliver(old(messages), items)))
              && (goesOn ==> Value() == Saved(old(Value()), v, items) && last == LastUid(cursor, v)
                             && known == KnownAfter(us, old(known), chunk, headers))
    {
      ghost var s, items := Value(), Items(us, known, chunk, headers, handling);
      last := lastUid;
      if ends == EndsBefore {
        return false, last;
      }
      var lost := Batch(us, chunk, headers, handling);
      if lost || ends == EndsUnsaved {
        return false, last;
      }
      last := Larger(lastUid, chunk[|chunk| - 1]);
      SaveCursor(v, last, s, items);
      return true, last;
    }

    /** Works through the list in batches of a hundred; the cursor is saved after each one that the database survived. */
    method WorkThrough(us: Us, v: nat, uids: seq<nat>,
                       headers: nat -> Option<Header>, handling: nat -> Handling, breaks: nat -> Break)
      modifies this
      ensures Value() == Work(old(Value()), v, breaks, Items(us, old(known), uids, headers, handling))
    {
      var i := 0;
      var lastUid := LastUid(cursor, v);
      ghost var goal := Work(Value(), v, breaks, Items(us, known, uids, headers, handling));
      assert uids[0..] == uids;
      while i < |uids|
        invariant 0 <= i <= |uids| && lastUid == LastUid(cursor, v)
        invariant Work(Value(), v, breaks, Items(us, known, uids[i..], headers, handling)) == goal
      {
        var end := if i + 100 < |uids| then i + 100 else |uids|;
        BatchAhead(us, known, uids, i, end, headers, handling, breaks, Value(), v);
        var goesOn, last := OneBatch(us, v, lastUid, uids[i..end], headers, handling, breaks(uids[end - 1]));
        if !goesOn {
          return;
        }
        lastUid, i := last, end;
      }
      assert uids[i..] == [];
    }

    /** One poll: it reads what the database knows, searches, and works through what it found. */
    method PollOnce(w: World, input: Input)
      modifies this
      ensures Value() == Poll(w, old(Value()), input)
    {
      var uids := Search(w, cursor, input);
      if |uids| > input.limit {
        uids := uids[..input.limit];
      }
      known := input.known;
      WorkThrough(w.us, input.server.validity, uids, input.headers, input.handling, input.breaks);
    }

    method RunPolls(w: World, polls: seq<Input>)
      requires Value() == FRESH
      modifies this
      ensures Value() == Run(w, polls)
    {
      for i := 0 to |polls|
        invariant Value() == Run(w, polls[..i])
      {
        assert polls[..i + 1][..i] == polls[..i];
        PollOnce(w, polls[i]);
      }
      assert polls[..|polls|] == polls;
    }
  }

  lemma WorkSplit(s: Sync, v: nat, breaks: nat -> Break, batch: seq<Item>, rest: seq<Item>)
    requires batch != [] && |batch| == BatchSize(|batch| + |rest|)
    ensures Work(s, v, breaks, batch + rest)
         == if breaks(batch[|batch| - 1].uid) == EndsBefore then s
            else if Saves(batch, breaks(batch[|batch| - 1].uid)) then Work(Saved(s, v, batch), v, breaks, rest)
            else s.(messages := Deliver(s.messages, batch))
  {
    var items := batch + rest;
    assert items[..|batch|] == batch && items[|batch|..] == rest && items[|batch| - 1] == batch[|batch| - 1];
  }

  /** The next turn of the batch loop, as the list of fates sees it. */
  lemma BatchAhead(us: Us, k: Known, uids: seq<nat>, i: nat, end: nat, headers: nat -> Option<Header>, handling: nat -> Handling,
                   breaks: nat -> Break, s: Sync, v: nat)
    requires i < |uids| && end == if i + 100 < |uids| then i + 100 else |uids|
    ensures var batch, rest := Items(us, k, uids[i..end], headers, handling),
                               Items(us, KnownAfter(us, k, uids[i..end], headers), uids[end..], headers, handling);
            Work(s, v, breaks, Items(us, k, uids[i..], headers, handling))
            == if breaks(uids[end - 1]) == EndsBefore then s
               else if Saves(batch, breaks(uids[end - 1])) then Work(Saved(s, v, batch), v, breaks, rest)
               else s.(messages := Deliver(s.messages, batch))
  {
    var batch, rest := Items(us, k, uids[i..end], headers, handling),
                       Items(us, KnownAfter(us, k, uids[i..end], headers), uids[end..], headers, handling);
    assert uids[i..] == uids[i..end] + uids[end..];
    ItemsSplit(us, k, uids[i..end], uids[end..], headers, handling);
    assert batch[|batch| - 1].uid == uids[end - 1];
    WorkSplit(s, v, breaks, batch, rest);
  }
}
