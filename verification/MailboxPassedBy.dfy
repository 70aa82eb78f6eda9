/** Mail that a poll passes by unread: fetches that are not answered, and rescans. */
module MailboxPassedBy {
  import opened Common
  import opened MailboxSync
  import opened MailboxRuns

  /** Nothing is fetched, and nothing else goes wrong. */
  ghost predicate Unanswered(input: Input) {
    && WellFormed(input.server)
    && (forall u: nat :: input.headers(u) == None) && (forall u: nat :: input.breaks(u) == GoesOn)
  }

  lemma {:induction false} UnansweredItems(us: Us, k: Known, uids: seq<nat>, headers: nat -> Option<Header>, handling: nat -> Handling)
    requires forall u: nat :: headers(u) == None
    ensures forall item <- Items(us, k, uids, headers, handling) :: item.fate == Judged(Unfetched)
  {
    if uids != [] {
      UnansweredItems(us, k, uids[..|uids| - 1], headers, handling);
    }
  }

  /** The server answers a search but none of the fetches: the poll stores nothing, and its cursor moves past everything
      that it found all the same. */
  lemma UnansweredPoll(w: World, s: Sync, input: Input)
    requires Unanswered(input) && 0 < |Search(w, s.cursor, input)| <= input.limit
    ensures var found, v, after := Search(w, s.cursor, input), input.server.validity, Poll(w, s, input);
            && after.messages == s.messages
            && after.cursor == Some(Cursor(Larger(LastUid(s.cursor, v), found[|found| - 1]), v))
            && forall u <- found :: (v, u) in after.verdicts && after.verdicts[(v, u)] == Unfetched
  {
    var items := Worklist(w, s.cursor, input);
    UnansweredItems(w.us, input.known, Capped(w, s.cursor, input), input.headers, input.handling);
    UndisturbedJudges(w, s.cursor, input);
    PollCursor(w, s, input);
    WorkStores(s, input.server.validity, input.breaks, items);
    assert Poll(w, s, input).messages == s.messages;
    forall u | u in Search(w, s.cursor, input)
      ensures (input.server.validity, u) in Poll(w, s, input).verdicts
      ensures Poll(w, s, input).verdicts[(input.server.validity, u)] == Unfetched
    {
      PollReads(w, s, input, input.server.validity, u);
    }
  }

  // ---------------------------------------------------------------- a message nobody read

  function Nobody(): Us {
    Us({}, (a: string) => "")
  }

  /** A poll of these messages whose fetches stay unanswered, and which may end before its first batch. */
  function Silent(uids: seq<nat>, rescan: bool, end: Break): Input {
    Input(Server(1, uids), rescan, 3000, Known({}, {}, {}, {}), (u: nat) => None, (u: nat) => Leaves, (u: nat) => end)
  }

  lemma OnlyMember(found: seq<nat>, x: nat)
    requires Ascending(found) && forall u :: u in found <==> u == x
    ensures found == [x]
  {
    assert x in found && forall i :: 0 <= i < |found| ==> found[i] in found;
    var first, last := found[0], found[|found| - 1];
    assert first == last == x;
  }

  lemma FindsOne(w: World, cursor: Option<Cursor>, input: Input, x: nat)
    requires input.server.uids == [x] && Sought(w, cursor, input, x)
    ensures Search(w, cursor, input) == [x]
  {
    var uids, found := input.server.uids, Search(w, cursor, input);
    SearchFinds(w, cursor, input);
    assert uids[0] == x;
    forall u | u in found
      ensures u == x
    {
      assert u in uids;
    }
    OnlyMember(found, x);
  }

  lemma FirstOfRun(w: World, poll: Input)
    ensures Run(w, [poll]) == Poll(w, FRESH, poll)
  {
    assert [poll][..0] == [];
  }

  /** A first poll of a mailbox with one recent message, its fetch unanswered. */
  lemma FirstOfOne(w: World, poll: Input, x: nat)
    requires Unanswered(poll) && poll.server == Server(1, [x]) && w.recent(1, x) && poll.limit > 0
    ensures UnreadBehind(Run(w, [poll]), x)
  {
    assert poll.server.uids[0] == x;
    FirstOfRun(w, poll);
    FindsOne(w, None, poll, x);
    UnansweredFresh(w, poll, x);
  }

  /** The cursor stands at the message, nothing is stored, and the message was not fetched. */
  ghost predicate UnreadBehind(s: Sync, x: nat) {
    && s.cursor == Some(Cursor(x, 1)) && s.messages == map[]
    && (1, x) in s.verdicts && s.verdicts[(1, x)] == Unfetched
  }

  lemma UnansweredFresh(w: World, poll: Input, x: nat)
    requires Unanswered(poll) && poll.server.validity == 1 && poll.limit > 0 && Search(w, FRESH.cursor, poll) == [x]
    ensures UnreadBehind(Poll(w, FRESH, poll), x)
  {
    UnansweredPoll(w, FRESH, poll);
    assert [x][0] == x && x in [x];
  }

  /** An ascending selection from a list is no longer than the list. */
  lemma {:induction false} FoundFits(uids: seq<nat>, found: seq<nat>)
    requires Ascending(uids) && Ascending(found) && forall u <- found :: u in uids
    ensures |found| <= |uids|
  {
    if found != [] {
      var n := |found| - 1;
      var i :| 0 <= i < |uids| && uids[i] == found[n] by {
        assert found[n] in uids;
      }
      forall u | u in found[..n]
        ensures u in uids[..i]
      {
        var j :| 0 <= j < n && found[..n][j] == u;
        assert u in found && u < found[n];
        var k :| 0 <= k < |uids| && uids[k] == u;
        assert uids[..i][k] == u;
      }
      FoundFits(uids[..i], found[..n]);
    }
  }

  lemma NoneAbove(w: World, poll: Input, x: nat)
    requires poll.server == Server(1, [x]) && !poll.rescan
    ensures Search(w, Some(Cursor(x, 1)), poll) == []
  {
    SearchFinds(w, Some(Cursor(x, 1)), poll);
    FoundFits([], Search(w, Some(Cursor(x, 1)), poll));
  }

  /** From an empty database, a mailbox of one recent message whose fetch is not answered: afterwards the cursor is behind
      the message, nothing is stored, and no later ordinary poll finds it. */
  lemma RecentMailPassedUnread()
    ensures var w, poll := World(Nobody(), (v: nat, u: nat) => true), Silent([5], false, GoesOn);
            var s := Run(w, [poll]);
            UnreadBehind(s, 5) && Search(w, s.cursor, poll) == []
  {
    var w, poll := World(Nobody(), (v: nat, u: nat) => true), Silent([5], false, GoesOn);
    FirstOfOne(w, poll, 5);
    NoneAbove(w, poll, 5);
  }

  // ---------------------------------------------------------------- a message that a rescan passes by

  /** UIDs 4 and 6 fall in the date window; UID 5 arrived later than 4 but carries an older date. */
  function OldDate(): World {
    World(Nobody(), (v: nat, u: nat) => u == 4 || u == 6)
  }

  /** A first poll, an ordinary one that ends before anything is done, and a rescan. */
  function ThreePolls(): seq<Input> {
    [Silent([4], false, GoesOn), Silent([4, 5, 6], false, EndsBefore), Silent([4, 5, 6], true, GoesOn)]
  }

  lemma LastIs(found: seq<nat>, x: nat)
    requires Ascending(found) && x in found && forall u <- found :: u <= x
    ensures found != [] && found[|found| - 1] == x
  {
    var i :| 0 <= i < |found| && found[i] == x;
    assert found[|found| - 1] in found;
  }

  lemma FirstPoll()
    ensures Run(OldDate(), ThreePolls()[..1]).cursor == Some(Cursor(4, 1))
  {
    assert ThreePolls()[..1] == [Silent([4], false, GoesOn)];
    FirstOfOne(OldDate(), Silent([4], false, GoesOn), 4);
  }

  /** A poll that ends before its first batch leaves everything as it was. */
  lemma EndedAtOnce(w: World, s: Sync, input: Input)
    requires forall u: nat :: input.breaks(u) == EndsBefore
    ensures Poll(w, s, input) == s
  {
  }

  lemma SecondPoll()
    ensures Run(OldDate(), ThreePolls()[..2]).cursor == Some(Cursor(4, 1))
  {
    var w, polls := OldDate(), ThreePolls();
    FirstPoll();
    assert polls[..2][..1] == polls[..1] && polls[..2][1] == polls[1];
    EndedAtOnce(w, Run(w, polls[..1]), polls[1]);
  }

  lemma SearchesAbove(w: World, polls: seq<Input>, i: nat, u: nat)
    requires i < |polls| && !polls[i].rescan && Ascending(polls[i].server.uids) && u in polls[i].server.uids
    requires var c := Run(w, polls[..i]).cursor; c.Some? && c.value.validity == polls[i].server.validity && c.value.lastUid < u
    ensures SearchedBy(w, polls, i, polls[i].server.validity, u)
  {
    SearchFinds(w, Run(w, polls[..i]).cursor, polls[i]);
  }

  lemma SecondPollIs(polls: seq<Input>)
    requires polls == ThreePolls()
    ensures |polls| == 3 && !polls[1].rescan && polls[1].server == Server(1, [4, 5, 6])
    ensures Ascending(polls[1].server.uids) && 5 in polls[1].server.uids
  {
    assert polls[1].server.uids[1] == 5;
  }

  lemma SecondPollSearches()
    ensures SearchedBy(OldDate(), ThreePolls(), 1, 1, 5)
  {
    FirstPoll();
    SecondPollIs(ThreePolls());
    SearchesAbove(OldDate(), ThreePolls(), 1, 5);
  }

  /** What the last poll passes as a rescan, outside the window, stays without a verdict. */
  lemma RescanPasses(w: World, polls: seq<Input>, server: Server, i: nat, u: nat)
    requires polls != [] && Changing(polls) && Follows(polls, server) && u in server.uids
    requires SearchedBy(w, polls, i, server.validity, u) && !w.recent(server.validity, u) && polls[|polls| - 1].rescan
    requires LastUid(Run(w, polls[..|polls| - 1]).cursor, server.validity) < u <= LastUid(Run(w, polls).cursor, server.validity)
    ensures (server.validity, u) !in Run(w, polls).verdicts
  {
    SearchedIsJudged(w, polls, server, i, u);
    assert Mover(w, polls, server.validity, u) == Some(|polls| - 1);
  }

  /** A search of the window that takes in the newest message ends with it. */
  lemma EndsWithNewest(w: World, cursor: Option<Cursor>, input: Input, x: nat)
    requires WellFormed(input.server) && !Continues(cursor, input)
    requires x in input.server.uids && w.recent(input.server.validity, x) && forall u <- input.server.uids :: u <= x
    ensures var found := Search(w, cursor, input);
            0 < |found| <= |input.server.uids| && found[|found| - 1] == x
  {
    SearchFinds(w, cursor, input);
    assert x != 0;
    LastIs(Search(w, cursor, input), x);
    FoundFits(input.server.uids, Search(w, cursor, input));
  }

  lemma UnansweredRescan(w: World, s: Sync, input: Input, x: nat)
    requires Unanswered(input) && input.rescan && input.server.validity == 1 && |input.server.uids| <= input.limit
    requires x in input.server.uids && w.recent(1, x) && forall u <- input.server.uids :: u <= x
    requires s.cursor.Some? && s.cursor.value.validity == 1 && s.cursor.value.lastUid < x
    ensures Poll(w, s, input).cursor == Some(Cursor(x, 1))
  {
    EndsWithNewest(w, s.cursor, input, x);
    UnansweredPoll(w, s, input);
  }

  lemma RescanMoves(w: World, s: Sync, input: Input)
    requires w == OldDate() && input == Silent([4, 5, 6], true, GoesOn) && s.cursor == Some(Cursor(4, 1))
    ensures Poll(w, s, input).cursor == Some(Cursor(6, 1))
  {
    assert input.server.uids[2] == 6;
    UnansweredRescan(w, s, input, 6);
  }

  lemma ThirdPoll()
    ensures Run(OldDate(), ThreePolls()).cursor == Some(Cursor(6, 1))
  {
    var w, polls := OldDate(), ThreePolls();
    SecondPoll();
    RescanMoves(w, Run(w, polls[..2]), polls[2]);
  }

  lemma ThreePollsChange()
    ensures Changing(ThreePolls()) && Follows(ThreePolls(), Server(1, [4, 5, 6]))
  {
    var polls := ThreePolls();
    assert polls[..2][..1] == polls[..1] && polls[..1][..0] == [] && polls[..2][1] == polls[1];
    assert forall i :: 0 <= i < 3 ==> Later(polls[i].server, Server(1, [4, 5, 6]));
    assert Changing([]) && Changing(polls[..1]) && Changing(polls[..2]);
  }

  lemma LastTwoCursors()
    ensures LastUid(Run(OldDate(), ThreePolls()[..|ThreePolls()| - 1]).cursor, 1) == 4
    ensures Run(OldDate(), ThreePolls()).cursor == Some(Cursor(6, 1))
  {
    SecondPoll();
    ThirdPoll();
    assert ThreePolls()[..|ThreePolls()| - 1] == ThreePolls()[..2];
  }

  lemma FiveIsOld(polls: seq<Input>, server: Server)
    requires polls == ThreePolls() && server == Server(1, [4, 5, 6])
    ensures polls != [] && 5 in server.uids && !OldDate().recent(server.validity, 5) && polls[|polls| - 1].rescan
  {
    assert server.uids[1] == 5;
  }

  /** In this run the rescan passes UID 5 by: an ordinary poll had searched it, it is still there and behind the cursor,
      and it has no verdict. */
  lemma RescanPassesBy()
    ensures SearchedBy(OldDate(), ThreePolls(), 1, 1, 5)
    ensures Run(OldDate(), ThreePolls()).cursor == Some(Cursor(6, 1)) && (1, 5) !in Run(OldDate(), ThreePolls()).verdicts
  {
    SecondPollSearches();
    LastTwoCursors();
    ThreePollsChange();
    PassedInThree(OldDate(), ThreePolls(), Server(1, [4, 5, 6]));
  }

  lemma PassedInThree(w: World, polls: seq<Input>, server: Server)
    requires w == OldDate() && polls == ThreePolls() && server == Server(1, [4, 5, 6])
    requires Changing(polls) && Follows(polls, server) && SearchedBy(w, polls, 1, 1, 5)
    requires LastUid(Run(w, polls[..|polls| - 1]).cursor, 1) == 4 && Run(w, polls).cursor == Some(Cursor(6, 1))
    ensures (1, 5) !in Run(w, polls).verdicts
  {
    FiveIsOld(polls, server);
    RescanPasses(w, polls, server, 1, 5);
  }
}
