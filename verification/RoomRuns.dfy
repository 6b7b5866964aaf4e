/**
 Whole runs of committed transactions, from empty tables, under any schedule.
 */
module RoomRuns {
  import opened Text
  import opened RoomStates
  import opened RoomTables
  import opened RoomInvariants
  import opened RoomLinks

  // ---- state changes are edges of the state machine ---------------------------------------------

  ghost predicate Legal(before: RoomState, after: RoomState) {
    before == after || Edge(before, after)
  }

  ghost predicate AllLegal(before: map<RoomId, Room>, after: map<RoomId, Room>) {
    forall id :: id in before && id in after ==> Legal(before[id].state, after[id].state)
  }

  /** A still pending challenge is declined or cancelled after its room's match finished. */
  predicate CancelsFinished(t: Tables, now: Time, op: Op) {
    && op.OpResolveChallenge? && op.cid in t.challenges && t.challenges[op.cid].room in t.rooms
    && op.user == (if op.cancel then t.challenges[op.cid].challenger else t.challenges[op.cid].challenged)
    && IsPending(t.challenges[op.cid], now)
    && t.rooms[t.challenges[op.cid].room].state == Finished
  }

  lemma LegalMoves(before: RoomState)
    ensures before in {Waiting, Challenging} ==> Legal(before, Connecting)
    ensures before == Connecting ==> Legal(before, Playing)
    ensures before == Playing ==> Legal(before, Finished)
    ensures before != Finished ==> Legal(before, Cancelled)
    ensures !Legal(Finished, Cancelled)
    ensures Legal(before, before)
  {
    EdgesAre(before, Connecting);
    EdgesAre(before, Playing);
    EdgesAre(before, Finished);
    EdgesAre(before, Cancelled);
    EdgesAre(Finished, Cancelled);
  }

  lemma DisposalIsLegal(rooms: map<RoomId, Room>, host: UserId, game: string, keep: Option<RoomId>, how: Disposal)
    ensures AllLegal(rooms, DisposeWaiting(rooms, host, game, keep, how))
  {
    hide Legal;
    LegalMoves(Waiting);
    forall id | id in rooms ensures Legal(rooms[id].state, rooms[id].state) {
      LegalMoves(rooms[id].state);
    }
  }

  lemma PutIsLegal(rooms: map<RoomId, Room>, id: RoomId, room: Room)
    requires id in rooms ==> Legal(rooms[id].state, room.state)
    ensures AllLegal(rooms, rooms[id := room])
  {
    hide Legal;
    forall other | other in rooms ensures Legal(rooms[other].state, rooms[other].state) {
      LegalMoves(rooms[other].state);
    }
  }

  lemma DisposePutIsLegal(rooms: map<RoomId, Room>, host: UserId, game: string, keep: Option<RoomId>, how: Disposal,
                          id: RoomId, room: Room)
    requires id in rooms ==> Legal(rooms[id].state, room.state)
    ensures AllLegal(rooms, DisposeWaiting(rooms, host, game, keep, how)[id := room])
  {
    hide Legal;
    DisposalIsLegal(rooms, host, game, keep, how);
  }

  lemma AcceptedChallengesAreLegal(t: Tables, now: Time, user: UserId, cid: ChallengeId)
    ensures AllLegal(t.rooms, AcceptChallenge(t, now, user, cid).tables.rooms)
  {
    hide AllLegal, Legal, DisposeWaiting;
    var after := AcceptChallenge(t, now, user, cid).tables.rooms;
    LegalMoves(Challenging);
    StayingIsLegal(t.rooms);
    if after != t.rooms {
      var id := t.challenges[cid].room;
      DisposePutIsLegal(t.rooms, user, t.rooms[id].game, None, KeepDeadlines, id, after[id]);
    }
  }

  lemma JoinedInvitesAreLegal(t: Tables, now: Time, user: UserId, code: Code)
    ensures AllLegal(t.rooms, JoinInvite(t, now, user, code).tables.rooms)
  {
    hide AllLegal, Legal, DisposeWaiting;
    var after := JoinInvite(t, now, user, code).tables.rooms;
    LegalMoves(Waiting);
    LegalMoves(Challenging);
    StayingIsLegal(t.rooms);
    if after != t.rooms {
      var id := t.invites[code].room;
      DisposePutIsLegal(t.rooms, user, t.rooms[id].game, Some(id), ClearDeadlines, id, after[id]);
    }
  }

  lemma StayingIsLegal(rooms: map<RoomId, Room>)
    ensures AllLegal(rooms, rooms)
  {
  }

  lemma OpeningsAreLegal(t: Tables, now: Time, op: Op)
    requires Opens(op)
    ensures AllLegal(t.rooms, Apply(t, now, op).tables.rooms)
  {
    hide AllLegal, Legal, DisposeWaiting, EvidenceVerifies, RoomIsWaitingFor, HasPending, RecentChallenges;
    var after := Apply(t, now, op).tables.rooms;
    StayingIsLegal(t.rooms);
    if after == t.rooms {
    } else if op.OpCreateRoom? {
      PutIsLegal(t.rooms, op.id, after[op.id]);
    } else if op.OpCreateChallenge? {
      DisposePutIsLegal(t.rooms, op.user, op.game, None, KeepDeadlines, op.id, after[op.id]);
    } else {
      DisposePutIsLegal(t.rooms, op.user, t.rooms[op.source].game, None, LeaveAttempt, op.id, after[op.id]);
    }
  }

  lemma ResolvingIsLegalUnlessFinished(t: Tables, now: Time, op: Op)
    requires op.OpResolveChallenge?
    ensures AllLegal(t.rooms, Apply(t, now, op).tables.rooms) <==> !CancelsFinished(t, now, op)
  {
    hide Legal;
    var after := Apply(t, now, op).tables.rooms;
    StayingIsLegal(t.rooms);
    if after != t.rooms {
      var id := t.challenges[op.cid].room;
      LegalMoves(t.rooms[id].state);
      if !CancelsFinished(t, now, op) {
        PutIsLegal(t.rooms, id, after[id]);
      } else {
        assert !Legal(t.rooms[id].state, after[id].state);
      }
    }
  }

  lemma OneRoomMovesLegally(t: Tables, now: Time, op: Op)
    requires op.OpAcceptRoom? || op.OpCancelRoom? || op.OpDeclineRoom?
    ensures AllLegal(t.rooms, Apply(t, now, op).tables.rooms)
  {
    hide AllLegal, Legal, WithChallengesOf, AllEnded;
    var after := Apply(t, now, op).tables.rooms;
    StayingIsLegal(t.rooms);
    if after != t.rooms {
      LegalMoves(t.rooms[op.id].state);
      PutIsLegal(t.rooms, op.id, after[op.id]);
    }
  }

  lemma PlayMovesLegally(t: Tables, now: Time, op: Op)
    requires op.OpLaunch? || op.OpExit?
    ensures AllLegal(t.rooms, Apply(t, now, op).tables.rooms)
  {
    hide AllLegal, Legal, GrantsWithout, HasLaunchGrant, EndedUsers;
    var after := Apply(t, now, op).tables.rooms;
    StayingIsLegal(t.rooms);
    if after != t.rooms {
      LegalMoves(t.rooms[op.id].state);
      PutIsLegal(t.rooms, op.id, after[op.id]);
    }
  }

  lemma PreparingMovesLegally(t: Tables, now: Time, op: Op)
    requires op.OpSubmitPreflight? || op.OpReady? || op.OpCreateGrant?
    ensures AllLegal(t.rooms, Apply(t, now, op).tables.rooms)
  {
    hide AllLegal, Legal, PreflightsMatch, ReadyUsers, ValidPreflightCompatibility, BarrierPassed, WithReady;
    var after := Apply(t, now, op).tables.rooms;
    StayingIsLegal(t.rooms);
    if after != t.rooms {
      LegalMoves(t.rooms[op.id].state);
      PutIsLegal(t.rooms, op.id, after[op.id]);
    }
  }

  lemma ReconcilingIsLegal(t: Tables, now: Time, op: Op)
    requires op.OpReconcile?
    ensures AllLegal(t.rooms, Apply(t, now, op).tables.rooms)
  {
    hide Legal;
    forall id | id in t.rooms
      ensures Legal(t.rooms[id].state, t.rooms[id].state)
      ensures Live(t.rooms[id].state) ==> Legal(t.rooms[id].state, Cancelled)
    {
      LegalMoves(t.rooms[id].state);
    }
  }

  lemma TheseKeepRooms(t: Tables, now: Time, op: Op)
    requires op.OpCreateInvite? || op.OpConsumeGrant?
    ensures Apply(t, now, op).tables.rooms == t.rooms
  {
  }

  lemma ApplyJoins(t: Tables, now: Time, op: Op)
    ensures op.OpAcceptChallenge? ==> Apply(t, now, op) == AcceptChallenge(t, now, op.user, op.cid)
    ensures op.OpJoinInvite? ==> Apply(t, now, op) == JoinInvite(t, now, op.user, op.code)
  {
  }

  /** Every committed change is an edge or a stutter, with one exception, met exactly then. */
  lemma ChangesAreEdgesExactlyWhen(t: Tables, now: Time, op: Op)
    ensures AllLegal(t.rooms, Apply(t, now, op).tables.rooms) <==> !CancelsFinished(t, now, op)
  {
    hide AllLegal, Apply;
    if op.OpAcceptChallenge? {
      AcceptedChallengesAreLegal(t, now, op.user, op.cid);
      assert Apply(t, now, op) == AcceptChallenge(t, now, op.user, op.cid) by { ApplyJoins(t, now, op); }
    } else if op.OpJoinInvite? {
      JoinedInvitesAreLegal(t, now, op.user, op.code);
      assert Apply(t, now, op) == JoinInvite(t, now, op.user, op.code) by { ApplyJoins(t, now, op); }
    } else if Opens(op) {
      OpeningsAreLegal(t, now, op);
    } else if op.OpResolveChallenge? {
      ResolvingIsLegalUnlessFinished(t, now, op);
    } else if op.OpReconcile? {
      ReconcilingIsLegal(t, now, op);
    } else if op.OpCreateInvite? || op.OpConsumeGrant? {
      assert Apply(t, now, op).tables.rooms == t.rooms by { TheseKeepRooms(t, now, op); }
      StayingIsLegal(t.rooms);
    } else if op.OpSubmitPreflight? || op.OpReady? || op.OpCreateGrant? {
      PreparingMovesLegally(t, now, op);
    } else if op.OpLaunch? || op.OpExit? {
      PlayMovesLegally(t, now, op);
    } else {
      OneRoomMovesLegally(t, now, op);
    }
  }

  // ---- a pending challenge's room -------------------------------------------------------------------

  predicate PendingOk(t: Tables) {
    forall c :: c in t.challenges && t.challenges[c].state == Pending ==>
      t.challenges[c].room in t.rooms && t.rooms[t.challenges[c].room].state == Challenging
  }

  /** The restriction under which the exception cannot happen: `accept_room` leaves challenge rooms alone. */
  predicate LeavesChallengesAlone(t: Tables, op: Op) {
    op.OpAcceptRoom? && op.id in t.rooms ==> t.rooms[op.id].state != Challenging
  }

  /** A room waiting for an answer keeps waiting, unless it is this challenge that the handler settles. */
  predicate StillChallenging(t: Tables, after: Tables, c: ChallengeId) {
    c in t.challenges && t.challenges[c].state == Pending
    && c in after.challenges && after.challenges[c].state == Pending ==>
      t.challenges[c].room in after.rooms && after.rooms[t.challenges[c].room].state == Challenging
  }

  lemma JoinsSettle(t: Tables, now: Time, op: Op, c: ChallengeId)
    requires ChallengesOk(t.rooms, t.challenges) && InvitesOk(t.rooms, t.invites) && PendingOk(t)
    requires op.OpAcceptRoom? || op.OpAcceptChallenge? || op.OpJoinInvite?
    requires LeavesChallengesAlone(t, op)
    ensures StillChallenging(t, Apply(t, now, op).tables, c)
  {
    hide Disposed, Joined;
  }

  lemma CancelsSettle(t: Tables, now: Time, op: Op, c: ChallengeId)
    requires ChallengesOk(t.rooms, t.challenges) && PendingOk(t)
    requires op.OpCancelRoom? || op.OpDeclineRoom? || op.OpResolveChallenge?
    ensures StillChallenging(t, Apply(t, now, op).tables, c)
  {
    hide AllEnded, Closed;
  }

  lemma ReconcilingSettles(t: Tables, now: Time, op: Op, c: ChallengeId)
    requires PendingOk(t) && op.OpReconcile?
    ensures StillChallenging(t, Apply(t, now, op).tables, c)
  {
    hide IsBatch, Reconciled;
  }

  lemma ChallengingLeavesChallenges(t: Tables, now: Time, op: Op, c: ChallengeId)
    requires ChallengesOk(t.rooms, t.challenges) && PendingOk(t) && op.OpCreateChallenge?
    ensures StillChallenging(t, Apply(t, now, op).tables, c)
  {
    hide Disposed, NewRoom, RecentChallenges, HasPending;
  }

  lemma OpeningsLeaveChallenges(t: Tables, now: Time, op: Op, c: ChallengeId)
    requires ChallengesOk(t.rooms, t.challenges) && PendingOk(t) && Opens(op)
    ensures StillChallenging(t, Apply(t, now, op).tables, c)
  {
    if op.OpCreateChallenge? {
      hide Apply;
      ChallengingLeavesChallenges(t, now, op, c);
    } else {
      hide Disposed, NewRoom, EvidenceVerifies;
    }
  }

  lemma OthersLeaveChallenges(t: Tables, now: Time, op: Op, c: ChallengeId)
    requires c in t.challenges && t.challenges[c].room in t.rooms && t.rooms[t.challenges[c].room].state == Challenging
    requires op.OpSubmitPreflight? || op.OpReady? || op.OpCreateGrant? || op.OpLaunch? || op.OpExit?
    ensures StillChallenging(t, Apply(t, now, op).tables, c)
  {
    hide PreflightsMatch, GrantsWithout, HasLaunchGrant, ValidPreflightCompatibility, BarrierPassed, Readied, Launched,
         Exited;
  }

  lemma PendingStep(t: Tables, now: Time, op: Op)
    requires Inv(t) && PendingOk(t) && LeavesChallengesAlone(t, op)
    ensures PendingOk(Apply(t, now, op).tables)
  {
    hide RoomsOk, WaitingOk, PairsOk, GrantsOk;
    var after := Apply(t, now, op).tables;
    forall c | c in after.challenges && after.challenges[c].state == Pending
      ensures after.challenges[c].room in after.rooms && after.rooms[after.challenges[c].room].state == Challenging
    {
      if c in t.challenges {
        hide Apply, ChallengesOk, InvitesOk;
        ChallengesKeepTheirRooms(t, now, op, c);
        if op.OpAcceptRoom? || op.OpAcceptChallenge? || op.OpJoinInvite? {
          JoinsSettle(t, now, op, c);
        } else if op.OpCancelRoom? || op.OpDeclineRoom? || op.OpResolveChallenge? {
          CancelsSettle(t, now, op, c);
        } else if op.OpReconcile? {
          ReconcilingSettles(t, now, op, c);
        } else if Opens(op) {
          OpeningsLeaveChallenges(t, now, op, c);
        } else if op.OpCreateInvite? || op.OpConsumeGrant? {
          TheseKeepRooms(t, now, op);
        } else if t.challenges[c].state == Pending {
          OthersLeaveChallenges(t, now, op, c);
        }
      } else {
        NewChallengesPend(t, now, op, c);
      }
    }
  }

  lemma ChallengesKeepTheirRooms(t: Tables, now: Time, op: Op, c: ChallengeId)
    requires c in t.challenges && c in Apply(t, now, op).tables.challenges
    ensures Apply(t, now, op).tables.challenges[c].room == t.challenges[c].room
    ensures Apply(t, now, op).tables.challenges[c].state == Pending ==> t.challenges[c].state == Pending
  {
    if op.OpCreateChallenge? {
      hide DisposeWaiting, NewRoom, RecentChallenges, HasPending;
      ExpiringSettles(t.challenges, now);
    } else {
      hide Apply;
      OthersSettle(t, now, op);
    }
  }

  lemma NewChallengesPend(t: Tables, now: Time, op: Op, c: ChallengeId)
    requires c !in t.challenges && c in Apply(t, now, op).tables.challenges
    ensures var after := Apply(t, now, op).tables;
            after.challenges[c].room in after.rooms && after.rooms[after.challenges[c].room].state == Challenging
  {
    if !op.OpCreateChallenge? {
      hide Apply;
      OthersSettle(t, now, op);
    }
  }

  // ---- runs -----------------------------------------------------------------------------------------

  datatype Commit = Commit(now: Time, op: Op)

  function At(t: Tables, run: seq<Commit>): Tables {
    if run == [] then t
    else
      var last := run[|run| - 1];
      Apply(At(t, run[..|run| - 1]), last.now, last.op).tables
  }

  lemma {:induction false} AtExtends(t: Tables, run: seq<Commit>, i: nat)
    requires i < |run|
    ensures At(t, run[..i + 1]) == Apply(At(t, run[..i]), run[i].now, run[i].op).tables
  {
    hide Apply;
    assert run[..i + 1][..i] == run[..i];
  }

  /** No schedule of transactions breaks the invariant, and rooms only ever evolve. */
  lemma {:induction false} RunsKeepInv(users: set<UserId>, games: set<string>, run: seq<Commit>)
    ensures Inv(At(Empty(users, games), run))
  {
    hide Inv, Apply;
    if run == [] {
      NoTablesYet(users, games);
    } else {
      var last := run[|run| - 1];
      RunsKeepInv(users, games, run[..|run| - 1]);
      StepKeepsInv(At(Empty(users, games), run[..|run| - 1]), last.now, last.op);
    }
  }

  lemma EvolvesTransitively(a: map<RoomId, Room>, b: map<RoomId, Room>, c: map<RoomId, Room>)
    requires RoomsEvolve(a, b) && RoomsEvolve(b, c)
    ensures RoomsEvolve(a, c)
  {
    forall id | id in a ensures id in c && Evolves(a[id], c[id]) {
      assert Evolves(a[id], b[id]) && Evolves(b[id], c[id]);
    }
  }

  /**
   Between any two points of a run: a cancelled room stays cancelled, a settled attempt keeps its
   verdict, hosts and games are fixed, members never leave, ended processes never restart.
   */
  lemma {:induction false} NothingIsUndone(users: set<UserId>, games: set<string>, run: seq<Commit>, i: nat)
    requires i <= |run|
    ensures RoomsEvolve(At(Empty(users, games), run[..i]).rooms, At(Empty(users, games), run).rooms)
    decreases |run|
  {
    hide Inv, Apply, RoomsEvolve;
    var t := Empty(users, games);
    if i == |run| {
      assert run[..i] == run;
      EvolvingFromTheStart(At(t, run).rooms);
    } else {
      var shorter := run[..|run| - 1];
      var last := run[|run| - 1];
      NothingIsUndone(users, games, shorter, i);
      assert shorter[..i] == run[..i];
      RunsKeepInv(users, games, shorter);
      StepKeepsInv(At(t, shorter), last.now, last.op);
      EvolvesTransitively(At(t, run[..i]).rooms, At(t, shorter).rooms, At(t, run).rooms);
    }
  }

  lemma EvolvingFromTheStart(rooms: map<RoomId, Room>)
    ensures RoomsEvolve(rooms, rooms)
  {
    forall id | id in rooms ensures Evolves(rooms[id], rooms[id]) {
      NothingHappens(rooms[id]);
    }
  }

  /** `accept_room` never took a room out of an open challenge, all along the run. */
  predicate NeverBypassesChallenges(t: Tables, run: seq<Commit>) {
    forall i :: 0 <= i < |run| ==> LeavesChallengesAlone(At(t, run[..i]), run[i].op)
  }

  lemma {:induction false} ChallengesStayPending(users: set<UserId>, games: set<string>, run: seq<Commit>)
    requires NeverBypassesChallenges(Empty(users, games), run)
    ensures PendingOk(At(Empty(users, games), run))
  {
    hide Inv, Apply, LeavesChallengesAlone;
    if run != [] {
      var shorter := run[..|run| - 1];
      var last := run[|run| - 1];
      assert forall i :: 0 <= i < |shorter| ==> shorter[..i] == run[..i];
      ChallengesStayPending(users, games, shorter);
      RunsKeepInv(users, games, shorter);
      assert run[..|run| - 1] == shorter;
      PendingStep(At(Empty(users, games), shorter), last.now, last.op);
    }
  }

  /** With `accept_room` kept away from open challenges, every change of every run is an edge. */
  lemma RunsFollowTheStateMachine(users: set<UserId>, games: set<string>, run: seq<Commit>, i: nat)
    requires NeverBypassesChallenges(Empty(users, games), run) && i < |run|
    ensures AllLegal(At(Empty(users, games), run[..i]).rooms, At(Empty(users, games), run[..i + 1]).rooms)
  {
    hide Apply, AllLegal, LeavesChallengesAlone;
    var t := Empty(users, games);
    assert forall k :: 0 <= k < i ==> run[..i][..k] == run[..k];
    ChallengesStayPending(users, games, run[..i]);
    AtExtends(t, run, i);
    ChangesAreEdgesExactlyWhen(At(t, run[..i]), run[i].now, run[i].op);
  }

  // ---- the exception does happen ----------------------------------------------------------------------

  lemma AtAppend(t: Tables, run: seq<Commit>, now: Time, op: Op)
    ensures At(t, run + [Commit(now, op)]) == Apply(At(t, run), now, op).tables
  {
    hide Apply;
    assert (run + [Commit(now, op)])[..|run|] == run;
  }

  /** A challenge room that the challenged user entered through `accept_room`, with these processes. */
  function BypassedRoom(state: RoomState, deadline: Option<Time>, attempt: Attempt,
                        participants: map<UserId, Participant>): Room
  {
    Room(1, "g", state, deadline, attempt, {1, 2}, participants, map[], None)
  }

  function BypassedTables(room: Room, grants: map<Token, Grant>): Tables {
    Tables({1, 2}, {"g"}, map[0 := room], map[0 := Challenge(0, 1, 2, Pending, 0, 5 * MINUTE)], grants, map[], {}, {})
  }

  const INVITED: Room := NewRoom(1, "g", Challenging, 300)
  const CONNECTING: Room := BypassedRoom(Connecting, Some(120), Attempt(Active, Some(120)), map[])

  lemma BypassChallenge(t: Tables)
    requires t == Empty({1, 2}, {"g"})
    ensures Apply(t, 0, OpCreateChallenge(1, 2, "g", 0, 0)).tables == BypassedTables(INVITED, map[])
  {
    assert 'g' in "g" && !IsWhitespace('g');
    assert RecentChallenges(t, 0, 1) == {};
    assert ExpireChallenges(t.challenges, 0) == map[];
    assert DisposeWaiting(t.rooms, 1, "g", None, KeepDeadlines) == map[];
  }

  lemma BypassAccept()
    ensures Apply(BypassedTables(INVITED, map[]), 0, OpAcceptRoom(2, 0)).tables == BypassedTables(CONNECTING, map[])
  {
    assert {1} + {2} == {1, 2};
  }

  const ONE_RUNS: Room := CONNECTING.(participants := map[1 := Running])
  const BOTH_RUN: Room :=
    BypassedRoom(Playing, Some(14400), Attempt(Active, Some(14400)), map[1 := Running, 2 := Running])
  const ONE_LEFT: Room := BOTH_RUN.(participants := map[1 := Ended, 2 := Running])
  const BOTH_LEFT: Room := BypassedRoom(Finished, None, Attempt(Succeeded, None), map[1 := Ended, 2 := Ended])

  lemma BypassGrants(t: Tables, user: UserId)
    requires user in {1, 2} && t.rooms == map[0 := CONNECTING] && user !in t.grants
    ensures var granted := Apply(t, 0, OpCreateGrant(user, 0, true, false, user)).tables;
            Apply(granted, 0, OpConsumeGrant(user, user)).tables == t.(grants := t.grants[user := Grant(0, user, 90, true)])
  {
    assert 1 in CONNECTING.members && 2 in CONNECTING.members;
    assert t.rooms[0 := CONNECTING] == t.rooms;
  }

  const BOTH_GRANTS: map<Token, Grant> := map[1 := Grant(0, 1, 90, true), 2 := Grant(0, 2, 90, true)]
  const ONE_GRANT: map<Token, Grant> := map[2 := Grant(0, 2, 90, true)]

  lemma BypassFirstLaunch()
    ensures Apply(BypassedTables(CONNECTING, BOTH_GRANTS), 0, OpLaunch(1, 0)).tables == BypassedTables(ONE_RUNS, ONE_GRANT)
  {
    assert Authorizes(BypassedTables(CONNECTING, BOTH_GRANTS).grants[1], 0, 1, 0);
    assert |CONNECTING.participants[1 := Running]| == 1;
    assert GrantsWithout(BOTH_GRANTS, 0, 1) == ONE_GRANT;
  }

  lemma BypassSecondLaunch()
    ensures Apply(BypassedTables(ONE_RUNS, ONE_GRANT), 0, OpLaunch(2, 0)).tables == BypassedTables(BOTH_RUN, map[])
  {
    assert Authorizes(BypassedTables(ONE_RUNS, ONE_GRANT).grants[2], 0, 2, 0);
    assert ONE_RUNS.participants[2 := Running] == BOTH_RUN.participants && |BOTH_RUN.participants.Keys| == 2;
    assert GrantsWithout(ONE_GRANT, 0, 2) == map[];
  }

  lemma BypassExits()
    ensures var first := Apply(BypassedTables(BOTH_RUN, map[]), 0, OpExit(1, 0)).tables;
            Apply(first, 0, OpExit(2, 0)).tables == BypassedTables(BOTH_LEFT, map[])
  {
    var before := BypassedTables(BOTH_RUN, map[]);
    assert BOTH_RUN.participants[1 := Ended] == ONE_LEFT.participants;
    assert EndedUsers(ONE_LEFT.participants) == {1};
    assert Apply(before, 0, OpExit(1, 0)).tables == BypassedTables(ONE_LEFT, map[]);
    assert ONE_LEFT.participants[2 := Ended] == BOTH_LEFT.participants;
    assert EndedUsers(BOTH_LEFT.participants) == {1, 2};
  }

  lemma DecliningCancels(t: Tables)
    requires t == BypassedTables(BOTH_LEFT, map[])
    ensures CancelsFinished(t, 0, OpResolveChallenge(2, 0, false))
    ensures Apply(t, 0, OpResolveChallenge(2, 0, false)).tables.rooms[0] == BOTH_LEFT.(state := Cancelled)
  {
  }

  lemma ThenTwo(t: Tables, run: seq<Commit>, first: Op, second: Op)
    ensures At(t, run + [Commit(0, first), Commit(0, second)]) == Apply(Apply(At(t, run), 0, first).tables, 0, second).tables
  {
    hide Apply;
    AtAppend(t, run, 0, first);
    AtAppend(t, run + [Commit(0, first)], 0, second);
    assert run + [Commit(0, first)] + [Commit(0, second)] == run + [Commit(0, first), Commit(0, second)];
  }

  /**
   A user who entered a challenge room through `accept_room` can decline the challenge after the
   match was played to its end: the finished room becomes cancelled, its attempt still succeeded.
   */
  lemma AFinishedMatchCanBeCancelled() returns (run: seq<Commit>)
    ensures var t := At(Empty({1, 2}, {"g"}), run);
            && t.rooms == map[0 := BOTH_LEFT] && CancelsFinished(t, 0, OpResolveChallenge(2, 0, false))
            && Apply(t, 0, OpResolveChallenge(2, 0, false)).tables.rooms[0] == BOTH_LEFT.(state := Cancelled)
  {
    hide Apply, CancelsFinished;
    var t := Empty({1, 2}, {"g"});
    run := [];
    ThenTwo(t, run, OpCreateChallenge(1, 2, "g", 0, 0), OpAcceptRoom(2, 0));
    run := run + [Commit(0, OpCreateChallenge(1, 2, "g", 0, 0)), Commit(0, OpAcceptRoom(2, 0))];
    BypassChallenge(t);
    BypassAccept();
    ThenTwo(t, run, OpCreateGrant(1, 0, true, false, 1), OpConsumeGrant(1, 1));
    BypassGrants(At(t, run), 1);
    run := run + [Commit(0, OpCreateGrant(1, 0, true, false, 1)), Commit(0, OpConsumeGrant(1, 1))];
    ThenTwo(t, run, OpCreateGrant(2, 0, true, false, 2), OpConsumeGrant(2, 2));
    BypassGrants(At(t, run), 2);
    run := run + [Commit(0, OpCreateGrant(2, 0, true, false, 2)), Commit(0, OpConsumeGrant(2, 2))];
    ThenTwo(t, run, OpLaunch(1, 0), OpLaunch(2, 0));
    BypassFirstLaunch();
    BypassSecondLaunch();
    run := run + [Commit(0, OpLaunch(1, 0)), Commit(0, OpLaunch(2, 0))];
    ThenTwo(t, run, OpExit(1, 0), OpExit(2, 0));
    BypassExits();
    run := run + [Commit(0, OpExit(1, 0)), Commit(0, OpExit(2, 0))];
    DecliningCancels(At(t, run));
  }
}
