/**
 How the challenge, grant and invite tables stay in step with the rooms, through every
 committed transaction.
 */
module RoomLinks {
  import opened Text
  import opened RoomStates
  import opened RoomTables
  import opened RoomInvariants

  /** Each challenge has a room of its own, hosted by the challenger. */
  predicate ChallengesOk(rooms: map<RoomId, Room>, challenges: map<ChallengeId, Challenge>) {
    && (forall c :: c in challenges ==>
          && challenges[c].room in rooms && rooms[challenges[c].room].host == challenges[c].challenger
          && challenges[c].challenged != challenges[c].challenger)
    && (forall c, d :: c in challenges && d in challenges && challenges[c].room == challenges[d].room ==> c == d)
  }

  /** At most one challenge is pending from one user to another. */
  predicate PairsOk(challenges: map<ChallengeId, Challenge>) {
    forall c, d ::
      (&& c in challenges && d in challenges
       && challenges[c].state == challenges[d].state == Pending
       && challenges[c].challenger == challenges[d].challenger
       && challenges[c].challenged == challenges[d].challenged) ==> c == d
  }

  predicate GrantsOk(rooms: map<RoomId, Room>, grants: map<Token, Grant>) {
    forall token :: token in grants ==> grants[token].room in rooms && grants[token].user in rooms[grants[token].room].members
  }

  /** An invite never leads to a room that is waiting for a challenge to be answered. */
  predicate InvitesOk(rooms: map<RoomId, Room>, invites: map<Code, Invite>) {
    forall code :: code in invites ==> invites[code].room in rooms && rooms[invites[code].room].state != Challenging
  }

  /** A host waits in at most one room for one game. */
  predicate WaitingOk(rooms: map<RoomId, Room>) {
    forall a, b ::
      (&& a in rooms && b in rooms
       && rooms[a].state == rooms[b].state == Waiting
       && rooms[a].host == rooms[b].host && rooms[a].game == rooms[b].game) ==> a == b
  }

  predicate Inv(t: Tables) {
    && RoomsOk(t.rooms)
    && WaitingOk(t.rooms)
    && ChallengesOk(t.rooms, t.challenges)
    && PairsOk(t.challenges)
    && GrantsOk(t.rooms, t.grants)
    && InvitesOk(t.rooms, t.invites)
  }

  function Empty(users: set<UserId>, games: set<string>): Tables {
    Tables(users, games, map[], map[], map[], map[], {}, {})
  }

  // ---- rooms evolve, the other tables stay ---------------------------------------------------

  lemma EvolutionKeepsLinks(before: map<RoomId, Room>, after: map<RoomId, Room>, t: Tables)
    requires RoomsEvolve(before, after)
    ensures ChallengesOk(before, t.challenges) ==> ChallengesOk(after, t.challenges)
    ensures GrantsOk(before, t.grants) ==> GrantsOk(after, t.grants)
    ensures InvitesOk(before, t.invites) ==> InvitesOk(after, t.invites)
  {
  }

  lemma EvolutionKeepsWaiting(before: map<RoomId, Room>, after: map<RoomId, Room>)
    requires RoomsEvolve(before, after) && WaitingOk(before)
    requires forall id :: id in after && after[id].state == Waiting ==> id in before
    ensures WaitingOk(after)
  {
    forall id | id in after && after[id].state == Waiting
      ensures before[id].state == Waiting && before[id].host == after[id].host && before[id].game == after[id].game
    {
      assert Evolves(before[id], after[id]);
    }
  }

  /** A new waiting room, once its host has none for that game. */
  lemma NewWaitingRoom(rooms: map<RoomId, Room>, id: RoomId, room: Room)
    requires WaitingOk(rooms) && forall other :: other in rooms ==> !IsWaiting(rooms[other], room.host, room.game)
    ensures WaitingOk(rooms[id := room])
  {
  }

  // ---- challenge states advance ----------------------------------------------------------------

  /** Only states change, and nothing becomes pending. */
  predicate Settles(before: map<ChallengeId, Challenge>, after: map<ChallengeId, Challenge>) {
    && after.Keys == before.Keys
    && (forall c :: c in before ==> after[c] == before[c].(state := after[c].state))
    && (forall c :: c in before && after[c].state == Pending ==> before[c].state == Pending)
  }

  lemma SettlingKeepsLinks(rooms: map<RoomId, Room>, before: map<ChallengeId, Challenge>, after: map<ChallengeId, Challenge>)
    requires Settles(before, after)
    ensures ChallengesOk(rooms, before) ==> ChallengesOk(rooms, after)
    ensures PairsOk(before) ==> PairsOk(after)
  {
  }

  lemma NewChallenge(rooms: map<RoomId, Room>, challenges: map<ChallengeId, Challenge>, cid: ChallengeId, id: RoomId,
                     room: Room, c: Challenge)
    requires ChallengesOk(rooms, challenges) && PairsOk(challenges) && cid !in challenges && id !in rooms
    requires !HasPending(challenges, c.challenger, c.challenged)
    requires c.room == id && room.host == c.challenger != c.challenged
    ensures ChallengesOk(rooms[id := room], challenges[cid := c]) && PairsOk(challenges[cid := c])
  {
  }

  // ---- every transaction -------------------------------------------------------------------------

  predicate Opens(op: Op) {
    op.OpCreateRoom? || op.OpCreateChallenge? || op.OpReceipt?
  }

  /** Only three handlers create rooms. */
  lemma OthersOpenNothing(t: Tables, now: Time, op: Op)
    requires !Opens(op)
    ensures Apply(t, now, op).tables.rooms.Keys == t.rooms.Keys
  {
    hide Joined, Disposed, IsWaiting, WithChallengesOf, PreflightsMatch, Readied, Launched, Exited, GrantsWithout,
         HasLaunchGrant, ValidPreflightCompatibility, BarrierPassed, IsBatch, Reconciled;
  }

  lemma WaitingStep(t: Tables, now: Time, op: Op)
    requires RoomsOk(t.rooms) && WaitingOk(t.rooms)
    ensures WaitingOk(Apply(t, now, op).tables.rooms)
  {
    hide RoomOk, Evolves, WaitingOk;
    var after := Apply(t, now, op).tables.rooms;
    StepKeepsRooms(t, now, op);
    if Opens(op) {
      OpeningKeepsWaiting(t, now, op);
    } else {
      hide Apply;
      OthersOpenNothing(t, now, op);
      EvolutionKeepsWaiting(t.rooms, after);
    }
  }

  lemma DisposeThenWait(rooms: map<RoomId, Room>, how: Disposal, id: RoomId, room: Room)
    requires RoomsOk(rooms) && WaitingOk(rooms)
    ensures WaitingOk(DisposeWaiting(rooms, room.host, room.game, None, how)[id := room])
  {
    hide RoomOk, Evolves, WaitingOk;
    var disposed := DisposeWaiting(rooms, room.host, room.game, None, how);
    DisposeWaitingIsOk(rooms, room.host, room.game, None, how);
    EvolutionKeepsWaiting(rooms, disposed);
    NewWaitingRoom(disposed, id, room);
  }

  lemma OpeningKeepsWaiting(t: Tables, now: Time, op: Op)
    requires RoomsOk(t.rooms) && WaitingOk(t.rooms) && Opens(op)
    requires RoomsEvolve(t.rooms, Apply(t, now, op).tables.rooms)
    ensures WaitingOk(Apply(t, now, op).tables.rooms)
  {
    hide RoomsOk, RoomsEvolve, WaitingOk, EvidenceVerifies, RecentChallenges, HasPending;
    var after := Apply(t, now, op).tables.rooms;
    if after == t.rooms {
    } else if op.OpCreateRoom? {
      NewWaitingRoom(t.rooms, op.id, after[op.id]);
    } else if op.OpReceipt? {
      DisposeThenWait(t.rooms, LeaveAttempt, op.id, after[op.id]);
    } else {
      hide DisposeWaiting;
      ChallengingStep(t, op.user, op.game, op.id, after[op.id]);
    }
  }

  lemma ChallengingStep(t: Tables, host: UserId, game: string, id: RoomId, room: Room)
    requires RoomsOk(t.rooms) && WaitingOk(t.rooms) && id !in t.rooms && room.state == Challenging
    ensures WaitingOk(DisposeWaiting(t.rooms, host, game, None, KeepDeadlines)[id := room])
  {
    hide RoomOk, Evolves, WaitingOk;
    DisposeWaitingIsOk(t.rooms, host, game, None, KeepDeadlines);
    EvolutionKeepsWaiting(t.rooms, DisposeWaiting(t.rooms, host, game, None, KeepDeadlines)[id := room]);
  }

  /** Apart from a new challenge, handlers only settle challenges. */
  predicate TouchesChallenges(op: Op) {
    op.OpCreateChallenge? || op.OpCancelRoom? || op.OpDeclineRoom? || op.OpAcceptChallenge? || op.OpResolveChallenge?
    || op.OpReconcile?
  }

  lemma ChallengesStay(t: Tables, now: Time, op: Op)
    requires !TouchesChallenges(op)
    ensures Apply(t, now, op).tables.challenges == t.challenges
  {
    hide Joined, DisposeWaiting, PreflightsMatch, Readied, Launched, Exited, GrantsWithout, Closed, HasLaunchGrant,
         ValidPreflightCompatibility, BarrierPassed, EvidenceVerifies, RoomIsWaitingFor, NewRoom;
  }

  lemma ResolvingSettles(t: Tables, now: Time, op: Op)
    requires op.OpAcceptChallenge? || op.OpResolveChallenge?
    ensures Settles(t.challenges, Apply(t, now, op).tables.challenges)
  {
    hide Joined, DisposeWaiting, AllEnded, Closed;
  }

  lemma ChallengesOfSettle(challenges: map<ChallengeId, Challenge>, rooms: set<RoomId>, state: ChallengeState)
    requires state != Pending
    ensures Settles(challenges, WithChallengesOf(challenges, rooms, state))
  {
  }

  lemma BatchSettles(challenges: map<ChallengeId, Challenge>, ids: set<ChallengeId>)
    ensures Settles(challenges, WithExpired(challenges, ids))
  {
  }

  lemma CancellingSettles(t: Tables, now: Time, op: Op)
    requires op.OpCancelRoom? || op.OpDeclineRoom? || op.OpReconcile?
    ensures Settles(t.challenges, Apply(t, now, op).tables.challenges)
  {
    hide AllEnded, Closed, IsBatch, WithReconciled, WithChallengesOf, WithExpired;
    if op.OpReconcile? {
      BatchSettles(t.challenges, op.expired);
      ChallengesOfSettle(WithExpired(t.challenges, op.expired), op.rooms, ChallengeExpired);
    } else {
      ChallengesOfSettle(t.challenges, {op.id}, ChallengeCancelled);
    }
  }

  lemma OthersSettle(t: Tables, now: Time, op: Op)
    requires !op.OpCreateChallenge?
    ensures Settles(t.challenges, Apply(t, now, op).tables.challenges)
  {
    hide Apply;
    if op.OpAcceptChallenge? || op.OpResolveChallenge? {
      ResolvingSettles(t, now, op);
    } else if TouchesChallenges(op) {
      CancellingSettles(t, now, op);
    } else {
      ChallengesStay(t, now, op);
    }
  }

  lemma ExpiringSettles(challenges: map<ChallengeId, Challenge>, now: Time)
    ensures Settles(challenges, ExpireChallenges(challenges, now))
  {
  }

  lemma ChallengesStep(t: Tables, now: Time, op: Op)
    requires RoomsOk(t.rooms) && ChallengesOk(t.rooms, t.challenges) && PairsOk(t.challenges)
    ensures var after := Apply(t, now, op).tables;
            ChallengesOk(after.rooms, after.challenges) && PairsOk(after.challenges)
  {
    hide RoomsOk, RoomsEvolve, ChallengesOk, PairsOk, Settles;
    StepKeepsRooms(t, now, op);
    if op.OpCreateChallenge? {
      hide RecentChallenges, HasPending, DisposeWaiting, ExpireChallenges;
      var after := Apply(t, now, op);
      if after.outcome == Done {
        var challenges := ExpireChallenges(t.challenges, now);
        var rooms := DisposeWaiting(t.rooms, op.user, op.game, None, KeepDeadlines);
        DisposeWaitingIsOk(t.rooms, op.user, op.game, None, KeepDeadlines);
        EvolutionKeepsLinks(t.rooms, rooms, t);
        ExpiringSettles(t.challenges, now);
        SettlingKeepsLinks(rooms, t.challenges, challenges);
        NewChallenge(rooms, challenges, op.cid, op.id, after.tables.rooms[op.id], after.tables.challenges[op.cid]);
      }
    } else {
      hide Apply;
      OthersSettle(t, now, op);
      EvolutionKeepsLinks(t.rooms, Apply(t, now, op).tables.rooms, t);
      SettlingKeepsLinks(Apply(t, now, op).tables.rooms, t.challenges, Apply(t, now, op).tables.challenges);
    }
  }

  /** Grants belong to members when issued, and are then only consumed or deleted. */
  lemma GrantsComeFrom(t: Tables, now: Time, op: Op, token: Token)
    requires token in Apply(t, now, op).tables.grants
    ensures var grant := Apply(t, now, op).tables.grants[token];
            || (&& token in t.grants && grant.(consumed := t.grants[token].consumed) == t.grants[token]
                && (t.grants[token].consumed ==> grant.consumed))
            || (&& token !in t.grants && op.OpCreateGrant? && grant == Grant(op.id, op.user, now + 90, false) && op.token == token
                && op.id in t.rooms && op.user in t.rooms[op.id].members)
  {
    hide Joined, DisposeWaiting, PreflightsMatch, Readied, Launched, Exited, AllEnded, Closed, WithChallengesOf,
         HasLaunchGrant, ValidPreflightCompatibility, BarrierPassed, IsBatch, Reconciled, EvidenceVerifies,
         RoomIsWaitingFor, NewRoom, RecentChallenges, HasPending, ExpireChallenges;
  }

  lemma GrantsStep(t: Tables, now: Time, op: Op)
    requires RoomsEvolve(t.rooms, Apply(t, now, op).tables.rooms) && GrantsOk(t.rooms, t.grants)
    ensures GrantsOk(Apply(t, now, op).tables.rooms, Apply(t, now, op).tables.grants)
  {
    hide Apply;
    var after := Apply(t, now, op).tables;
    forall token | token in after.grants
      ensures after.grants[token].room in after.rooms
      ensures after.grants[token].user in after.rooms[after.grants[token].room].members
    {
      GrantsComeFrom(t, now, op, token);
      assert Evolves(t.rooms[after.grants[token].room], after.rooms[after.grants[token].room]);
    }
  }

  lemma InvitesComeFrom(t: Tables, now: Time, op: Op, code: Code)
    requires code in Apply(t, now, op).tables.invites
    ensures var after := Apply(t, now, op).tables;
            var invite := after.invites[code];
            || (code in t.invites && invite.room == t.invites[code].room)
            || (invite.room in after.rooms && after.rooms[invite.room].state == Waiting)
  {
    hide Joined, DisposeWaiting, PreflightsMatch, Readied, Launched, Exited, AllEnded, Closed, WithChallengesOf,
         HasLaunchGrant, ValidPreflightCompatibility, BarrierPassed, IsBatch, Reconciled, EvidenceVerifies,
         RoomIsWaitingFor, RecentChallenges, HasPending, ExpireChallenges, GrantsWithout;
  }

  lemma InvitesStep(t: Tables, now: Time, op: Op)
    requires RoomsEvolve(t.rooms, Apply(t, now, op).tables.rooms) && InvitesOk(t.rooms, t.invites)
    ensures InvitesOk(Apply(t, now, op).tables.rooms, Apply(t, now, op).tables.invites)
  {
    hide Apply;
    var after := Apply(t, now, op).tables;
    forall code | code in after.invites
      ensures after.invites[code].room in after.rooms && after.rooms[after.invites[code].room].state != Challenging
    {
      InvitesComeFrom(t, now, op, code);
      if code in t.invites && after.invites[code].room == t.invites[code].room {
        assert Evolves(t.rooms[after.invites[code].room], after.rooms[after.invites[code].room]);
      }
    }
  }

  lemma NoTablesYet(users: set<UserId>, games: set<string>)
    ensures Inv(Empty(users, games))
  {
  }

  /** The whole invariant survives every transaction of every handler. */
  lemma StepKeepsInv(t: Tables, now: Time, op: Op)
    requires Inv(t)
    ensures Inv(Apply(t, now, op).tables)
    ensures RoomsEvolve(t.rooms, Apply(t, now, op).tables.rooms)
  {
    hide Apply, RoomsOk, RoomsEvolve, WaitingOk, ChallengesOk, PairsOk, GrantsOk, InvitesOk;
    StepKeepsRooms(t, now, op);
    WaitingStep(t, now, op);
    ChallengesStep(t, now, op);
    GrantsStep(t, now, op);
    InvitesStep(t, now, op);
  }
}
