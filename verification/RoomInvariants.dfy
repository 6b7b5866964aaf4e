/**
 What every committed transaction keeps: the lifecycle of each room, and the agreement of the
 challenge, grant and invite tables with it.
 */
module RoomInvariants {
  import opened Text
  import opened RoomStates
  import opened RoomTables

  // ---- one room -------------------------------------------------------------------------

  predicate OnlyTheHost(room: Room) {
    room.members == {room.host} && room.participants == map[] && room.preflights == map[] && room.barrier.None?
  }

  /** A barrier stands only over two ready, matching preflights. */
  predicate BarrierOk(members: set<UserId>, preflights: map<UserId, Preflight>) {
    && |members| == 2
    && ReadyUsers(preflights) == preflights.Keys == members
    && PreflightsMatch(preflights)
  }

  predicate SlotsOk(host: UserId, preflights: map<UserId, Preflight>) {
    forall u :: u in preflights ==> preflights[u].playerSlot == ExpectedSlot(host, u)
  }

  /** Who is in the room and which emulators run, stage by stage. */
  predicate StageOk(room: Room) {
    match room.state
    case Waiting => OnlyTheHost(room)
    case Challenging => OnlyTheHost(room)
    case Connecting =>
      |room.members| == 2 && |room.participants| < 2 && EndedUsers(room.participants) == {}
    case Playing =>
      |room.members| == 2 && room.participants.Keys == room.members && EndedUsers(room.participants) != room.members
    case Finished =>
      && |room.members| == 2 && room.participants.Keys == room.members && EndedUsers(room.participants) == room.members
      && room.attempt.state == Succeeded
    case Cancelled => 1 <= |room.members| <= 2
    case Ready => false
  }

  predicate RoomOk(room: Room) {
    && StageOk(room)
    && room.host in room.members
    && room.participants.Keys <= room.members
    && room.preflights.Keys <= room.members
    && SlotsOk(room.host, room.preflights)
    && (room.barrier.Some? ==> BarrierOk(room.members, room.preflights))
    && (Live(room.state) ==> room.deadline.Some? && room.attempt.state == Active)
  }

  /** What may happen to a room between two committed states. */
  predicate Evolves(before: Room, after: Room) {
    && after.host == before.host && after.game == before.game
    && before.members <= after.members
    && (before.state == Cancelled ==> after.state == Cancelled)
    && (after.state in {Waiting, Challenging} ==> after.state == before.state)
    && (before.attempt.state != Active ==> after.attempt.state == before.attempt.state)
    && before.participants.Keys <= after.participants.Keys
    && (forall u :: u in before.participants && before.participants[u] == Ended ==> after.participants[u] == Ended)
  }

  predicate RoomsOk(rooms: map<RoomId, Room>) {
    forall id :: id in rooms ==> RoomOk(rooms[id])
  }

  predicate RoomsEvolve(before: map<RoomId, Room>, after: map<RoomId, Room>) {
    forall id :: id in before ==> id in after && Evolves(before[id], after[id])
  }

  lemma CardinalityOfAtMost<T>(a: set<T>, b: set<T>)
    requires a <= b
    ensures |a| <= |b|
    ensures |a| == |b| ==> a == b
  {
    if a != b {
      var x :| x in b && x !in a;
      CardinalityOfAtMost(a, b - {x});
    }
  }

  // ---- each change to a room keeps its invariant -------------------------------------------

  lemma NewRoomIsOk(host: UserId, game: string, state: RoomState, deadline: Time)
    requires state in {Waiting, Challenging}
    ensures RoomOk(NewRoom(host, game, state, deadline))
  {
  }

  lemma JoinedIsOk(room: Room, user: UserId, now: Time)
    requires RoomOk(room) && room.state in {Waiting, Challenging} && user != room.host
    ensures RoomOk(Joined(room, user, now)) && Evolves(room, Joined(room, user, now))
  {
    assert |{room.host} + {user}| == 2;
    assert EndedUsers(map[]) == {};
  }

  /** Participants may end but not restart or vanish. */
  predicate Ends(before: map<UserId, Participant>, after: map<UserId, Participant>) {
    && after.Keys == before.Keys
    && (forall u :: u in before && before[u] == Ended ==> after[u] == Ended)
  }

  /** Cancelling, by whatever handler, whatever it does to the deadline and the attempt. */
  lemma CancelledIsOk(room: Room, deadline: Option<Time>, attempt: Attempt, participants: map<UserId, Participant>)
    requires RoomOk(room)
    requires room.attempt.state != Active ==> attempt.state == room.attempt.state
    requires Ends(room.participants, participants)
    ensures var cancelled := room.(state := Cancelled, deadline := deadline, attempt := attempt,
                                   participants := participants);
            RoomOk(cancelled) && Evolves(room, cancelled)
  {
    hide BarrierOk, SlotsOk;
    assert room.members != {};
  }

  lemma DisposedIsOk(room: Room, how: Disposal)
    requires RoomOk(room)
    ensures RoomOk(Disposed(room, how)) && Evolves(room, Disposed(room, how))
  {
    var after := Disposed(room, how);
    CancelledIsOk(room, after.deadline, after.attempt, room.participants);
  }

  lemma NothingHappens(room: Room)
    ensures Evolves(room, room)
  {
  }

  lemma DisposeWaitingIsOk(rooms: map<RoomId, Room>, host: UserId, game: string, keep: Option<RoomId>, how: Disposal)
    requires RoomsOk(rooms)
    ensures var after := DisposeWaiting(rooms, host, game, keep, how);
            && RoomsOk(after) && RoomsEvolve(rooms, after) && after.Keys == rooms.Keys
            && (forall id :: id in rooms && (!IsWaiting(rooms[id], host, game) || keep == Some(id)) ==>
                  after[id] == rooms[id])
  {
    hide RoomOk, Evolves, Disposed;
    var after := DisposeWaiting(rooms, host, game, keep, how);
    forall id | id in rooms ensures RoomOk(after[id]) && Evolves(rooms[id], after[id]) {
      DisposedIsOk(rooms[id], how);
      NothingHappens(rooms[id]);
    }
  }

  lemma PreflightedIsOk(room: Room, user: UserId, preflight: Preflight)
    requires RoomOk(room) && user in room.members && room.state in {Connecting, Playing}
    requires preflight.playerSlot == ExpectedSlot(room.host, user)
    ensures var after := room.(preflights := room.preflights[user := preflight.(ready := false)], barrier := None);
            RoomOk(after) && Evolves(room, after)
  {
  }

  lemma ReadyKeepsTheMatch(preflights: map<UserId, Preflight>, user: UserId)
    requires PreflightsMatch(preflights)
    ensures PreflightsMatch(WithReady(preflights, user))
    ensures WithReady(preflights, user).Keys == preflights.Keys
    ensures ReadyUsers(preflights) <= ReadyUsers(WithReady(preflights, user)) <= preflights.Keys
  {
    var after := WithReady(preflights, user);
    assert after.Keys == preflights.Keys;
    assert forall u :: u in preflights ==> after[u] == preflights[u].(ready := after[u].ready);
    assert (set u | u in after :: after[u].playerSlot) == (set u | u in preflights :: preflights[u].playerSlot);
  }

  lemma ReadiedIsOk(room: Room, user: UserId, now: Time)
    requires RoomOk(room) && room.state in {Connecting, Playing} && PreflightsMatch(room.preflights)
    ensures RoomOk(Readied(room, user, now)) && Evolves(room, Readied(room, user, now))
  {
    var after := Readied(room, user, now);
    ReadyKeepsTheMatch(room.preflights, user);
    CardinalityOfAtMost(after.preflights.Keys, room.members);
    if after.barrier.Some? && room.barrier.None? {
      CardinalityOfAtMost(ReadyUsers(after.preflights), after.preflights.Keys);
    } else if after.barrier.Some? {
      assert ReadyUsers(after.preflights) == ReadyUsers(room.preflights);
    }
  }

  lemma LaunchedIsOk(room: Room, user: UserId, now: Time)
    requires RoomOk(room) && room.state in {Connecting, Playing} && user in room.members && user !in room.participants
    ensures RoomOk(Launched(room, user, now)) && Evolves(room, Launched(room, user, now))
  {
    hide BarrierOk, SlotsOk;
    var participants := room.participants[user := Running];
    assert user !in EndedUsers(participants);
    assert EndedUsers(participants) == EndedUsers(room.participants);
    CardinalityOfAtMost(participants.Keys, room.members);
  }

  lemma EndedUsersArePresent(participants: map<UserId, Participant>)
    ensures EndedUsers(participants) <= participants.Keys
  {
  }

  lemma EndingOne(participants: map<UserId, Participant>, user: UserId)
    requires user in participants
    ensures var after := participants[user := Ended];
            after.Keys == participants.Keys && EndedUsers(after) == EndedUsers(participants) + {user}
  {
    assert participants[user := Ended].Keys == participants.Keys;
  }

  lemma ExitedIsOk(room: Room, user: UserId)
    requires RoomOk(room) && user in room.participants
    ensures RoomOk(Exited(room, user)) && Evolves(room, Exited(room, user))
  {
    EndingOne(room.participants, user);
    var participants := room.participants[user := Ended];
    if room.state in {Connecting, Cancelled} {
      var after := Exited(room, user);
      CancelledIsOk(room, after.deadline, after.attempt, participants);
    } else {
      ExitedInPlayIsOk(room, user, participants);
    }
  }

  lemma ExitedInPlayIsOk(room: Room, user: UserId, participants: map<UserId, Participant>)
    requires RoomOk(room) && room.state !in {Connecting, Cancelled} && user in room.participants
    requires participants == room.participants[user := Ended] && participants.Keys == room.participants.Keys
    requires EndedUsers(participants) == EndedUsers(room.participants) + {user}
    ensures RoomOk(Exited(room, user)) && Evolves(room, Exited(room, user))
  {
    hide BarrierOk, SlotsOk, EndedUsers;
    EndedUsersArePresent(participants);
    CardinalityOfAtMost(EndedUsers(participants), room.members);
  }

  // ---- each transaction keeps every room's invariant ---------------------------------------

  predicate RoomsStep(before: map<RoomId, Room>, after: map<RoomId, Room>) {
    RoomsOk(after) && RoomsEvolve(before, after)
  }

  lemma PutStep(rooms: map<RoomId, Room>, id: RoomId, room: Room)
    requires RoomsOk(rooms) && RoomOk(room)
    requires id in rooms ==> Evolves(rooms[id], room)
    ensures RoomsStep(rooms, rooms[id := room])
  {
    hide RoomOk, Evolves;
    forall other | other in rooms ensures Evolves(rooms[other], rooms[other]) {
      NothingHappens(rooms[other]);
    }
  }

  /** Waiting rooms are disposed of first, then one other room is written. */
  lemma DisposePutStep(rooms: map<RoomId, Room>, host: UserId, game: string, keep: Option<RoomId>, how: Disposal,
                       id: RoomId, room: Room)
    requires RoomsOk(rooms) && RoomOk(room)
    requires id in rooms ==> Evolves(rooms[id], room)
    ensures RoomsStep(rooms, DisposeWaiting(rooms, host, game, keep, how)[id := room])
  {
    hide RoomOk, Evolves;
    DisposeWaitingIsOk(rooms, host, game, keep, how);
  }

  lemma ReconcileStep(t: Tables, rooms: set<RoomId>, challenges: set<ChallengeId>)
    requires RoomsOk(t.rooms)
    ensures RoomsStep(t.rooms, ReconcileExpired(t, rooms, challenges).rooms)
  {
    hide RoomOk, Evolves, Reconciled;
    forall id | id in t.rooms
      ensures Evolves(t.rooms[id], t.rooms[id])
      ensures RoomOk(Reconciled(t.rooms[id])) && Evolves(t.rooms[id], Reconciled(t.rooms[id]))
    {
      NothingHappens(t.rooms[id]);
      ReconciledIsOk(t.rooms[id]);
    }
  }

  lemma ReconciledIsOk(room: Room)
    requires RoomOk(room)
    ensures RoomOk(Reconciled(room)) && Evolves(room, Reconciled(room))
  {
    hide RoomOk, Evolves;
    var after := Reconciled(room);
    CancelledIsOk(room, after.deadline, after.attempt, after.participants);
  }

  lemma JoiningStep(t: Tables, now: Time, op: Op)
    requires RoomsOk(t.rooms) && (op.OpAcceptRoom? || op.OpAcceptChallenge? || op.OpJoinInvite?)
    ensures RoomsStep(t.rooms, Apply(t, now, op).tables.rooms)
  {
    hide RoomsOk, RoomsEvolve, DisposeWaiting;
    UnchangedStep(t.rooms);
    match op
    case OpAcceptRoom(user, id) =>
      if AcceptRoom(t, now, user, id).tables != t {
        var room := RoomAt(t.rooms, id);
        JoinedIsOk(room, user, now);
        PutStep(t.rooms, id, Joined(room, user, now));
      }
    case OpAcceptChallenge(user, cid) =>
      if AcceptChallenge(t, now, user, cid).tables != t {
        var id := t.challenges[cid].room;
        var room := RoomAt(t.rooms, id);
        JoinedIsOk(room, user, now);
        DisposePutStep(t.rooms, user, room.game, None, KeepDeadlines, id, Joined(room, user, now));
      }
    case OpJoinInvite(user, code) =>
      if JoinInvite(t, now, user, code).tables != t {
        var id := t.invites[code].room;
        var room := RoomAt(t.rooms, id);
        JoinedIsOk(room, user, now);
        DisposePutStep(t.rooms, user, room.game, Some(id), ClearDeadlines, id, Joined(room, user, now));
      }
  }

  lemma UnchangedStep(rooms: map<RoomId, Room>)
    ensures RoomsOk(rooms) ==> RoomsStep(rooms, rooms)
  {
    forall id | id in rooms ensures Evolves(rooms[id], rooms[id]) {
      NothingHappens(rooms[id]);
    }
  }

  /** A room that a handler found, with its invariant. */
  lemma RoomAt(rooms: map<RoomId, Room>, id: RoomId) returns (room: Room)
    requires RoomsOk(rooms) && id in rooms
    ensures room == rooms[id] && RoomOk(room)
  {
    room := rooms[id];
  }

  lemma CancellingStep(t: Tables, now: Time, op: Op)
    requires RoomsOk(t.rooms) && (op.OpCancelRoom? || op.OpDeclineRoom? || op.OpResolveChallenge? || op.OpReconcile?)
    ensures RoomsStep(t.rooms, Apply(t, now, op).tables.rooms)
  {
    hide RoomsOk, RoomsEvolve, Evolves;
    UnchangedStep(t.rooms);
    if op.OpReconcile? {
      ReconcileStep(t, op.rooms, op.expired);
    } else if op.OpResolveChallenge? {
      if Apply(t, now, op).outcome == Done {
        var id := t.challenges[op.cid].room;
        CancelStep(t.rooms, id, Apply(t, now, op).tables.rooms[id]);
      }
    } else if Apply(t, now, op).outcome == Done {
      CancelStep(t.rooms, op.id, Apply(t, now, op).tables.rooms[op.id]);
    }
  }

  lemma CancelStep(rooms: map<RoomId, Room>, id: RoomId, after: Room)
    requires RoomsOk(rooms) && id in rooms
    requires var room := rooms[id];
             && after == room.(state := Cancelled, deadline := after.deadline, attempt := after.attempt,
                               participants := after.participants)
             && (room.attempt.state != Active ==> after.attempt.state == room.attempt.state)
             && after.participants in {room.participants, AllEnded(room.participants)}
    ensures RoomsStep(rooms, rooms[id := after])
  {
    hide RoomOk, Evolves;
    var room := rooms[id];
    assert AllEnded(room.participants).Keys == room.participants.Keys;
    CancelledIsOk(room, after.deadline, after.attempt, after.participants);
    PutStep(rooms, id, after);
  }

  lemma OpeningStep(t: Tables, now: Time, op: Op)
    requires RoomsOk(t.rooms) && (op.OpCreateRoom? || op.OpCreateChallenge? || op.OpReceipt?)
    ensures RoomsStep(t.rooms, Apply(t, now, op).tables.rooms)
  {
    hide RoomsOk, RoomsEvolve, DisposeWaiting, EvidenceVerifies, RoomIsWaitingFor, HasPending, RecentChallenges;
    UnchangedStep(t.rooms);
    match op
    case OpCreateRoom(user, game, _, id) =>
      if Apply(t, now, op).tables != t {
        var room := NewRoom(user, game, Waiting, now + 24 * HOUR);
        NewRoomIsOk(user, game, Waiting, now + 24 * HOUR);
        PutStep(t.rooms, id, room);
      }
    case OpCreateChallenge(user, _, game, id, _) =>
      if Apply(t, now, op).tables != t {
        var room := NewRoom(user, game, Challenging, now + 5 * MINUTE);
        NewRoomIsOk(user, game, Challenging, now + 5 * MINUTE);
        DisposePutStep(t.rooms, user, game, None, KeepDeadlines, id, room);
      }
    case OpReceipt(user, source, _, _, _, id, _) =>
      if Apply(t, now, op).tables != t {
        var game := t.rooms[source].game;
        var room := NewRoom(user, game, Waiting, now + 24 * HOUR);
        NewRoomIsOk(user, game, Waiting, now + 24 * HOUR);
        DisposePutStep(t.rooms, user, game, None, LeaveAttempt, id, room);
      }
  }

  lemma SetupStep(t: Tables, now: Time, op: Op)
    requires RoomsOk(t.rooms) && (op.OpSubmitPreflight? || op.OpReady? || op.OpCreateGrant?)
    ensures RoomsStep(t.rooms, Apply(t, now, op).tables.rooms)
  {
    hide RoomsOk, RoomsEvolve, PreflightsMatch, ReadyUsers, ValidPreflightCompatibility, BarrierPassed;
    UnchangedStep(t.rooms);
    if Apply(t, now, op).outcome == Done {
      var room := RoomAt(t.rooms, op.id);
      match op {
        case OpSubmitPreflight(user, id, preflight) => PreflightedIsOk(room, user, preflight);
        case OpReady(user, id) => ReadiedIsOk(room, user, now);
        case OpCreateGrant(user, id, _, _, token) =>
      }
      PutStep(t.rooms, op.id, Apply(t, now, op).tables.rooms[op.id]);
    }
  }

  lemma ProcessStep(t: Tables, now: Time, op: Op)
    requires RoomsOk(t.rooms) && (op.OpLaunch? || op.OpExit?)
    ensures RoomsStep(t.rooms, Apply(t, now, op).tables.rooms)
  {
    hide RoomsOk, RoomsEvolve, RoomOk, Evolves, Launched, Exited, HasLaunchGrant, GrantsWithout;
    UnchangedStep(t.rooms);
    if Apply(t, now, op).tables.rooms != t.rooms {
      var room := RoomAt(t.rooms, op.id);
      if op.OpLaunch? {
        LaunchedIsOk(room, op.user, now);
        PutStep(t.rooms, op.id, Launched(room, op.user, now));
      } else {
        ExitedIsOk(room, op.user);
        PutStep(t.rooms, op.id, Exited(room, op.user));
      }
    }
  }

  lemma StepKeepsRooms(t: Tables, now: Time, op: Op)
    requires RoomsOk(t.rooms)
    ensures RoomsStep(t.rooms, Apply(t, now, op).tables.rooms)
  {
    hide RoomsOk, RoomsEvolve;
    match op
    case OpAcceptRoom(_, _) => JoiningStep(t, now, op);
    case OpAcceptChallenge(_, _) => JoiningStep(t, now, op);
    case OpJoinInvite(_, _) => JoiningStep(t, now, op);
    case OpCreateRoom(_, _, _, _) => OpeningStep(t, now, op);
    case OpCreateChallenge(_, _, _, _, _) => OpeningStep(t, now, op);
    case OpReceipt(_, _, _, _, _, _, _) => OpeningStep(t, now, op);
    case OpSubmitPreflight(_, _, _) => SetupStep(t, now, op);
    case OpReady(_, _) => SetupStep(t, now, op);
    case OpCreateGrant(_, _, _, _, _) => SetupStep(t, now, op);
    case OpLaunch(_, _) => ProcessStep(t, now, op);
    case OpExit(_, _) => ProcessStep(t, now, op);
    case OpConsumeGrant(_, _) => UnchangedStep(t.rooms);
    case OpCreateInvite(_, _, _) => UnchangedStep(t.rooms);
    case _ => CancellingStep(t, now, op);
  }
}
