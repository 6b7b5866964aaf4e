/**
 Who may change a room: its members, the two users of its challenge, and the reconciler.
 */
module RoomAuthority {
  import opened Text
  import opened RoomStates
  import opened RoomTables
  import opened RoomInvariants
  import opened RoomLinks
  import opened RoomRuns

  /** Every room that changed has `user` among its members afterwards. */
  predicate ChangedByMember(before: map<RoomId, Room>, after: map<RoomId, Room>, user: UserId) {
    forall id :: id in after && (id !in before || after[id] != before[id]) ==> user in after[id].members
  }

  lemma NothingChanged(rooms: map<RoomId, Room>, user: UserId)
    ensures ChangedByMember(rooms, rooms, user)
  {
  }

  lemma PutByMember(rooms: map<RoomId, Room>, id: RoomId, room: Room, user: UserId)
    requires user in room.members
    ensures ChangedByMember(rooms, rooms[id := room], user)
  {
  }

  lemma DisposePutByMember(rooms: map<RoomId, Room>, game: string, keep: Option<RoomId>, how: Disposal,
                           id: RoomId, room: Room, user: UserId)
    requires RoomsOk(rooms) && user in room.members
    ensures ChangedByMember(rooms, DisposeWaiting(rooms, user, game, keep, how)[id := room], user)
  {
    hide RoomOk, Disposed;
    forall other | other in rooms && IsWaiting(rooms[other], user, game)
      ensures user in Disposed(rooms[other], how).members
    {
      HostsAreMembers(rooms[other], how);
    }
  }

  lemma HostsAreMembers(room: Room, how: Disposal)
    requires RoomOk(room)
    ensures room.host in Disposed(room, how).members
  {
  }

  lemma OpenersAreMembers(t: Tables, now: Time, op: Op)
    requires RoomsOk(t.rooms) && Opens(op)
    ensures ChangedByMember(t.rooms, Apply(t, now, op).tables.rooms, op.user)
  {
    hide RoomsOk, ChangedByMember, DisposeWaiting, EvidenceVerifies, RoomIsWaitingFor, HasPending, RecentChallenges;
    var after := Apply(t, now, op).tables.rooms;
    if after == t.rooms {
      NothingChanged(t.rooms, op.user);
    } else if op.OpCreateRoom? {
      PutByMember(t.rooms, op.id, after[op.id], op.user);
    } else if op.OpCreateChallenge? {
      DisposePutByMember(t.rooms, op.game, None, KeepDeadlines, op.id, after[op.id], op.user);
    } else {
      DisposePutByMember(t.rooms, t.rooms[op.source].game, None, LeaveAttempt, op.id, after[op.id], op.user);
    }
  }

  lemma AcceptersAreMembers(t: Tables, now: Time, user: UserId, cid: ChallengeId)
    requires RoomsOk(t.rooms)
    ensures ChangedByMember(t.rooms, AcceptChallenge(t, now, user, cid).tables.rooms, user)
  {
    hide RoomsOk, ChangedByMember, DisposeWaiting;
    var after := AcceptChallenge(t, now, user, cid).tables.rooms;
    if after == t.rooms {
      NothingChanged(t.rooms, user);
    } else {
      var id := t.challenges[cid].room;
      DisposePutByMember(t.rooms, t.rooms[id].game, None, KeepDeadlines, id, after[id], user);
    }
  }

  lemma JoinersAreMembers(t: Tables, now: Time, user: UserId, code: Code)
    requires RoomsOk(t.rooms)
    ensures ChangedByMember(t.rooms, JoinInvite(t, now, user, code).tables.rooms, user)
  {
    hide RoomsOk, ChangedByMember, DisposeWaiting, Closed;
    var after := JoinInvite(t, now, user, code).tables.rooms;
    if after == t.rooms {
      NothingChanged(t.rooms, user);
    } else {
      var id := t.invites[code].room;
      DisposePutByMember(t.rooms, t.rooms[id].game, Some(id), ClearDeadlines, id, after[id], user);
    }
  }

  lemma GuestsActAlone(t: Tables, now: Time, user: UserId, id: RoomId)
    ensures ChangedByMember(t.rooms, AcceptRoom(t, now, user, id).tables.rooms, user)
  {
    hide ChangedByMember;
    var after := AcceptRoom(t, now, user, id).tables.rooms;
    if after == t.rooms {
      NothingChanged(t.rooms, user);
    } else {
      PutByMember(t.rooms, id, after[id], user);
    }
  }

  lemma LeaversActAlone(t: Tables, user: UserId, id: RoomId, event: RoomEvent)
    requires event in {Cancel, Decline}
    ensures ChangedByMember(t.rooms, ChangeRoomState(t, user, id, event).tables.rooms, user)
  {
    hide ChangedByMember, WithChallengesOf, AllEnded, Closed;
    var after := ChangeRoomState(t, user, id, event).tables.rooms;
    if after == t.rooms {
      NothingChanged(t.rooms, user);
    } else {
      PutByMember(t.rooms, id, after[id], user);
    }
  }

  lemma GuestsAndLeaversActAlone(t: Tables, now: Time, op: Op)
    requires op.OpAcceptRoom? || op.OpCancelRoom? || op.OpDeclineRoom?
    ensures ChangedByMember(t.rooms, Apply(t, now, op).tables.rooms, op.user)
  {
    hide ChangedByMember, AcceptRoom, ChangeRoomState;
    if op.OpAcceptRoom? {
      GuestsActAlone(t, now, op.user, op.id);
    } else {
      LeaversActAlone(t, op.user, op.id, if op.OpCancelRoom? then Cancel else Decline);
    }
  }

  lemma PlayersActAlone(t: Tables, now: Time, op: Op)
    requires op.OpSubmitPreflight? || op.OpReady? || op.OpCreateGrant? || op.OpLaunch?
    ensures ChangedByMember(t.rooms, Apply(t, now, op).tables.rooms, op.user)
  {
    hide ChangedByMember, PreflightsMatch, GrantsWithout, HasLaunchGrant, ReadyUsers, ValidPreflightCompatibility,
         BarrierPassed, WithReady, Closed;
    var after := Apply(t, now, op).tables.rooms;
    if after == t.rooms {
      NothingChanged(t.rooms, op.user);
    } else {
      PutByMember(t.rooms, op.id, after[op.id], op.user);
    }
  }

  lemma LeaversAreMembers(t: Tables, now: Time, op: Op)
    requires RoomsOk(t.rooms) && op.OpExit?
    ensures ChangedByMember(t.rooms, Apply(t, now, op).tables.rooms, op.user)
  {
    hide ChangedByMember, EndedUsers, Closed;
    var after := Apply(t, now, op).tables.rooms;
    if after == t.rooms {
      NothingChanged(t.rooms, op.user);
    } else {
      assert RoomOk(t.rooms[op.id]);
      PutByMember(t.rooms, op.id, after[op.id], op.user);
    }
  }

  /** The challenged user declines, the challenger cancels: no other room changes. */
  lemma OnlyTheChallengedRoomChanges(t: Tables, now: Time, op: Op, id: RoomId)
    requires op.OpResolveChallenge? && id in t.rooms && Apply(t, now, op).tables.rooms[id] != t.rooms[id]
    ensures op.cid in t.challenges && t.challenges[op.cid].room == id
    ensures op.user == if op.cancel then t.challenges[op.cid].challenger else t.challenges[op.cid].challenged
  {
  }

  /**
   Nobody changes a room from outside: apart from the reconciler and the two users of its own
   challenge, whoever changes a room is one of its members when the transaction commits.
   */
  lemma OutsidersChangeNothing(t: Tables, now: Time, op: Op, id: RoomId)
    requires Inv(t) && !op.OpReconcile? && id in t.rooms
    requires id in Apply(t, now, op).tables.rooms && Apply(t, now, op).tables.rooms[id] != t.rooms[id]
    ensures || op.user in Apply(t, now, op).tables.rooms[id].members
            || (&& op.OpResolveChallenge? && op.cid in t.challenges && t.challenges[op.cid].room == id
                && op.user in {t.challenges[op.cid].challenger, t.challenges[op.cid].challenged})
  {
    hide Apply, RoomsOk, WaitingOk, ChallengesOk, PairsOk, GrantsOk, InvitesOk;
    if Opens(op) {
      OpenersAreMembers(t, now, op);
    } else if op.OpAcceptChallenge? {
      ApplyJoins(t, now, op);
      AcceptersAreMembers(t, now, op.user, op.cid);
    } else if op.OpJoinInvite? {
      ApplyJoins(t, now, op);
      JoinersAreMembers(t, now, op.user, op.code);
    } else if op.OpResolveChallenge? {
      OnlyTheChallengedRoomChanges(t, now, op, id);
    } else if op.OpCreateInvite? || op.OpConsumeGrant? {
      TheseKeepRooms(t, now, op);
    } else if op.OpExit? {
      LeaversAreMembers(t, now, op);
    } else if op.OpAcceptRoom? || op.OpCancelRoom? || op.OpDeclineRoom? {
      GuestsAndLeaversActAlone(t, now, op);
    } else {
      PlayersActAlone(t, now, op);
    }
  }
}
