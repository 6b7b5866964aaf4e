/**
 The handlers as the server runs them: one transaction over mutable tables, statement after
 statement. Each is proved to have, in all, the effect its function in `RoomTables` states.
 */
module RoomServer {
  import opened Text
  import opened RoomStates
  import opened RoomTables
  import opened RoomInvariants
  import opened RoomLinks
  import opened RoomReconciler
  import Reports

  /** The grant is the caller's, has not expired and was not used. */
  predicate Usable(grant: Grant, user: UserId, now: Time) {
    grant.user == user && now < grant.expiresAt && !grant.consumed
  }

  predicate SameTerms(grant: Grant, other: Grant) {
    grant.room == other.room && grant.user == other.user && grant.expiresAt == other.expiresAt
  }

  /** The three updates of a join, together. */
  lemma JoinedStepByStep(before: map<RoomId, Room>, after: map<RoomId, Room>, id: RoomId, user: UserId, now: Time)
    requires id in before
    requires var deadline := Some(now + 2 * MINUTE);
             var member := before[id].(members := before[id].members + {user});
             var moved := member.(state := Connecting, deadline := deadline);
             after == before[id := member][id := moved][id := moved.(attempt := Closed(moved.attempt, Active, deadline))]
    ensures after == before[id := Joined(before[id], user, now)
                                  .(attempt := Closed(before[id].attempt, Active, Some(now + 2 * MINUTE)))]
  {
    hide Closed;
  }

  class Database {
    var users: set<UserId>
    var games: set<string>
    var rooms: map<RoomId, Room>
    var challenges: map<ChallengeId, Challenge>
    var grants: map<Token, Grant>
    var invites: map<Code, Invite>
    var receipts: set<(RoomId, UserId)>
    var results: set<(UserId, Key)>

    constructor (users: set<UserId>, games: set<string>)
      ensures Snapshot() == Tables(users, games, map[], map[], map[], map[], {}, {})
    {
      this.users, this.games := users, games;
      rooms, challenges, grants, invites, receipts, results := map[], map[], map[], map[], {}, {};
    }

    function Snapshot(): Tables
      reads this
    {
      Tables(users, games, rooms, challenges, grants, invites, receipts, results)
    }

    // ---- statements -----------------------------------------------------------------------------

    /** `UPDATE rooms SET state, state_deadline_at WHERE id`. */
    method UpdateRoom(id: RoomId, state: RoomState, deadline: Option<Time>)
      requires id in rooms
      modifies `rooms
      ensures rooms == old(rooms)[id := old(rooms)[id].(state := state, deadline := deadline)]
    {
      rooms := rooms[id := rooms[id].(state := state, deadline := deadline)];
    }

    /** `UPDATE match_attempts SET deadline_at` for the room's attempt, whatever its state. */
    method ExtendAttempt(id: RoomId, deadline: Time)
      requires id in rooms
      modifies `rooms
      ensures rooms == old(rooms)[id := old(rooms)[id].(attempt := old(rooms)[id].attempt.(deadline := Some(deadline)))]
    {
      rooms := rooms[id := rooms[id].(attempt := rooms[id].attempt.(deadline := Some(deadline)))];
    }

    /** `UPDATE match_attempts SET state, deadline_at ... WHERE state = 'ACTIVE'` for the room's attempt. */
    method CloseAttempt(id: RoomId, state: AttemptState, deadline: Option<Time>)
      requires id in rooms
      modifies `rooms
      ensures rooms == old(rooms)[id := old(rooms)[id].(attempt := Closed(old(rooms)[id].attempt, state, deadline))]
    {
      if rooms[id].attempt.state == Active {
        rooms := rooms[id := rooms[id].(attempt := Attempt(state, deadline))];
      } else {
        assert rooms[id := rooms[id].(attempt := rooms[id].attempt)] == rooms;
      }
    }

    /** `INSERT INTO room_members ... ON CONFLICT DO NOTHING`. */
    method InsertMember(id: RoomId, user: UserId)
      requires id in rooms
      modifies `rooms
      ensures rooms == old(rooms)[id := old(rooms)[id].(members := old(rooms)[id].members + {user})]
    {
      rooms := rooms[id := rooms[id].(members := rooms[id].members + {user})];
    }

    /** `UPDATE match_runtime_participants SET ended_at = COALESCE(ended_at, now())`. */
    method EndParticipants(id: RoomId)
      requires id in rooms
      modifies `rooms
      ensures rooms == old(rooms)[id := old(rooms)[id].(participants := AllEnded(old(rooms)[id].participants))]
    {
      rooms := rooms[id := rooms[id].(participants := AllEnded(rooms[id].participants))];
    }

    /** `UPDATE rooms SET state = 'CANCELLED' WHERE host, game, 'WAITING' RETURNING attempt_id`. */
    method CancelWaiting(host: UserId, game: string, keep: Option<RoomId>, clearDeadline: bool)
      returns (cancelled: set<RoomId>)
      modifies `rooms
      ensures cancelled == set id | id in old(rooms) && IsWaiting(old(rooms)[id], host, game) && keep != Some(id)
      ensures rooms == map id | id in old(rooms) ::
        if id !in cancelled then old(rooms)[id]
        else if clearDeadline then old(rooms)[id].(state := Cancelled, deadline := None)
        else old(rooms)[id].(state := Cancelled)
    {
      cancelled := set id | id in rooms && IsWaiting(rooms[id], host, game) && keep != Some(id);
      rooms := map id | id in rooms ::
        if id !in cancelled then rooms[id]
        else if clearDeadline then rooms[id].(state := Cancelled, deadline := None)
        else rooms[id].(state := Cancelled);
    }

    /** `UPDATE match_attempts SET state = 'CANCELLED' WHERE attempt_id IN (...) AND state = 'ACTIVE'`. */
    method CancelAttempts(ids: set<RoomId>, clearDeadline: bool)
      modifies `rooms
      ensures rooms == map id | id in old(rooms) ::
        if id !in ids then old(rooms)[id]
        else old(rooms)[id].(attempt := Closed(old(rooms)[id].attempt, AttemptCancelled,
                                               if clearDeadline then None else old(rooms)[id].attempt.deadline))
    {
      rooms := map id | id in rooms ::
        if id !in ids then rooms[id]
        else rooms[id].(attempt := Closed(rooms[id].attempt, AttemptCancelled,
                                          if clearDeadline then None else rooms[id].attempt.deadline));
    }

    /** The waiting rooms of `host` for `game` are cancelled, with their attempts where the handler says so. */
    method Dispose(host: UserId, game: string, keep: Option<RoomId>, how: Disposal)
      modifies `rooms
      ensures rooms == DisposeWaiting(old(rooms), host, game, keep, how)
      ensures rooms.Keys == old(rooms).Keys
      ensures forall id :: id in rooms && (old(rooms)[id].state != Waiting || keep == Some(id)) ==>
        rooms[id] == old(rooms)[id]
    {
      var cancelled := CancelWaiting(host, game, keep, how == ClearDeadlines);
      if how != LeaveAttempt {
        CancelAttempts(cancelled, how == ClearDeadlines);
      }
      assert rooms == DisposeWaiting(old(rooms), host, game, keep, how);
    }

    /** `INSERT INTO rooms`, with its attempt and its host's membership. */
    method InsertRoom(id: RoomId, room: Room)
      requires id !in rooms
      modifies `rooms
      ensures rooms == old(rooms)[id := room]
    {
      rooms := rooms[id := room];
    }

    /** `UPDATE challenges SET state ... WHERE room_id AND state = 'PENDING'`. */
    method SettleChallengesOf(ids: set<RoomId>, state: ChallengeState)
      modifies `challenges
      ensures challenges == WithChallengesOf(old(challenges), ids, state)
    {
      challenges := WithChallengesOf(challenges, ids, state);
    }

    /** The transaction's changes are undone. */
    method Rollback(saved: Tables)
      modifies this
      ensures Snapshot() == saved
    {
      users, games, rooms, challenges := saved.users, saved.games, saved.rooms, saved.challenges;
      grants, invites, receipts, results := saved.grants, saved.invites, saved.receipts, saved.results;
    }

    // ---- handlers ---------------------------------------------------------------------------------

    method AcceptRoom(now: Time, user: UserId, id: RoomId) returns (outcome: Outcome)
      modifies this
      ensures Response(Snapshot(), outcome) == RoomTables.AcceptRoom(old(Snapshot()), now, user, id)
    {
      if id !in rooms {
        return Denied(NotFound);
      }
      var current := rooms[id].state;
      if rooms[id].host == user {
        return Denied(Forbidden);
      }
      var alreadyMember := user in rooms[id].members;
      if alreadyMember && current in {Connecting, Playing, Finished} {
        return Done;
      }
      var members := |rooms[id].members|;
      if members >= 2 {
        return Denied(Conflict);
      }
      var next := Transition(current, Accept);
      if next.Failure? {
        return Denied(Conflict);
      }
      InsertMember(id, user);
      UpdateRoom(id, next.value, Some(now + 2 * MINUTE));
      ExtendAttempt(id, now + 2 * MINUTE);
      assert rooms == old(rooms)[id := Joined(old(rooms)[id], user, now)];
      return Done;
    }

    method CreateRoom(now: Time, user: UserId, game: string, maxPlayers: int, id: RoomId) returns (outcome: Outcome)
      modifies this
      ensures Response(Snapshot(), outcome) == RoomTables.CreateRoom(old(Snapshot()), now, user, game, maxPlayers, id)
      ensures Snapshot() == old(Snapshot()).(rooms := rooms)
      ensures forall other :: other in old(rooms) ==> other in rooms && rooms[other] == old(rooms)[other]
      ensures rooms.Keys == old(rooms).Keys + (if rooms == old(rooms) then {} else {id})
      ensures outcome == Done ==> RoomIsWaitingFor(Snapshot(), user, game)
      ensures outcome != Done || old(RoomIsWaitingFor(Snapshot(), user, game)) ==> rooms == old(rooms)
    {
      if IsBlank(game) || maxPlayers != 2 {
        return Denied(BadRequest);
      }
      if game !in games {
        return Denied(NotFound);
      }
      if RoomIsWaitingFor(Snapshot(), user, game) {
        return Done;
      }
      if id in rooms {
        return Denied(Internal);
      }
      InsertRoom(id, NewRoom(user, game, Waiting, now + 24 * HOUR));
      return Done;
    }

    method ChangeRoomState(user: UserId, id: RoomId, event: RoomEvent) returns (outcome: Outcome)
      requires event in {Cancel, Decline}
      modifies this
      ensures Response(Snapshot(), outcome) == RoomTables.ChangeRoomState(old(Snapshot()), user, id, event)
    {
      if id !in rooms {
        return Denied(NotFound);
      }
      if user !in rooms[id].members {
        return Denied(Forbidden);
      }
      var next := Transition(rooms[id].state, event);
      if next.Failure? {
        return Denied(Conflict);
      }
      ghost var room := rooms[id];
      UpdateRoom(id, next.value, None);
      if next.value == Cancelled {
        SettleChallengesOf({id}, ChallengeCancelled);
        CloseAttempt(id, AttemptCancelled, None);
        EndParticipants(id);
      }
      assert rooms == old(rooms)[id := room.(state := Cancelled, deadline := None,
                                             attempt := Closed(room.attempt, AttemptCancelled, None),
                                             participants := AllEnded(room.participants))];
      return Done;
    }

    method CreateChallenge(now: Time, user: UserId, challenged: UserId, game: string, id: RoomId, cid: ChallengeId)
      returns (outcome: Outcome)
      modifies this
      ensures Response(Snapshot(), outcome)
              == RoomTables.CreateChallenge(old(Snapshot()), now, user, challenged, game, id, cid)
    {
      hide DisposeWaiting;
      if IsBlank(game) || challenged == user {
        return Denied(BadRequest);
      }
      if challenged !in users || game !in games {
        return Denied(NotFound);
      }
      var saved := Snapshot();
      if |RecentChallenges(saved, now, user)| >= 10 {
        return Denied(RateLimited);
      }
      challenges := ExpireChallenges(challenges, now);
      Dispose(user, game, None, KeepDeadlines);
      if id in rooms || cid in challenges {
        Rollback(saved);
        return Denied(Internal);
      }
      InsertRoom(id, NewRoom(user, game, Challenging, now + 5 * MINUTE));
      if HasPending(challenges, user, challenged) {
        Rollback(saved);
        return Denied(Conflict);
      }
      challenges := challenges[cid := Challenge(id, user, challenged, Pending, now, now + 5 * MINUTE)];
      return Done;
    }

    method AcceptChallenge(now: Time, user: UserId, cid: ChallengeId) returns (outcome: Outcome)
      modifies this
      ensures Response(Snapshot(), outcome) == RoomTables.AcceptChallenge(old(Snapshot()), now, user, cid)
    {
      hide DisposeWaiting;
      if cid !in challenges || challenges[cid].room !in rooms {
        return Denied(NotFound);
      }
      var saved := Snapshot();
      var challenge := challenges[cid];
      var id := challenge.room;
      if challenge.challenged != user {
        return Denied(Forbidden);
      }
      if challenge.state == Accepted {
        return Done;
      }
      if !IsPending(challenge, now) || rooms[id].state != Challenging {
        return Denied(Conflict);
      }
      var game := rooms[id].game;
      Dispose(user, game, None, KeepDeadlines);
      ExtendAttempt(id, now + 2 * MINUTE);
      if user in rooms[id].members {
        Rollback(saved);
        return Denied(Internal);
      }
      InsertMember(id, user);
      UpdateRoom(id, Connecting, Some(now + 2 * MINUTE));
      challenges := challenges[cid := challenge.(state := Accepted)];
      assert rooms == DisposeWaiting(old(rooms), user, game, None, KeepDeadlines)[id := Joined(old(rooms)[id], user, now)];
      return Done;
    }

    method ResolveChallenge(now: Time, user: UserId, cid: ChallengeId, cancel: bool) returns (outcome: Outcome)
      modifies this
      ensures Response(Snapshot(), outcome) == RoomTables.ResolveChallenge(old(Snapshot()), now, user, cid, cancel)
    {
      if cid !in challenges || challenges[cid].room !in rooms {
        return Denied(NotFound);
      }
      var challenge := challenges[cid];
      var authorized := if cancel then challenge.challenger == user else challenge.challenged == user;
      if !authorized {
        return Denied(Forbidden);
      }
      if !IsPending(challenge, now) {
        return Denied(Conflict);
      }
      challenges := challenges[cid := challenge.(state := if cancel then ChallengeCancelled else Declined)];
      UpdateRoom(challenge.room, Cancelled, None);
      CloseAttempt(challenge.room, AttemptCancelled, None);
      ghost var room := old(rooms)[challenge.room];
      assert rooms == old(rooms)[challenge.room := room.(state := Cancelled, deadline := None,
                                                         attempt := Closed(room.attempt, AttemptCancelled, None))];
      return Done;
    }

    method CreateInvite(now: Time, user: UserId, id: RoomId, code: Code) returns (outcome: Outcome)
      modifies this
      ensures Response(Snapshot(), outcome) == RoomTables.CreateInvite(old(Snapshot()), now, user, id, code)
      ensures Snapshot() == old(Snapshot()).(invites := invites)
      ensures outcome == Done <==> code in invites.Keys - old(invites).Keys
      ensures outcome == Done ==> id in rooms && IsWaiting(rooms[id], user, rooms[id].game)
      ensures forall other :: other in invites && other in old(invites) ==> invites[other] == old(invites)[other]
      ensures forall other :: other in invites && other !in old(invites) ==>
        other == code && invites[other] == Invite(id, now + 15 * MINUTE, false)
      ensures old(invites).Keys <= invites.Keys
    {
      if id !in rooms || rooms[id].host != user || rooms[id].state != Waiting {
        return Denied(Forbidden);
      }
      if code in invites {
        return Denied(Internal);
      }
      invites := invites[code := Invite(id, now + 15 * MINUTE, false)];
      return Done;
    }

    method JoinInvite(now: Time, user: UserId, code: Code) returns (outcome: Outcome)
      modifies this
      ensures Response(Snapshot(), outcome) == RoomTables.JoinInvite(old(Snapshot()), now, user, code)
    {
      hide DisposeWaiting;
      if code !in invites || invites[code].expiresAt <= now || invites[code].consumed || invites[code].room !in rooms {
        return Denied(NotFound);
      }
      var saved := Snapshot();
      var id := invites[code].room;
      var game := rooms[id].game;
      if rooms[id].host == user {
        return Denied(Forbidden);
      }
      var next := Transition(rooms[id].state, Accept);
      if next.Failure? {
        return Denied(Conflict);
      }
      if |rooms[id].members| >= 2 {
        return Denied(Conflict);
      }
      Dispose(user, game, Some(id), ClearDeadlines);
      ghost var disposed := rooms;
      if user in rooms[id].members {
        Rollback(saved);
        return Denied(Internal);
      }
      InsertMember(id, user);
      UpdateRoom(id, next.value, Some(now + 2 * MINUTE));
      CloseAttempt(id, Active, Some(now + 2 * MINUTE));
      JoinedStepByStep(disposed, rooms, id, user, now);
      invites := invites[code := invites[code].(consumed := true)];
      return Done;
    }

    method SubmitPreflight(now: Time, user: UserId, id: RoomId, preflight: Preflight) returns (outcome: Outcome)
      modifies this
      ensures Response(Snapshot(), outcome) == RoomTables.SubmitPreflight(old(Snapshot()), now, user, id, preflight)
    {
      if !ValidPreflightCompatibility(preflight.compatibility) {
        return Denied(BadRequest);
      }
      var locked := LockActiveAttempt(Snapshot(), now, user, id);
      if locked.Failure? {
        return Denied(locked.error);
      }
      if preflight.playerSlot != ExpectedSlot(rooms[id].host, user) {
        return Denied(BadRequest);
      }
      rooms := rooms[id := rooms[id].(barrier := None)];
      rooms := rooms[id := rooms[id].(preflights := rooms[id].preflights[user := preflight.(ready := false)])];
      return Done;
    }

    method ReadyToLaunch(now: Time, user: UserId, id: RoomId) returns (outcome: Outcome)
      modifies this
      ensures Response(Snapshot(), outcome) == RoomTables.ReadyToLaunch(old(Snapshot()), now, user, id)
    {
      var locked := LockActiveAttempt(Snapshot(), now, user, id);
      if locked.Failure? {
        return Denied(locked.error);
      }
      if !PreflightsMatch(rooms[id].preflights) {
        return Denied(Conflict);
      }
      var preflights := rooms[id].preflights;
      if user in preflights && preflights[user].portAvailable {
        rooms := rooms[id := rooms[id].(preflights := preflights[user := preflights[user].(ready := true)])];
      }
      var readyCount := |ReadyUsers(rooms[id].preflights)|;
      if readyCount == 2 {
        if rooms[id].barrier.None? || rooms[id].barrier.value <= now {
          rooms := rooms[id := rooms[id].(barrier := Some(now + LAUNCH_DELAY))];
        }
      }
      assert rooms == old(rooms)[id := Readied(old(rooms)[id], user, now)];
      return Done;
    }

    method CreateLaunchGrant(now: Time, user: UserId, id: RoomId, endpointsUsable: bool, campaign: bool, token: Token)
      returns (outcome: Outcome)
      modifies this
      ensures Response(Snapshot(), outcome)
              == RoomTables.CreateLaunchGrant(old(Snapshot()), now, user, id, endpointsUsable, campaign, token)
    {
      if !endpointsUsable {
        return Denied(BadRequest);
      }
      if id !in rooms {
        return Denied(NotFound);
      }
      if rooms[id].state != Connecting {
        return Denied(Conflict);
      }
      if campaign {
        if !BarrierPassed(rooms[id], now) {
          return Denied(Conflict);
        }
      }
      if user !in rooms[id].members || rooms[id].members == {user} {
        return Denied(Forbidden);
      }
      if token in grants {
        return Denied(Internal);
      }
      grants := grants[token := Grant(id, user, now + 90, false)];
      ExtendAttempt(id, now + 2 * MINUTE);
      return Done;
    }

    method ConsumeLaunchGrant(now: Time, user: UserId, token: Token) returns (outcome: Outcome)
      modifies this
      ensures Response(Snapshot(), outcome) == RoomTables.ConsumeLaunchGrant(old(Snapshot()), now, user, token)
      ensures Snapshot() == old(Snapshot()).(grants := grants)
      ensures outcome == Done <==> token in old(grants) && Usable(old(grants)[token], user, now)
      ensures grants.Keys == old(grants).Keys
      ensures forall other :: other in grants ==>
        && SameTerms(grants[other], old(grants)[other])
        && (grants[other].consumed <==> old(grants)[other].consumed || (outcome == Done && other == token))
      ensures outcome == Done ==>
        forall later, other :: RoomTables.ConsumeLaunchGrant(Snapshot(), later, other, token).outcome == Denied(Unauthorized)
    {
      if token in grants && grants[token].user == user && grants[token].expiresAt > now && !grants[token].consumed {
        grants := grants[token := grants[token].(consumed := true)];
        return Done;
      }
      return Denied(Unauthorized);
    }

    method ConfirmNativeLaunch(now: Time, user: UserId, id: RoomId) returns (outcome: Outcome)
      modifies this
      ensures Response(Snapshot(), outcome) == RoomTables.ConfirmNativeLaunch(old(Snapshot()), now, user, id)
    {
      if id !in rooms {
        return Denied(NotFound);
      }
      var current := rooms[id].state;
      if current !in {Connecting, Playing} {
        return Denied(Conflict);
      }
      if user !in rooms[id].members {
        return Denied(Forbidden);
      }
      if user in rooms[id].participants {
        if rooms[id].participants[user] == Ended {
          return Denied(Conflict);
        }
        return Done;
      }
      if !HasLaunchGrant(Snapshot(), id, user, now) {
        return Denied(Conflict);
      }
      rooms := rooms[id := rooms[id].(participants := rooms[id].participants[user := Running])];
      grants := GrantsWithout(grants, id, user);
      var memberCount := |rooms[id].members|;
      var launchedCount := |rooms[id].participants|;
      if current == Connecting && memberCount == 2 && launchedCount == memberCount {
        UpdateRoom(id, Playing, Some(now + 4 * HOUR));
        CloseAttempt(id, Active, Some(now + 4 * HOUR));
      }
      assert rooms == old(rooms)[id := Launched(old(rooms)[id], user, now)];
      return Done;
    }

    method ConfirmNativeExit(user: UserId, id: RoomId) returns (outcome: Outcome)
      modifies this
      ensures Response(Snapshot(), outcome) == RoomTables.ConfirmNativeExit(old(Snapshot()), user, id)
    {
      if id !in rooms {
        return Denied(NotFound);
      }
      var current := rooms[id].state;
      if current !in {Connecting, Playing, Finished, Cancelled} {
        return Denied(Conflict);
      }
      if user !in rooms[id].participants {
        return Denied(Conflict);
      }
      rooms := rooms[id := rooms[id].(participants := rooms[id].participants[user := Ended])];
      if current == Connecting {
        UpdateRoom(id, Cancelled, None);
        CloseAttempt(id, Failed, None);
      } else if current == Playing {
        var memberCount := |rooms[id].members|;
        var endedCount := |EndedUsers(rooms[id].participants)|;
        if memberCount == 2 && endedCount == memberCount {
          UpdateRoom(id, Finished, None);
          CloseAttempt(id, Succeeded, None);
        }
      }
      assert rooms == old(rooms)[id := Exited(old(rooms)[id], user)];
      return Done;
    }

    method CreateMatchReceipt(now: Time, user: UserId, source: RoomId, key: Key, reports: seq<Reports.MatchReport>,
                              failureReports: nat, id: RoomId, code: Code)
      returns (outcome: Outcome)
      modifies this
      ensures Response(Snapshot(), outcome)
              == RoomTables.CreateMatchReceipt(old(Snapshot()), now, user, source, key, reports, failureReports, id, code)
    {
      hide DisposeWaiting, EvidenceVerifies, NewRoom;
      if (user, key) in results {
        return Done;
      }
      if source !in rooms || user !in rooms[source].members || rooms[source].state != Finished {
        return Denied(Conflict);
      }
      if !EvidenceVerifies(reports, failureReports) {
        return Denied(Conflict);
      }
      if (source, user) in receipts {
        return Denied(Conflict);
      }
      var saved := Snapshot();
      var game := rooms[source].game;
      Dispose(user, game, None, LeaveAttempt);
      if id in rooms {
        Rollback(saved);
        return Denied(Internal);
      }
      InsertRoom(id, NewRoom(user, game, Waiting, now + 24 * HOUR));
      if code in invites {
        Rollback(saved);
        return Denied(Internal);
      }
      invites := invites[code := Invite(id, now + 15 * MINUTE, false)];
      receipts := receipts + {(source, user)};
      results := results + {(user, key)};
      return Done;
    }

    /** One request of any kind, against tables in any state the server can reach. */
    method Serve(now: Time, op: Op) returns (outcome: Outcome)
      requires !op.OpReconcile? && Inv(Snapshot())
      modifies this
      ensures Response(Snapshot(), outcome) == Apply(old(Snapshot()), now, op)
      ensures Inv(Snapshot()) && RoomsEvolve(old(rooms), rooms)
    {
      hide Inv, RoomsEvolve, RoomTables.CreateRoom, RoomTables.AcceptRoom, RoomTables.ChangeRoomState,
           RoomTables.CreateChallenge, RoomTables.AcceptChallenge, RoomTables.ResolveChallenge, RoomTables.CreateInvite,
           RoomTables.JoinInvite, RoomTables.SubmitPreflight, RoomTables.ReadyToLaunch, RoomTables.CreateLaunchGrant,
           RoomTables.ConsumeLaunchGrant, RoomTables.ConfirmNativeLaunch, RoomTables.ConfirmNativeExit,
           RoomTables.CreateMatchReceipt;
      StepKeepsInv(Snapshot(), now, op);
      match op {
        case OpCreateRoom(user, game, maxPlayers, id) => outcome := CreateRoom(now, user, game, maxPlayers, id);
        case OpAcceptRoom(user, id) => outcome := AcceptRoom(now, user, id);
        case OpCancelRoom(user, id) => outcome := ChangeRoomState(user, id, Cancel);
        case OpDeclineRoom(user, id) => outcome := ChangeRoomState(user, id, Decline);
        case OpCreateChallenge(user, other, game, id, cid) => outcome := CreateChallenge(now, user, other, game, id, cid);
        case OpAcceptChallenge(user, cid) => outcome := AcceptChallenge(now, user, cid);
        case OpResolveChallenge(user, cid, cancel) => outcome := ResolveChallenge(now, user, cid, cancel);
        case OpCreateInvite(user, id, code) => outcome := CreateInvite(now, user, id, code);
        case OpJoinInvite(user, code) => outcome := JoinInvite(now, user, code);
        case OpSubmitPreflight(user, id, preflight) => outcome := SubmitPreflight(now, user, id, preflight);
        case OpReady(user, id) => outcome := ReadyToLaunch(now, user, id);
        case OpCreateGrant(user, id, usable, campaign, token) =>
          outcome := CreateLaunchGrant(now, user, id, usable, campaign, token);
        case OpConsumeGrant(user, token) => outcome := ConsumeLaunchGrant(now, user, token);
        case OpLaunch(user, id) => outcome := ConfirmNativeLaunch(now, user, id);
        case OpExit(user, id) => outcome := ConfirmNativeExit(user, id);
        case OpReceipt(user, source, key, reports, failures, id, code) =>
          outcome := CreateMatchReceipt(now, user, source, key, reports, failures, id, code);
        case OpReconcile(_, _) => assert false;
      }
    }

    // ---- the reconciler ---------------------------------------------------------------------------

    method ExpireOldest(now: Time) returns (expired: set<ChallengeId>)
      modifies `challenges
      ensures OldestChallenges(old(Snapshot()), now, expired)
      ensures challenges == WithExpired(old(challenges), expired)
    {
      var overdue := ExpiredChallenges(Snapshot(), now);
      expired := TakeOldest(overdue, map c | c in challenges :: challenges[c].expiresAt, RECONCILE_BATCH_SIZE);
      challenges := WithExpired(challenges, expired);
    }

    method LockOverdue(now: Time) returns (locked: set<RoomId>)
      ensures OldestRooms(Snapshot(), now, locked)
    {
      var late := ExpiredRooms(Snapshot(), now);
      var deadlines := map id | id in rooms && rooms[id].deadline.Some? :: rooms[id].deadline.value;
      locked := TakeOldest(late, deadlines, RECONCILE_BATCH_SIZE);
    }

    method CancelLocked(locked: set<RoomId>)
      modifies `rooms
      ensures rooms == WithReconciled(old(rooms), locked)
    {
      rooms := map id | id in rooms ::
        if id in locked
        then rooms[id].(state := Cancelled, deadline := None, attempt := Closed(rooms[id].attempt, Expired, None))
        else rooms[id];
      rooms := map id | id in rooms ::
        if id in locked then rooms[id].(participants := AllEnded(rooms[id].participants)) else rooms[id];
    }

    /** One pass: the oldest overdue challenges expire, then the oldest overdue rooms are cancelled. */
    method ReconcileExpired(now: Time) returns (batch: Batch)
      modifies this
      ensures FullPass(old(Snapshot()), now, batch)
      ensures Snapshot() == Pass(old(Snapshot()), batch)
      ensures ExactlyTimedOut(old(Snapshot()), Snapshot(), batch.rooms, batch.challenges)
    {
      ghost var before := Snapshot();
      hide WithReconciled, WithExpired, WithChallengesOf, RoomExpired;
      var expired := ExpireOldest(now);
      var locked := LockOverdue(now);
      assert ExpiredRooms(Snapshot(), now) == ExpiredRooms(old(Snapshot()), now);
      SettleChallengesOf(locked, ChallengeExpired);
      CancelLocked(locked);
      batch := Batch(locked, expired);
      FullPassesAreBatches(before, now, batch);
      ABatchTimesOut(before, now, locked, expired);
      hide ExactlyTimedOut, RoomTables.ReconcileExpired;
    }

    /** `reconcile_expired` again and again at one instant, until a pass finds no overdue room. */
    method Drain(now: Time) returns (batches: seq<Batch>)
      modifies this
      ensures FullPasses(old(Snapshot()), now, batches) && Snapshot() == Passes(old(Snapshot()), batches)
      ensures ExpiredRooms(Snapshot(), now) == {}
    {
      batches := [];
      ghost var start := Snapshot();
      while ExpiredRooms(Snapshot(), now) != {}
        invariant FullPasses(start, now, batches) && Snapshot() == Passes(start, batches)
        decreases |ExpiredRooms(Snapshot(), now)|
      {
        ghost var before := Snapshot();
        var batch := ReconcileExpired(now);
        PassMakesProgress(before, now, batch);
        AppendPass(start, now, batches, batch);
        batches := batches + [batch];
      }
    }
  }

  /** `ORDER BY due LIMIT limit`. */
  method TakeOldest<K(==)>(ids: set<K>, due: map<K, Time>, limit: nat) returns (taken: set<K>)
    requires ids <= due.Keys
    ensures taken <= ids && |taken| == if |ids| <= limit then |ids| else limit
    ensures forall k, l :: k in taken && l in ids && l !in taken ==> due[k] <= due[l]
  {
    taken := {};
    var rest := ids;
    while rest != {} && |taken| < limit
      invariant rest == ids - taken && taken <= ids && |rest| + |taken| == |ids| && |taken| <= limit
      invariant forall k, l :: k in taken && l in rest ==> due[k] <= due[l]
      decreases |rest|
    {
      OldestExists(rest, due);
      var oldest :| oldest in rest && forall l :: l in rest ==> due[oldest] <= due[l];
      taken, rest := taken + {oldest}, rest - {oldest};
    }
  }

  lemma OldestExists<K>(ids: set<K>, due: map<K, Time>)
    requires ids != {} && ids <= due.Keys
    ensures exists k :: k in ids && forall l :: l in ids ==> due[k] <= due[l]
  {
    var k :| k in ids;
    if ids != {k} {
      OldestExists(ids - {k}, due);
      var m :| m in ids - {k} && forall l :: l in ids - {k} ==> due[m] <= due[l];
      if due[k] <= due[m] {
        assert forall l :: l in ids ==> l == k || l in ids - {k};
      } else {
        assert forall l :: l in ids ==> due[m] <= due[l];
      }
    }
  }

  lemma PassMakesProgress(t: Tables, now: Time, batch: Batch)
    requires FullPass(t, now, batch) && ExpiredRooms(t, now) != {}
    ensures |ExpiredRooms(Pass(t, batch), now)| < |ExpiredRooms(t, now)|
  {
    hide ExpiredRooms, Pass;
    PassRemovesTheBatch(t, now, batch);
    var before := ExpiredRooms(t, now);
    assert before == (before - batch.rooms) + batch.rooms;
  }

  lemma AppendPass(t: Tables, now: Time, batches: seq<Batch>, batch: Batch)
    requires FullPasses(t, now, batches) && FullPass(Passes(t, batches), now, batch)
    ensures FullPasses(t, now, batches + [batch]) && Passes(t, batches + [batch]) == Pass(Passes(t, batches), batch)
  {
    hide FullPass, Pass;
    var longer := batches + [batch];
    assert longer[..|batches|] == batches;
    forall i | 0 <= i < |longer| ensures FullPass(Passes(t, longer[..i]), now, longer[i]) {
      assert i < |batches| ==> longer[..i] == batches[..i];
    }
  }
}
