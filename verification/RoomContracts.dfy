/**
 What each request asks for and what it leaves behind, row by row and in plain numbers: when it
 succeeds, which rows change and which never do. Times are in seconds.
 */
module RoomContracts {
  import opened Text
  import opened RoomStates
  import opened RoomTables
  import Reports

  // ---- what may differ between two versions of a row ------------------------------------------------

  /** Whose room it is, who is in it and what they announced. */
  predicate SameParty(a: Room, b: Room) {
    && a.host == b.host && a.game == b.game && a.members == b.members
    && a.preflights == b.preflights && a.barrier == b.barrier
  }

  /** An open attempt gets this verdict; a settled one keeps its own. */
  predicate Judged(before: Attempt, after: Attempt, verdict: AttemptState, deadline: Option<Time>) {
    if before.state == Active then after.state == verdict && after.deadline == deadline else after == before
  }

  /** Every process that was recorded is still recorded, and has ended. */
  predicate ProcessesEnded(before: Room, after: Room) {
    && after.participants.Keys == before.participants.Keys
    && forall u :: u in after.participants ==> after.participants[u] == Ended
  }

  /** Only this room, and tables other than the rooms. */
  predicate OtherRoomsStay(before: Tables, after: Tables, id: RoomId) {
    && after.rooms.Keys == before.rooms.Keys
    && forall other :: other in before.rooms && other != id ==> after.rooms[other] == before.rooms[other]
  }

  predicate SameTablesButRooms(before: Tables, after: Tables) {
    after == before.(rooms := after.rooms)
  }

  /** A challenge row keeps all but its state, and its state too unless it was pending. */
  predicate OnlySettled(before: Challenge, after: Challenge) {
    after == before.(state := after.state) && (before.state != Pending ==> after == before)
  }

  /** A refused request changes nothing. */
  lemma RefusalsChangeNothing(t: Tables, now: Time, op: Op)
    ensures Apply(t, now, op).outcome != Done ==> Apply(t, now, op).tables == t
  {
    hide Joined, DisposeWaiting, PreflightsMatch, Readied, Launched, Exited, AllEnded, Closed, WithChallengesOf,
         HasLaunchGrant, ValidPreflightCompatibility, BarrierPassed, IsBatch, EvidenceVerifies, RoomIsWaitingFor, NewRoom,
         RecentChallenges, HasPending, ExpireChallenges, GrantsWithout, ReconcileExpired;
  }

  // ---- waiting rooms that are given up ---------------------------------------------------------------

  /** A room of `host` for `game` that waits, other than `keep`. */
  predicate GivenUp(room: Room, id: RoomId, host: UserId, game: string, keep: Option<RoomId>) {
    room.host == host && room.game == game && room.state == Waiting && keep != Some(id)
  }

  /** Exactly the user's other waiting rooms are cancelled; who was in them is kept, and so is every other room. */
  lemma DisposalsAre(rooms: map<RoomId, Room>, host: UserId, game: string, keep: Option<RoomId>, how: Disposal)
    ensures var after := DisposeWaiting(rooms, host, game, keep, how);
            && after.Keys == rooms.Keys
            && forall id :: id in rooms ==>
                 if !GivenUp(rooms[id], id, host, game, keep) then after[id] == rooms[id]
                 else
                   && after[id].state == Cancelled && SameParty(rooms[id], after[id])
                   && after[id].participants == rooms[id].participants
                   && match how
                      case KeepDeadlines =>
                        && after[id].deadline == rooms[id].deadline
                        && Judged(rooms[id].attempt, after[id].attempt, AttemptCancelled, rooms[id].attempt.deadline)
                      case ClearDeadlines =>
                        && after[id].deadline == None
                        && Judged(rooms[id].attempt, after[id].attempt, AttemptCancelled, None)
                      case LeaveAttempt =>
                        after[id].deadline == rooms[id].deadline && after[id].attempt == rooms[id].attempt
  {
  }

  // ---- opening and joining ---------------------------------------------------------------------------

  /** A room as it is opened. */
  predicate Opened(room: Room, host: UserId, game: string, state: RoomState, deadline: Time) {
    && room.host == host && room.game == game && room.state == state && room.members == {host}
    && room.participants == map[] && room.preflights == map[] && room.barrier == None
    && room.deadline == Some(deadline) && room.attempt.state == Active && room.attempt.deadline == Some(deadline)
  }

  /** The guest is in, and two minutes are left to connect. */
  predicate Entered(before: Room, after: Room, guest: UserId, now: Time) {
    && after.host == before.host && after.game == before.game && after.members == before.members + {guest}
    && after.participants == before.participants && after.preflights == before.preflights
    && after.barrier == before.barrier
    && after.state == Connecting && after.deadline == Some(now + 120)
  }

  lemma CreatingARoom(t: Tables, now: Time, user: UserId, game: string, maxPlayers: int, id: RoomId)
    ensures var r := CreateRoom(t, now, user, game, maxPlayers, id);
            var waits := exists w :: w in t.rooms && GivenUp(t.rooms[w], w, user, game, None);
            && (r.outcome == Denied(BadRequest) <==> IsBlank(game) || maxPlayers != 2)
            && (r.outcome == Denied(NotFound) <==> !IsBlank(game) && maxPlayers == 2 && game !in t.games)
            && (r.outcome == Done <==>
                  !IsBlank(game) && maxPlayers == 2 && game in t.games && (waits || id !in t.rooms))
            && (r.outcome == Done && !waits ==>
                  && SameTablesButRooms(t, r.tables) && id in r.tables.rooms
                  && r.tables.rooms == t.rooms[id := r.tables.rooms[id]]
                  && Opened(r.tables.rooms[id], user, game, Waiting, now + 86400))
            && (r.outcome == Done && waits ==> r.tables == t)
  {
    if w :| w in t.rooms && GivenUp(t.rooms[w], w, user, game, None) {
      assert IsWaiting(t.rooms[w], user, game);
    }
    if w :| w in t.rooms && IsWaiting(t.rooms[w], user, game) {
      assert GivenUp(t.rooms[w], w, user, game, None);
    }
  }

  /** A guest is let in while the room is open and not full; asking again after that is harmless. */
  lemma AcceptingARoom(t: Tables, now: Time, user: UserId, id: RoomId)
    ensures var r := AcceptRoom(t, now, user, id);
            && (r.outcome == Denied(NotFound) <==> id !in t.rooms)
            && (r.outcome == Denied(Forbidden) <==> id in t.rooms && t.rooms[id].host == user)
            && (id in t.rooms ==>
                  var room := t.rooms[id];
                  var again := user in room.members && room.state in {Connecting, Playing, Finished};
                  && (r.outcome == Done <==>
                        room.host != user && (again || (room.state in {Waiting, Challenging} && |room.members| < 2)))
                  && (r.outcome == Done && again ==> r.tables == t)
                  && (r.outcome == Done && !again ==>
                        && SameTablesButRooms(t, r.tables) && OtherRoomsStay(t, r.tables, id)
                        && Entered(room, r.tables.rooms[id], user, now)
                        && r.tables.rooms[id].attempt == Attempt(room.attempt.state, Some(now + 120))))
            && r.outcome in {Done, Denied(NotFound), Denied(Forbidden), Denied(Conflict)}
  {
  }

  /** A member ends a live room: its pending challenges, open attempt and running processes end with it. */
  lemma LeavingARoom(t: Tables, user: UserId, id: RoomId, event: RoomEvent)
    requires event in {Cancel, Decline}
    ensures var r := ChangeRoomState(t, user, id, event);
            && (r.outcome == Denied(NotFound) <==> id !in t.rooms)
            && (r.outcome == Denied(Forbidden) <==> id in t.rooms && user !in t.rooms[id].members)
            && (r.outcome == Denied(Conflict) <==>
                  id in t.rooms && user in t.rooms[id].members && t.rooms[id].state in {Finished, Cancelled})
            && (r.outcome == Done <==> id in t.rooms && user in t.rooms[id].members && Live(t.rooms[id].state))
            && (r.outcome == Done ==>
                  var before, after := t.rooms[id], r.tables.rooms[id];
                  && r.tables == t.(rooms := r.tables.rooms, challenges := r.tables.challenges)
                  && OtherRoomsStay(t, r.tables, id)
                  && after.state == Cancelled && after.deadline == None && SameParty(before, after)
                  && ProcessesEnded(before, after) && Judged(before.attempt, after.attempt, AttemptCancelled, None)
                  && r.tables.challenges.Keys == t.challenges.Keys
                  && forall c :: c in t.challenges ==>
                       && OnlySettled(t.challenges[c], r.tables.challenges[c])
                       && r.tables.challenges[c].state
                          == (if t.challenges[c].room == id && t.challenges[c].state == Pending then ChallengeCancelled
                              else t.challenges[c].state))
  {
  }

  // ---- challenges ------------------------------------------------------------------------------------

  /** Pending and not overdue. */
  predicate Stands(c: Challenge, now: Time) {
    c.state == Pending && now < c.expiresAt
  }

  /** Overdue challenges are marked, the others left alone. */
  lemma ExpiringChallenges(challenges: map<ChallengeId, Challenge>, now: Time)
    ensures var after := ExpireChallenges(challenges, now);
            && after.Keys == challenges.Keys
            && forall c :: c in challenges ==>
                 && OnlySettled(challenges[c], after[c])
                 && after[c].state == (if challenges[c].state == Pending && !Stands(challenges[c], now) then ChallengeExpired
                                       else challenges[c].state)
  {
  }

  lemma ChallengingAPlayer(t: Tables, now: Time, user: UserId, challenged: UserId, game: string,
                           id: RoomId, cid: ChallengeId)
    ensures var r := CreateChallenge(t, now, user, challenged, game, id, cid);
            var mayAsk := !IsBlank(game) && challenged != user && challenged in t.users && game in t.games;
            var recent := set c | c in t.challenges && t.challenges[c].challenger == user
                                 && now - t.challenges[c].createdAt < 600;
            var stands := exists c :: c in t.challenges && Stands(t.challenges[c], now)
                                      && t.challenges[c].challenger == user && t.challenges[c].challenged == challenged;
            && (r.outcome == Denied(BadRequest) <==> IsBlank(game) || challenged == user)
            && (r.outcome == Denied(NotFound) <==>
                  !IsBlank(game) && challenged != user && (challenged !in t.users || game !in t.games))
            && (r.outcome == Denied(Conflict) <==>
                  mayAsk && |recent| < 10 && id !in t.rooms && cid !in t.challenges && stands)
            && (r.outcome == Denied(RateLimited) <==> mayAsk && |recent| >= 10)
            && (r.outcome == Done <==> mayAsk && |recent| < 10 && id !in t.rooms && cid !in t.challenges && !stands)
            && (r.outcome == Done ==>
                  && r.tables == t.(rooms := r.tables.rooms, challenges := r.tables.challenges)
                  && id in r.tables.rooms && Opened(r.tables.rooms[id], user, game, Challenging, now + 300)
                  && r.tables.rooms == DisposeWaiting(t.rooms, user, game, None, KeepDeadlines)[id := r.tables.rooms[id]]
                  && r.tables.challenges == ExpireChallenges(t.challenges, now)
                                            [cid := Challenge(id, user, challenged, Pending, now, now + 300)])
  {
    hide DisposeWaiting;
    var recent := set c | c in t.challenges && t.challenges[c].challenger == user && now - t.challenges[c].createdAt < 600;
    assert recent == RecentChallenges(t, now, user);
    hide RecentChallenges;
    StandingChallenges(t.challenges, now, user, challenged);
    hide HasPending, ExpireChallenges;
  }

  lemma StandingChallenges(challenges: map<ChallengeId, Challenge>, now: Time, user: UserId, challenged: UserId)
    ensures HasPending(ExpireChallenges(challenges, now), user, challenged) <==>
              exists c :: c in challenges && Stands(challenges[c], now)
                          && challenges[c].challenger == user && challenges[c].challenged == challenged
  {
    var after := ExpireChallenges(challenges, now);
    if c :| c in challenges && Stands(challenges[c], now) && challenges[c].challenger == user
            && challenges[c].challenged == challenged
    {
      assert after[c] == challenges[c];
    }
    if c :| c in after && after[c].state == Pending && after[c].challenger == user && after[c].challenged == challenged {
      assert Stands(challenges[c], now) && challenges[c].challenger == user && challenges[c].challenged == challenged;
    }
  }

  /** Only the challenged player starts the match, while the challenge stands and its room is still open. */
  lemma AcceptingAChallenge(t: Tables, now: Time, user: UserId, cid: ChallengeId)
    ensures var r := AcceptChallenge(t, now, user, cid);
            var found := cid in t.challenges && t.challenges[cid].room in t.rooms;
            && (r.outcome == Denied(NotFound) <==> !found)
            && (r.outcome == Denied(Forbidden) <==> found && t.challenges[cid].challenged != user)
            && (found ==>
                  var challenge, room := t.challenges[cid], t.rooms[t.challenges[cid].room];
                  && (r.outcome == Done <==>
                        && challenge.challenged == user
                        && (challenge.state == Accepted
                            || (Stands(challenge, now) && room.state == Challenging && user !in room.members)))
                  && (r.outcome == Done && challenge.state == Accepted ==> r.tables == t)
                  && (r.outcome == Done && challenge.state != Accepted ==>
                        var id := challenge.room;
                        && r.tables == t.(rooms := r.tables.rooms, challenges := r.tables.challenges)
                        && r.tables.challenges == t.challenges[cid := challenge.(state := Accepted)]
                        && id in r.tables.rooms && Entered(room, r.tables.rooms[id], user, now)
                        && r.tables.rooms[id].attempt == Attempt(room.attempt.state, Some(now + 120))
                        && r.tables.rooms == DisposeWaiting(t.rooms, user, room.game, None, KeepDeadlines)
                                             [id := r.tables.rooms[id]]))
  {
    hide DisposeWaiting;
  }

  /** The challenger cancels or the challenged declines, and the room is cancelled at any stage, its processes left alone. */
  lemma ResolvingAChallenge(t: Tables, now: Time, user: UserId, cid: ChallengeId, cancel: bool)
    ensures var r := ResolveChallenge(t, now, user, cid, cancel);
            var found := cid in t.challenges && t.challenges[cid].room in t.rooms;
            && (r.outcome == Denied(NotFound) <==> !found)
            && (found ==>
                  var challenge := t.challenges[cid];
                  var id := challenge.room;
                  var entitled := user == (if cancel then challenge.challenger else challenge.challenged);
                  && (r.outcome == Denied(Forbidden) <==> !entitled)
                  && (r.outcome == Denied(Conflict) <==> entitled && !Stands(challenge, now))
                  && (r.outcome == Done ==>
                        var before, after := t.rooms[id], r.tables.rooms[id];
                        && r.tables == t.(rooms := r.tables.rooms, challenges := r.tables.challenges)
                        && r.tables.challenges
                           == t.challenges[cid := challenge.(state := if cancel then ChallengeCancelled else Declined)]
                        && OtherRoomsStay(t, r.tables, id)
                        && after.state == Cancelled && after.deadline == None && SameParty(before, after)
                        && after.participants == before.participants
                        && Judged(before.attempt, after.attempt, AttemptCancelled, None)))
            && r.outcome in {Done, Denied(NotFound), Denied(Forbidden), Denied(Conflict)}
  {
  }

  // ---- invites ---------------------------------------------------------------------------------------

  /** The host of a waiting room, and nobody else, adds a code for fifteen minutes. */
  lemma CreatingAnInvite(t: Tables, now: Time, user: UserId, id: RoomId, code: Code)
    ensures var r := CreateInvite(t, now, user, id, code);
            var entitled := id in t.rooms && t.rooms[id].host == user && t.rooms[id].state == Waiting;
            && (r.outcome == Denied(Forbidden) <==> !entitled)
            && (r.outcome == Done <==> entitled && code !in t.invites)
            && (r.outcome == Done ==> r.tables == t.(invites := t.invites[code := Invite(id, now + 900, false)]))
  {
  }

  /** A grant is used up once, by its own user, before it expires. */
  lemma ConsumingAGrant(t: Tables, now: Time, user: UserId, token: Token)
    ensures var r := ConsumeLaunchGrant(t, now, user, token);
            && (r.outcome == Done <==>
                  token in t.grants && t.grants[token].user == user && now < t.grants[token].expiresAt
                  && !t.grants[token].consumed)
            && (r.outcome != Done ==> r == Response(t, Denied(Unauthorized)))
            && (r.outcome == Done ==>
                  r.tables == t.(grants := t.grants[token := t.grants[token].(consumed := true)]))
  {
  }

  /** An unused invite lets one guest into an open room of one until it expires. */
  lemma RedeemingAnInvite(t: Tables, now: Time, user: UserId, code: Code)
    ensures var r := JoinInvite(t, now, user, code);
            var valid := code in t.invites && now < t.invites[code].expiresAt && !t.invites[code].consumed
                         && t.invites[code].room in t.rooms;
            && (r.outcome == Denied(NotFound) <==> !valid)
            && (valid ==>
                  var id := t.invites[code].room;
                  var room := t.rooms[id];
                  && (r.outcome == Denied(Forbidden) <==> room.host == user)
                  && (r.outcome == Denied(Conflict) <==>
                        room.host != user && (room.state !in {Waiting, Challenging} || |room.members| >= 2))
                  && (r.outcome == Done ==>
                        && user !in room.members
                        && r.tables == t.(rooms := r.tables.rooms, invites := r.tables.invites)
                        && r.tables.invites == t.invites[code := t.invites[code].(consumed := true)]
                        && id in r.tables.rooms && Entered(room, r.tables.rooms[id], user, now)
                        && Judged(room.attempt, r.tables.rooms[id].attempt, Active, Some(now + 120))
                        && r.tables.rooms == DisposeWaiting(t.rooms, user, room.game, Some(id), ClearDeadlines)
                                             [id := r.tables.rooms[id]]))
            && r.outcome in {Done, Denied(NotFound), Denied(Forbidden), Denied(Conflict), Denied(Internal)}
            && (valid && t.rooms[t.invites[code].room].members == {t.rooms[t.invites[code].room].host} ==>
                  r.outcome != Denied(Internal))
  {
    hide DisposeWaiting;
  }

  // ---- preparing the match ---------------------------------------------------------------------------

  /** A member of a match that connects or plays and is not overdue. */
  predicate InActiveMatch(t: Tables, now: Time, user: UserId, id: RoomId) {
    && id in t.rooms && user in t.rooms[id].members && t.rooms[id].state in {Connecting, Playing}
    && (t.rooms[id].deadline.Some? ==> now < t.rooms[id].deadline.value)
  }

  predicate IsHash(text: string) {
    |text| == 64 && forall c :: c in text ==> '0' <= c <= '9' || 'a' <= c <= 'f'
  }

  predicate KnownEmulator(c: Reports.Compatibility) {
    && (c.adapter == "retroarch_fbneo" || c.adapter == "retroarch_test")
    && (c.emulatorVersion == None || (!IsBlank(c.emulatorVersion.value) && Utf8Len(c.emulatorVersion.value) <= 64))
    && IsHash(c.executableSha256) && IsHash(c.coreSha256) && IsHash(c.contentSha256)
  }

  /** A preflight is taken as it is but for its readiness, and takes a barrier away. */
  lemma SubmittingAPreflight(t: Tables, now: Time, user: UserId, id: RoomId, p: Preflight)
    ensures var r := SubmitPreflight(t, now, user, id, p);
            var slot := if id in t.rooms && t.rooms[id].host == user then 1 else 2;
            var member := id in t.rooms && user in t.rooms[id].members;
            && (r.outcome == Done <==>
                  KnownEmulator(p.compatibility) && InActiveMatch(t, now, user, id) && p.playerSlot == slot)
            && (r.outcome == Denied(Forbidden) <==> KnownEmulator(p.compatibility) && !member)
            && (r.outcome == Denied(Conflict) <==>
                  KnownEmulator(p.compatibility) && member && !InActiveMatch(t, now, user, id))
            && r.outcome in {Done, Denied(BadRequest), Denied(Forbidden), Denied(Conflict)}
            && (r.outcome == Done ==>
                  var before, after := t.rooms[id], r.tables.rooms[id];
                  && SameTablesButRooms(t, r.tables) && OtherRoomsStay(t, r.tables, id)
                  && after == before.(preflights := after.preflights, barrier := None)
                  && after.preflights.Keys == before.preflights.Keys + {user}
                  && after.preflights[user] == p.(ready := false)
                  && forall u :: u in before.preflights && u != user ==> after.preflights[u] == before.preflights[u])
  {
    EmulatorIsKnown(p.compatibility);
    hide ValidPreflightCompatibility, KnownEmulator;
  }

  lemma EmulatorIsKnown(c: Reports.Compatibility)
    ensures ValidPreflightCompatibility(c) <==> KnownEmulator(c)
  {
    HashIs(c.executableSha256);
    HashIs(c.coreSha256);
    HashIs(c.contentSha256);
    hide Reports.LowerHexOfLength, IsHash, IsBlank;
  }

  lemma HashIs(text: string)
    ensures Reports.LowerHexOfLength(text, 64) <==> IsHash(text)
  {
  }

  /** Two players with one setup, free ports, controllers and the slots 1 and 2. */
  predicate Matched(preflights: map<UserId, Preflight>, a: UserId, b: UserId) {
    && a != b && preflights.Keys == {a, b}
    && preflights[a].compatibility == preflights[b].compatibility
    && preflights[a].portAvailable && preflights[b].portAvailable
    && preflights[a].controllerConnected && preflights[b].controllerConnected
    && {preflights[a].playerSlot, preflights[b].playerSlot} == {1, 2}
  }

  lemma PreflightsMatchExactlyWhen(preflights: map<UserId, Preflight>)
    ensures PreflightsMatch(preflights) <==> exists a, b :: Matched(preflights, a, b)
  {
    if PreflightsMatch(preflights) {
      var a, b := TwoUsers(preflights.Keys);
      SlotsOfTwo(preflights, a, b);
      assert Matched(preflights, a, b);
    }
    if a, b :| Matched(preflights, a, b) {
      SlotsOfTwo(preflights, a, b);
      assert |preflights.Keys| == 2;
    }
  }

  lemma TwoUsers(users: set<UserId>) returns (a: UserId, b: UserId)
    requires |users| == 2
    ensures a != b && users == {a, b}
  {
    a :| a in users;
    assert |users - {a}| == 1;
    b :| b in users - {a};
    assert |users - {a} - {b}| == 0;
  }

  lemma SlotsOfTwo(preflights: map<UserId, Preflight>, a: UserId, b: UserId)
    requires preflights.Keys == {a, b}
    ensures (set u | u in preflights :: preflights[u].playerSlot) == {preflights[a].playerSlot, preflights[b].playerSlot}
  {
  }

  /** Both have said they are ready. */
  predicate BothReady(preflights: map<UserId, Preflight>) {
    |set u | u in preflights && preflights[u].ready| == 2
  }

  /** A ready call needs matching preflights; with both ready it opens the barrier in five seconds unless one is ahead. */
  lemma DeclaringReady(t: Tables, now: Time, user: UserId, id: RoomId)
    ensures var r := ReadyToLaunch(t, now, user, id);
            var member := id in t.rooms && user in t.rooms[id].members;
            && (r.outcome == Denied(Forbidden) <==> !member)
            && (r.outcome == Done <==> InActiveMatch(t, now, user, id) && PreflightsMatch(t.rooms[id].preflights))
            && (r.outcome == Denied(Conflict) <==> member && r.outcome != Done)
            && (r.outcome == Done ==>
                  var before, after := t.rooms[id], r.tables.rooms[id];
                  && SameTablesButRooms(t, r.tables) && OtherRoomsStay(t, r.tables, id)
                  && after == before.(preflights := after.preflights, barrier := after.barrier)
                  && after.preflights.Keys == before.preflights.Keys
                  && (forall u :: u in before.preflights ==>
                        after.preflights[u] == before.preflights[u].(ready := before.preflights[u].ready || u == user))
                  && after.barrier == (if BothReady(after.preflights) && !(before.barrier.Some? && now < before.barrier.value)
                                       then Some(now + 5) else before.barrier))
  {
    if ReadyToLaunch(t, now, user, id).outcome == Done {
      var after := ReadyToLaunch(t, now, user, id).tables.rooms[id];
      assert (set u | u in after.preflights && after.preflights[u].ready) == ReadyUsers(after.preflights);
    }
  }

  /** A grant for ninety seconds, to a member of a connecting room of more than one, in campaign mode past the barrier. */
  lemma IssuingAGrant(t: Tables, now: Time, user: UserId, id: RoomId, endpointsUsable: bool, campaign: bool, token: Token)
    ensures var r := CreateLaunchGrant(t, now, user, id, endpointsUsable, campaign, token);
            && (r.outcome == Denied(BadRequest) <==> !endpointsUsable)
            && (r.outcome == Denied(NotFound) <==> endpointsUsable && id !in t.rooms)
            && (endpointsUsable && id in t.rooms ==>
                  var room := t.rooms[id];
                  var open := room.state == Connecting
                              && (campaign ==> room.barrier.Some? && room.barrier.value <= now && BothReady(room.preflights));
                  && (r.outcome == Denied(Conflict) <==> !open)
                  && (r.outcome == Denied(Forbidden) <==> open && (user !in room.members || room.members - {user} == {}))
                  && (r.outcome == Done <==>
                        open && user in room.members && room.members - {user} != {} && token !in t.grants)
                  && (r.outcome == Done ==>
                        && r.tables == t.(rooms := r.tables.rooms, grants := r.tables.grants)
                        && OtherRoomsStay(t, r.tables, id)
                        && r.tables.rooms[id] == room.(attempt := Attempt(room.attempt.state, Some(now + 120)))
                        && r.tables.grants == t.grants[token := Grant(id, user, now + 90, false)]))
  {
    if id in t.rooms {
      var room := t.rooms[id];
      assert (set u | u in room.preflights && room.preflights[u].ready) == ReadyUsers(room.preflights);
      assert room.members - {user} == {} && user in room.members ==> room.members == {user};
    }
  }

  // ---- processes -------------------------------------------------------------------------------------

  /** A consumed grant of the user for the room that has not expired. */
  predicate MayLaunch(t: Tables, now: Time, user: UserId, id: RoomId) {
    exists token :: token in t.grants && t.grants[token].room == id && t.grants[token].user == user
                    && t.grants[token].consumed && now < t.grants[token].expiresAt
  }

  /** A launch uses the user's grants up; a repeated one is harmless; the second process starts play for four hours. */
  lemma ConfirmingALaunch(t: Tables, now: Time, user: UserId, id: RoomId)
    ensures var r := ConfirmNativeLaunch(t, now, user, id);
            && (r.outcome == Denied(NotFound) <==> id !in t.rooms)
            && (id in t.rooms ==>
                  var before := t.rooms[id];
                  var open := before.state in {Connecting, Playing};
                  var again := user in before.participants;
                  && (r.outcome == Denied(Forbidden) <==> open && user !in before.members)
                  && (r.outcome == Done <==>
                        open && user in before.members
                        && (if again then before.participants[user] == Running else MayLaunch(t, now, user, id)))
                  && (r.outcome == Done && again ==> r.tables == t)
                  && (r.outcome == Done && !again ==>
                        var after := r.tables.rooms[id];
                        var starts := before.state == Connecting && |before.members| == 2 && |before.participants| == 1;
                        && r.tables == t.(rooms := r.tables.rooms, grants := r.tables.grants)
                        && OtherRoomsStay(t, r.tables, id) && SameParty(before, after)
                        && after.participants == before.participants[user := Running]
                        && after.state == (if starts then Playing else before.state)
                        && after.deadline == (if starts then Some(now + 14400) else before.deadline)
                        && (if starts then Judged(before.attempt, after.attempt, Active, Some(now + 14400))
                            else after.attempt == before.attempt)
                        && (forall token :: token in r.tables.grants <==>
                              token in t.grants && !(t.grants[token].room == id && t.grants[token].user == user))
                        && (forall token :: token in r.tables.grants ==> r.tables.grants[token] == t.grants[token])))
            && r.outcome in {Done, Denied(NotFound), Denied(Forbidden), Denied(Conflict)}
  {
    GrantsThatLaunch(t, now, user, id);
    hide HasLaunchGrant, MayLaunch;
  }

  lemma GrantsThatLaunch(t: Tables, now: Time, user: UserId, id: RoomId)
    ensures HasLaunchGrant(t, id, user, now) <==> MayLaunch(t, now, user, id)
  {
    if token :| token in t.grants && t.grants[token].room == id && t.grants[token].user == user
                && t.grants[token].consumed && now < t.grants[token].expiresAt
    {
      assert Authorizes(t.grants[token], id, user, now);
    }
    if token :| token in t.grants && Authorizes(t.grants[token], id, user, now) {
      assert t.grants[token].room == id && t.grants[token].user == user;
    }
  }

  /** Everyone who ran a process but the user has ended it. */
  predicate OthersEnded(room: Room, user: UserId) {
    forall u :: u in room.participants && u != user ==> room.participants[u] == Ended
  }

  /** An exit before play fails the attempt; the last exit in play, and no earlier one, makes it a success. */
  lemma ConfirmingAnExit(t: Tables, user: UserId, id: RoomId)
    ensures var r := ConfirmNativeExit(t, user, id);
            && (r.outcome == Denied(NotFound) <==> id !in t.rooms)
            && (r.outcome == Done <==>
                  id in t.rooms && t.rooms[id].state in {Connecting, Playing, Finished, Cancelled}
                  && user in t.rooms[id].participants)
            && r.outcome in {Done, Denied(NotFound), Denied(Conflict)}
            && (r.outcome == Done ==>
                  var before, after := t.rooms[id], r.tables.rooms[id];
                  && SameTablesButRooms(t, r.tables) && OtherRoomsStay(t, r.tables, id) && SameParty(before, after)
                  && after.participants == before.participants[user := Ended]
                  && (before.state == Connecting ==>
                        && after.state == Cancelled && after.deadline == None
                        && Judged(before.attempt, after.attempt, Failed, None))
                  && (before.state in {Finished, Cancelled} ==>
                        after.state == before.state && after.deadline == before.deadline && after.attempt == before.attempt)
                  && (before.state == Playing && |before.members| == 2 && before.participants.Keys == before.members ==>
                        if OthersEnded(before, user) then
                          && after.state == Finished && after.deadline == None
                          && Judged(before.attempt, after.attempt, Succeeded, None)
                        else
                          after.state == before.state && after.deadline == before.deadline
                          && after.attempt == before.attempt))
  {
    if id in t.rooms && user in t.rooms[id].participants {
      EndedAfterAnExit(t.rooms[id].participants, user);
      assert |t.rooms[id].participants| == |t.rooms[id].participants.Keys|;
    }
    hide EndedUsers;
  }

  lemma EndedAfterAnExit(participants: map<UserId, Participant>, user: UserId)
    requires user in participants
    ensures var ended := EndedUsers(participants[user := Ended]);
            |ended| == |participants| <==>
              forall u :: u in participants && u != user ==> participants[u] == Ended
  {
    var ended := EndedUsers(participants[user := Ended]);
    assert ended <= participants.Keys;
    if ended == participants.Keys {
      forall u | u in participants && u != user ensures participants[u] == Ended {
        assert u in ended;
      }
    } else {
      var u :| u in participants && u !in ended;
      assert participants.Keys == ended + (participants.Keys - ended);
      assert u in participants.Keys - ended;
    }
  }

  // ---- continuation receipts -------------------------------------------------------------------------

  /** Two finished, complete, agreeing reports from opposite sides, both playable and over one native route. */
  predicate Proven(reports: seq<Reports.MatchReport>, failureReports: nat) {
    && failureReports == 0 && |reports| == 2
    && var a, b := reports[0], reports[1];
       && Reports.Wellformed(a) && Reports.Wellformed(b) && Reports.Agree(a, b) && a.role != b.role
       && a.compatibility.Some? && b.compatibility.Some?
       && a.nativeRoute.Some? && b.nativeRoute == a.nativeRoute
  }

  lemma EvidenceVerifiesExactlyWhen(reports: seq<Reports.MatchReport>, failureReports: nat)
    ensures EvidenceVerifies(reports, failureReports) <==> Proven(reports, failureReports)
  {
    if |reports| == 2 {
      Reports.VerificationIsSymmetric(reports[0], reports[1]);
      hide Reports.VerifyMatchReports, Reports.Wellformed, Reports.Agree;
    }
  }

  /** A new receipt takes a finished match of the player's, proven evidence without any failure, and no receipt before. */
  lemma IssuingAReceipt(t: Tables, now: Time, user: UserId, source: RoomId, key: Key, reports: seq<Reports.MatchReport>,
                        failureReports: nat, id: RoomId, code: Code)
    ensures var r := CreateMatchReceipt(t, now, user, source, key, reports, failureReports, id, code);
            var earned := source in t.rooms && user in t.rooms[source].members && t.rooms[source].state == Finished
                          && Proven(reports, failureReports) && (source, user) !in t.receipts;
            && ((user, key) in t.results ==> r == Response(t, Done))
            && ((user, key) !in t.results ==>
                  && (r.outcome == Denied(Conflict) <==> !earned)
                  && (r.outcome == Done <==> earned && id !in t.rooms && code !in t.invites)
                  && (r.outcome != Done ==> r.tables == t)
                  && (r.outcome == Done ==>
                        var game := t.rooms[source].game;
                        && r.tables.users == t.users && r.tables.games == t.games
                        && r.tables.challenges == t.challenges && r.tables.grants == t.grants
                        && id in r.tables.rooms && Opened(r.tables.rooms[id], user, game, Waiting, now + 86400)
                        && r.tables.rooms == DisposeWaiting(t.rooms, user, game, None, LeaveAttempt)[id := r.tables.rooms[id]]
                        && r.tables.invites == t.invites[code := Invite(id, now + 900, false)]
                        && r.tables.receipts == t.receipts + {(source, user)}
                        && r.tables.results == t.results + {(user, key)}))
  {
    EvidenceVerifiesExactlyWhen(reports, failureReports);
    hide EvidenceVerifies, Proven, DisposeWaiting;
  }
}
