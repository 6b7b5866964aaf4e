/**
 How a match attempt gets its verdict: which step of a run gave it, and what the room looks like
 ever after.
 */
module RoomVerdicts {
  import opened Text
  import opened RoomStates
  import opened RoomTables
  import opened RoomInvariants
  import opened RoomLinks
  import opened RoomRuns
  import opened RoomHistory
  import opened RoomContracts

  // ---- one step --------------------------------------------------------------------------------------

  predicate GivesUpRooms(op: Op) {
    op.OpCreateChallenge? || op.OpAcceptChallenge? || op.OpJoinInvite? || op.OpCancelRoom? || op.OpDeclineRoom?
    || op.OpResolveChallenge?
  }

  /** The step on tables `t` that gives an open attempt this verdict. */
  predicate Causes(t: Tables, now: Time, op: Op, id: RoomId, verdict: AttemptState) {
    match verdict
    case Active => false
    case Succeeded => PlayEnds(t, op, id)
    case Failed => ExitBeforePlay(t, op, id)
    case Expired => TakenOverdue(t, now, op, id)
    case AttemptCancelled => GivesUpRooms(op)
  }

  /** A process of a room that still connects is reported as ended. */
  predicate ExitBeforePlay(t: Tables, op: Op, id: RoomId) {
    op.OpExit? && op.id == id && id in t.rooms && t.rooms[id].state == Connecting && op.user in t.rooms[id].participants
  }

  /** The last running process of a room in play is reported as ended. */
  predicate PlayEnds(t: Tables, op: Op, id: RoomId) {
    && op.OpExit? && op.id == id && id in t.rooms && t.rooms[id].state == Playing && op.user in t.rooms[id].participants
    && OthersEnded(t.rooms[id], op.user)
  }

  /** A pass of the reconciler takes the room, whose deadline has come. */
  predicate TakenOverdue(t: Tables, now: Time, op: Op, id: RoomId) {
    op.OpReconcile? && IsBatch(t, now, op.rooms, op.expired) && id in op.rooms
  }

  /** The verdict stands, or this step gave it. */
  predicate Accounted(t: Tables, now: Time, op: Op, after: map<RoomId, Room>, id: RoomId) {
    id in t.rooms && id in after && after[id].attempt.state != t.rooms[id].attempt.state ==>
      Causes(t, now, op, id, after[id].attempt.state)
  }

  predicate KeepsVerdicts(before: map<RoomId, Room>, after: map<RoomId, Room>, exceptTo: AttemptState) {
    forall id :: id in before && id in after ==>
      after[id].attempt.state == before[id].attempt.state || after[id].attempt.state == exceptTo
  }

  lemma DisposalsCancel(rooms: map<RoomId, Room>, host: UserId, game: string, keep: Option<RoomId>, how: Disposal)
    ensures KeepsVerdicts(rooms, DisposeWaiting(rooms, host, game, keep, how), AttemptCancelled)
    ensures how == LeaveAttempt ==> KeepsVerdicts(rooms, DisposeWaiting(rooms, host, game, keep, how), Active)
  {
    DisposalsAre(rooms, host, game, keep, how);
    hide DisposeWaiting;
  }

  lemma OpeningsAreAccounted(t: Tables, now: Time, op: Op, id: RoomId)
    requires Opens(op)
    ensures Accounted(t, now, op, Apply(t, now, op).tables.rooms, id)
  {
    hide CreateRoom, CreateChallenge, CreateMatchReceipt, DisposeWaiting;
    RefusalsChangeNothing(t, now, op);
    match op {
      case OpCreateRoom(user, game, maxPlayers, added) =>
        CreatingARoom(t, now, user, game, maxPlayers, added);
      case OpCreateChallenge(user, challenged, game, added, cid) =>
        ChallengingAPlayer(t, now, user, challenged, game, added, cid);
        DisposalsCancel(t.rooms, user, game, None, KeepDeadlines);
      case OpReceipt(user, source, key, reports, failures, added, code) =>
        IssuingAReceipt(t, now, user, source, key, reports, failures, added, code);
        if source in t.rooms {
          DisposalsAre(t.rooms, user, t.rooms[source].game, None, LeaveAttempt);
        }
    }
  }

  lemma JoinsAreAccounted(t: Tables, now: Time, op: Op, id: RoomId)
    requires op.OpAcceptRoom? || op.OpAcceptChallenge? || op.OpJoinInvite?
    ensures Accounted(t, now, op, Apply(t, now, op).tables.rooms, id)
  {
    hide AcceptRoom, AcceptChallenge, JoinInvite, DisposeWaiting;
    RefusalsChangeNothing(t, now, op);
    match op {
      case OpAcceptRoom(user, room) =>
        AcceptingARoom(t, now, user, room);
      case OpAcceptChallenge(user, cid) =>
        AcceptingAChallenge(t, now, user, cid);
        if cid in t.challenges && t.challenges[cid].room in t.rooms {
          DisposalsCancel(t.rooms, user, t.rooms[t.challenges[cid].room].game, None, KeepDeadlines);
        }
      case OpJoinInvite(user, code) =>
        RedeemingAnInvite(t, now, user, code);
        if code in t.invites && t.invites[code].room in t.rooms {
          var room := t.invites[code].room;
          DisposalsCancel(t.rooms, user, t.rooms[room].game, Some(room), ClearDeadlines);
        }
    }
  }

  lemma EndingsAreAccounted(t: Tables, now: Time, op: Op, id: RoomId)
    requires RoomsOk(t.rooms)
    requires op.OpCancelRoom? || op.OpDeclineRoom? || op.OpResolveChallenge? || op.OpExit? || op.OpReconcile?
    ensures Accounted(t, now, op, Apply(t, now, op).tables.rooms, id)
  {
    hide ChangeRoomState, ResolveChallenge, ConfirmNativeExit, ReconcileExpired, IsBatch, RoomsOk;
    RefusalsChangeNothing(t, now, op);
    match op {
      case OpCancelRoom(user, room) => LeavingARoom(t, user, room, Cancel);
      case OpDeclineRoom(user, room) => LeavingARoom(t, user, room, Decline);
      case OpResolveChallenge(user, cid, cancel) => ResolvingAChallenge(t, now, user, cid, cancel);
      case OpExit(user, room) =>
        ConfirmingAnExit(t, user, room);
        if room in t.rooms {
          assert RoomOk(t.rooms[room]) by { RoomIsOk(t.rooms, room); }
        }
      case OpReconcile(rooms, challenges) => ReconcilingKeepsOthers(t, rooms, challenges);
    }
  }

  lemma RoomIsOk(rooms: map<RoomId, Room>, id: RoomId)
    requires RoomsOk(rooms) && id in rooms
    ensures RoomOk(rooms[id])
  {
  }

  lemma ReconcilingKeepsOthers(t: Tables, rooms: set<RoomId>, challenges: set<ChallengeId>)
    ensures forall id :: id in t.rooms ==>
      && id in ReconcileExpired(t, rooms, challenges).rooms
      && var before, after := t.rooms[id], ReconcileExpired(t, rooms, challenges).rooms[id];
         if id in rooms then Judged(before.attempt, after.attempt, Expired, None) else after == before
  {
  }

  lemma PreparationsAreAccounted(t: Tables, now: Time, op: Op, id: RoomId)
    requires op.OpSubmitPreflight? || op.OpReady? || op.OpCreateGrant? || op.OpLaunch? || op.OpCreateInvite?
             || op.OpConsumeGrant?
    ensures Accounted(t, now, op, Apply(t, now, op).tables.rooms, id)
  {
    hide SubmitPreflight, ReadyToLaunch, CreateLaunchGrant, ConfirmNativeLaunch;
    RefusalsChangeNothing(t, now, op);
    match op {
      case OpSubmitPreflight(user, room, preflight) => SubmittingAPreflight(t, now, user, room, preflight);
      case OpReady(user, room) => DeclaringReady(t, now, user, room);
      case OpCreateGrant(user, room, usable, campaign, token) => IssuingAGrant(t, now, user, room, usable, campaign, token);
      case OpLaunch(user, room) => ConfirmingALaunch(t, now, user, room);
      case OpCreateInvite(_, _, _) =>
      case OpConsumeGrant(_, _) =>
    }
  }

  /** Every verdict a step gives is one that this step may give. */
  lemma VerdictsAreAccounted(t: Tables, now: Time, op: Op, id: RoomId)
    requires RoomsOk(t.rooms)
    ensures Accounted(t, now, op, Apply(t, now, op).tables.rooms, id)
  {
    hide Apply, Accounted;
    if Opens(op) {
      OpeningsAreAccounted(t, now, op, id);
    } else if op.OpAcceptRoom? || op.OpAcceptChallenge? || op.OpJoinInvite? {
      JoinsAreAccounted(t, now, op, id);
    } else if op.OpCancelRoom? || op.OpDeclineRoom? || op.OpResolveChallenge? || op.OpExit? || op.OpReconcile? {
      EndingsAreAccounted(t, now, op, id);
    } else {
      PreparationsAreAccounted(t, now, op, id);
    }
  }

  // ---- whole runs ------------------------------------------------------------------------------------

  lemma NewRoomsAreUndecided(t: Tables, now: Time, op: Op, id: RoomId)
    requires id !in t.rooms && id in Apply(t, now, op).tables.rooms
    ensures Apply(t, now, op).tables.rooms[id].attempt.state == Active
  {
    if Opens(op) {
      hide CreateRoom, CreateChallenge, CreateMatchReceipt, DisposeWaiting;
      RefusalsChangeNothing(t, now, op);
      match op {
        case OpCreateRoom(user, game, maxPlayers, added) => CreatingARoom(t, now, user, game, maxPlayers, added);
        case OpCreateChallenge(user, challenged, game, added, cid) =>
          ChallengingAPlayer(t, now, user, challenged, game, added, cid);
          DisposalsAre(t.rooms, user, game, None, KeepDeadlines);
        case OpReceipt(user, source, key, reports, failures, added, code) =>
          IssuingAReceipt(t, now, user, source, key, reports, failures, added, code);
          if source in t.rooms {
            DisposalsAre(t.rooms, user, t.rooms[source].game, None, LeaveAttempt);
          }
      }
    } else {
      hide Apply;
      OthersOpenNothing(t, now, op);
    }
  }

  /** Step `i` of the run gave the room's attempt this verdict. */
  predicate Gave(t: Tables, run: seq<Commit>, i: nat, id: RoomId, verdict: AttemptState) {
    && i < |run| && id in At(t, run[..i]).rooms && At(t, run[..i]).rooms[id].attempt.state == Active
    && Causes(At(t, run[..i]), run[i].now, run[i].op, id, verdict)
  }

  /** Every verdict of a reachable state was given by one step of the run, to an attempt still open. */
  lemma {:induction false} VerdictsHaveCauses(users: set<UserId>, games: set<string>, run: seq<Commit>, id: RoomId)
    returns (i: nat)
    requires var rooms := At(Empty(users, games), run).rooms;
             id in rooms && rooms[id].attempt.state != Active
    ensures Gave(Empty(users, games), run, i, id, At(Empty(users, games), run).rooms[id].attempt.state)
    decreases |run|
  {
    hide Inv, Apply, Causes, RoomsEvolve;
    var t, n := Empty(users, games), |run| - 1;
    var shorter, last := run[..n], run[n];
    var before, after := At(t, shorter), At(t, run);
    RunsKeepInv(users, games, shorter);
    InvRooms(before);
    if id !in before.rooms {
      NewRoomsAreUndecided(before, last.now, last.op, id);
      assert false;
    }
    VerdictsAreAccounted(before, last.now, last.op, id);
    StepKeepsInv(before, last.now, last.op);
    VerdictsStandOneStep(before.rooms, after.rooms, id);
    if before.rooms[id].attempt.state != Active {
      i := VerdictsHaveCauses(users, games, shorter, id);
      assert shorter[..i] == run[..i];
    } else {
      i := n;
    }
  }

  lemma InvRooms(t: Tables)
    requires Inv(t)
    ensures RoomsOk(t.rooms)
  {
  }

  lemma VerdictsStandOneStep(before: map<RoomId, Room>, after: map<RoomId, Room>, id: RoomId)
    requires RoomsEvolve(before, after) && id in before
    ensures id in after && (before[id].attempt.state != Active ==> after[id].attempt.state == before[id].attempt.state)
  {
  }

  predicate Decides(t: Tables, now: Time, op: Op, id: RoomId, verdict: AttemptState) {
    match verdict
    case Failed => ExitBeforePlay(t, op, id)
    case Succeeded => PlayEnds(t, op, id)
    case Expired => TakenOverdue(t, now, op, id)
    case _ => false
  }

  /** Exits before play, last exits in play and passes over a room decide its attempt then and there. */
  lemma DecisionsAreVerdicts(t: Tables, now: Time, op: Op, id: RoomId, verdict: AttemptState)
    requires RoomsOk(t.rooms) && Decides(t, now, op, id, verdict)
    ensures id in Apply(t, now, op).tables.rooms && Apply(t, now, op).tables.rooms[id].attempt.state == verdict
  {
    hide ConfirmNativeExit, ReconcileExpired, RoomsOk;
    if verdict == Expired {
      ReconcilingKeepsOthers(t, op.rooms, op.expired);
      RoomIsOk(t.rooms, id);
    } else {
      RoomIsOk(t.rooms, id);
      ConfirmingAnExit(t, op.user, id);
    }
  }

  /**
   In every run: an attempt has failed exactly when a process of its room was reported as ended before
   play, has succeeded exactly when the last one was in play, and has expired exactly when a pass took
   its room overdue.
   */
  lemma VerdictsExactlyWhen(users: set<UserId>, games: set<string>, run: seq<Commit>, id: RoomId, verdict: AttemptState)
    requires id in At(Empty(users, games), run).rooms && verdict in {Failed, Succeeded, Expired}
    ensures var t := Empty(users, games);
            At(t, run).rooms[id].attempt.state == verdict <==>
              exists i :: 0 <= i < |run| && Decides(At(t, run[..i]), run[i].now, run[i].op, id, verdict)
  {
    hide Inv, Apply, ExitBeforePlay, PlayEnds, TakenOverdue, RoomsEvolve, At;
    var t := Empty(users, games);
    if At(t, run).rooms[id].attempt.state == verdict {
      var i := VerdictsHaveCauses(users, games, run, id);
      assert Decides(At(t, run[..i]), run[i].now, run[i].op, id, verdict);
    }
    if i :| 0 <= i < |run| && Decides(At(t, run[..i]), run[i].now, run[i].op, id, verdict) {
      RunsKeepInv(users, games, run[..i]);
      InvRooms(At(t, run[..i]));
      DecisionsAreVerdicts(At(t, run[..i]), run[i].now, run[i].op, id, verdict);
      AtExtends(t, run, i);
      NothingIsUndone(users, games, run, i + 1);
      VerdictsStandOneStep(At(t, run[..i + 1]).rooms, At(t, run).rooms, id);
    }
  }

  // ---- what a success looks like ever after --------------------------------------------------------------

  /** Two players, both of whom ran the match and have ended it. */
  predicate PlayedOut(room: Room) {
    && room.state in {Finished, Cancelled} && |room.members| == 2 && room.participants.Keys == room.members
    && forall u :: u in room.participants ==> room.participants[u] == Ended
  }

  lemma PlayingToTheEnd(t: Tables, op: Op, id: RoomId)
    requires RoomsOk(t.rooms) && PlayEnds(t, op, id)
    ensures var rooms := ConfirmNativeExit(t, op.user, id).tables.rooms; id in rooms && PlayedOut(rooms[id])
  {
    hide ConfirmNativeExit, RoomsOk;
    RoomIsOk(t.rooms, id);
    ConfirmingAnExit(t, op.user, id);
  }

  lemma PlayedOutStays(before: map<RoomId, Room>, after: map<RoomId, Room>, id: RoomId)
    requires RoomsEvolve(before, after) && RoomsOk(after) && id in before && before[id].attempt.state == Succeeded
    requires PlayedOut(before[id])
    ensures id in after && PlayedOut(after[id])
  {
    assert RoomOk(after[id]) && Evolves(before[id], after[id]);
    CardinalityOfAtMost(before[id].members, after[id].members);
  }

  /** In every reachable state a success means that two players played the match to its end. */
  lemma SuccessesWerePlayedOut(users: set<UserId>, games: set<string>, run: seq<Commit>, id: RoomId)
    requires var rooms := At(Empty(users, games), run).rooms;
             id in rooms && rooms[id].attempt.state == Succeeded
    ensures PlayedOut(At(Empty(users, games), run).rooms[id])
  {
    hide Inv, Apply, At, RoomsOk, RoomsEvolve, PlayedOut;
    var t := Empty(users, games);
    var i := VerdictsHaveCauses(users, games, run, id);
    RunsKeepInv(users, games, run[..i]);
    InvRooms(At(t, run[..i]));
    PlayingToTheEnd(At(t, run[..i]), run[i].op, id);
    DecisionsAreVerdicts(At(t, run[..i]), run[i].now, run[i].op, id, Succeeded);
    AtExtends(t, run, i);
    ExitsApply(At(t, run[..i]), run[i].now, run[i].op);
    NothingIsUndone(users, games, run, i + 1);
    RunsKeepInv(users, games, run);
    InvRooms(At(t, run));
    PlayedOutStays(At(t, run[..i + 1]).rooms, At(t, run).rooms, id);
  }

  lemma ExitsApply(t: Tables, now: Time, op: Op)
    ensures op.OpExit? ==> Apply(t, now, op) == ConfirmNativeExit(t, op.user, op.id)
  {
    hide ConfirmNativeExit;
  }
}
