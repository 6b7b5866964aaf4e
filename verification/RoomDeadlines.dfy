/**
 How long rooms and invites live: every live room's deadline lies within its stage's allowance of
 the latest transaction, so an idle server empties.
 */
module RoomDeadlines {
  import opened Text
  import opened RoomStates
  import opened RoomTables
  import opened RoomInvariants
  import opened RoomLinks
  import opened RoomRuns
  import opened RoomHistory
  import opened RoomReconciler

  const MAX_ALLOWANCE: Time := 24 * HOUR

  /** The longest a room may stay in a live state before the reconciler takes it. */
  function Allowance(state: RoomState): Time {
    match state
    case Challenging => 5 * MINUTE
    case Connecting => 2 * MINUTE
    case Playing => 4 * HOUR
    case _ => MAX_ALLOWANCE
  }

  predicate DeadlineOk(room: Room, now: Time) {
    Live(room.state) ==> room.deadline.Some? && room.deadline.value <= now + Allowance(room.state)
  }

  /** A transaction leaves a room's stage and deadline, or gives it one within its new stage's allowance. */
  predicate KeptOrRenewed(before: map<RoomId, Room>, after: map<RoomId, Room>, id: RoomId, now: Time)
    requires id in after
  {
    || (id in before && after[id].state == before[id].state && after[id].deadline == before[id].deadline)
    || DeadlineOk(after[id], now)
  }

  predicate AllKeptOrRenewed(before: map<RoomId, Room>, after: map<RoomId, Room>, now: Time) {
    forall id :: id in after ==> KeptOrRenewed(before, after, id, now)
  }

  lemma PutRenews(rooms: map<RoomId, Room>, id: RoomId, room: Room, now: Time)
    requires DeadlineOk(room, now) || (id in rooms && room.state == rooms[id].state && room.deadline == rooms[id].deadline)
    ensures AllKeptOrRenewed(rooms, rooms[id := room], now)
  {
  }

  lemma DisposePutRenews(rooms: map<RoomId, Room>, host: UserId, game: string, keep: Option<RoomId>, how: Disposal,
                         id: RoomId, room: Room, now: Time)
    requires DeadlineOk(room, now)
    ensures AllKeptOrRenewed(rooms, DisposeWaiting(rooms, host, game, keep, how)[id := room], now)
  {
    hide IsWaiting, Closed;
  }

  lemma OpeningRenews(t: Tables, now: Time, op: Op)
    requires Opens(op)
    ensures AllKeptOrRenewed(t.rooms, Apply(t, now, op).tables.rooms, now)
  {
    hide AllKeptOrRenewed, DisposeWaiting, EvidenceVerifies, RoomIsWaitingFor, HasPending, RecentChallenges;
    var after := Apply(t, now, op).tables.rooms;
    if after == t.rooms {
      NoRoomsTouched(t.rooms, now);
    } else if op.OpCreateRoom? {
      PutRenews(t.rooms, op.id, after[op.id], now);
    } else if op.OpCreateChallenge? {
      DisposePutRenews(t.rooms, op.user, op.game, None, KeepDeadlines, op.id, after[op.id], now);
    } else {
      DisposePutRenews(t.rooms, op.user, t.rooms[op.source].game, None, LeaveAttempt, op.id, after[op.id], now);
    }
  }

  lemma NoRoomsTouched(rooms: map<RoomId, Room>, now: Time)
    ensures AllKeptOrRenewed(rooms, rooms, now)
  {
  }

  lemma AcceptingRenews(t: Tables, now: Time, user: UserId, cid: ChallengeId)
    ensures AllKeptOrRenewed(t.rooms, AcceptChallenge(t, now, user, cid).tables.rooms, now)
  {
    hide AllKeptOrRenewed, DisposeWaiting;
    var after := AcceptChallenge(t, now, user, cid).tables.rooms;
    if after == t.rooms {
      NoRoomsTouched(t.rooms, now);
    } else {
      var id := t.challenges[cid].room;
      DisposePutRenews(t.rooms, user, t.rooms[id].game, None, KeepDeadlines, id, after[id], now);
    }
  }

  /** A join through an invite touches no room, or puts the guest into the invite's room after disposing of the guest's own. */
  lemma JoinInviteRooms(t: Tables, now: Time, user: UserId, code: Code)
    ensures var after := JoinInvite(t, now, user, code).tables.rooms;
            after != t.rooms ==>
              && code in t.invites && t.invites[code].room in t.rooms
              && var id := t.invites[code].room;
                 var room := t.rooms[id];
                 after == DisposeWaiting(t.rooms, user, room.game, Some(id), ClearDeadlines)
                          [id := Joined(room, user, now).(attempt := Closed(room.attempt, Active, Some(now + 2 * MINUTE)))]
  {
    hide DisposeWaiting, Joined, Closed;
  }

  lemma JoiningRenews(t: Tables, now: Time, user: UserId, code: Code)
    ensures AllKeptOrRenewed(t.rooms, JoinInvite(t, now, user, code).tables.rooms, now)
  {
    hide AllKeptOrRenewed, DisposeWaiting, Closed, JoinInvite;
    var after := JoinInvite(t, now, user, code).tables.rooms;
    JoinInviteRooms(t, now, user, code);
    if after == t.rooms {
      NoRoomsTouched(t.rooms, now);
    } else {
      var id := t.invites[code].room;
      DisposePutRenews(t.rooms, user, t.rooms[id].game, Some(id), ClearDeadlines, id, after[id], now);
    }
  }

  predicate Timely(before: Room, after: Room, now: Time) {
    (after.state == before.state && after.deadline == before.deadline) || DeadlineOk(after, now)
  }

  lemma StagesAreTimely(room: Room, user: UserId, now: Time)
    ensures Timely(room, Joined(room, user, now), now)
    ensures Timely(room, Launched(room, user, now), now)
    ensures Timely(room, Exited(room, user), now)
  {
    hide EndedUsers, Closed;
  }

  lemma StagesRenew(t: Tables, now: Time, op: Op)
    requires op.OpAcceptRoom? || op.OpLaunch? || op.OpExit?
    ensures AllKeptOrRenewed(t.rooms, Apply(t, now, op).tables.rooms, now)
  {
    hide AllKeptOrRenewed, GrantsWithout, HasLaunchGrant, Joined, Launched, Exited, DeadlineOk, Transition;
    var after := Apply(t, now, op).tables.rooms;
    if after == t.rooms {
      NoRoomsTouched(t.rooms, now);
    } else {
      StagesAreTimely(t.rooms[op.id], op.user, now);
      PutRenews(t.rooms, op.id, after[op.id], now);
    }
  }

  lemma SetupRenews(t: Tables, now: Time, op: Op)
    requires op.OpCancelRoom? || op.OpDeclineRoom? || op.OpSubmitPreflight? || op.OpReady? || op.OpCreateGrant?
    ensures AllKeptOrRenewed(t.rooms, Apply(t, now, op).tables.rooms, now)
  {
    hide AllKeptOrRenewed, PreflightsMatch, WithChallengesOf, ReadyUsers, AllEnded, ValidPreflightCompatibility,
         BarrierPassed, WithReady, Closed;
    var after := Apply(t, now, op).tables.rooms;
    if after == t.rooms {
      NoRoomsTouched(t.rooms, now);
    } else {
      PutRenews(t.rooms, op.id, after[op.id], now);
    }
  }

  lemma CancellingRenews(t: Tables, now: Time, op: Op)
    requires op.OpResolveChallenge? || op.OpReconcile?
    ensures AllKeptOrRenewed(t.rooms, Apply(t, now, op).tables.rooms, now)
  {
    hide AllEnded, Closed, WithChallengesOf, IsBatch;
  }

  lemma StepsRenew(t: Tables, now: Time, op: Op)
    ensures AllKeptOrRenewed(t.rooms, Apply(t, now, op).tables.rooms, now)
  {
    hide Apply, AllKeptOrRenewed;
    if Opens(op) {
      OpeningRenews(t, now, op);
    } else if op.OpAcceptChallenge? {
      ApplyJoins(t, now, op);
      AcceptingRenews(t, now, op.user, op.cid);
    } else if op.OpJoinInvite? {
      ApplyJoins(t, now, op);
      JoiningRenews(t, now, op.user, op.code);
    } else if op.OpAcceptRoom? || op.OpLaunch? || op.OpExit? {
      StagesRenew(t, now, op);
    } else if op.OpResolveChallenge? || op.OpReconcile? {
      CancellingRenews(t, now, op);
    } else if op.OpCreateInvite? || op.OpConsumeGrant? {
      TheseKeepRooms(t, now, op);
      NoRoomsTouched(t.rooms, now);
    } else {
      SetupRenews(t, now, op);
    }
  }

  /** At every point of a run, no live room's deadline is further off than its stage allows. */
  lemma {:induction false} DeadlinesAreBounded(t: Tables, run: seq<Commit>, id: RoomId)
    requires t.rooms == map[] && ClockForward(run) && id in At(t, run).rooms
    ensures run != [] && DeadlineOk(At(t, run).rooms[id], run[|run| - 1].now)
  {
    hide Apply;
    var n := |run| - 1;
    var before, last := At(t, run[..n]), run[n];
    StepsRenew(before, last.now, last.op);
    assert KeptOrRenewed(before.rooms, At(t, run).rooms, id, last.now);
    if id in before.rooms {
      DeadlinesAreBounded(t, run[..n], id);
    }
  }

  /**
   No room stays live for ever: a day after the last transaction, enough passes of the reconciler
   leave no live room at all.
   */
  lemma IdleServersEmpty(users: set<UserId>, games: set<string>, run: seq<Commit>, now: Time, batches: seq<Batch>, id: RoomId)
    requires ClockForward(run) && (run != [] ==> run[|run| - 1].now + MAX_ALLOWANCE <= now)
    requires var t := At(Empty(users, games), run);
             FullPasses(t, now, batches) && |ExpiredRooms(t, now)| <= RECONCILE_BATCH_SIZE * |batches|
    requires id in Passes(At(Empty(users, games), run), batches).rooms
    ensures !Live(Passes(At(Empty(users, games), run), batches).rooms[id].state)
  {
    hide Apply, At, Passes, FullPasses, ExpiredRooms;
    var t := At(Empty(users, games), run);
    RunsKeepInv(users, games, run);
    PassesAre(t, now, batches);
    DeadlinesAreBounded(Empty(users, games), run, id);
    if Live(Passes(t, batches).rooms[id].state) {
      AfterwardsDeadlinesAreAhead(t, now, batches, id);
    }
  }

  // ---- invites -------------------------------------------------------------------------------------

  predicate Joins(t: Tables, run: seq<Commit>, i: nat, code: Code) {
    i < |run| && run[i].op.OpJoinInvite? && run[i].op.code == code && Succeeds(t, run, i)
  }

  lemma InvitesStayUsed(t: Tables, now: Time, op: Op, code: Code)
    requires code in t.invites && t.invites[code].consumed
    ensures code in Apply(t, now, op).tables.invites && Apply(t, now, op).tables.invites[code].consumed
  {
    hide Joined, DisposeWaiting, PreflightsMatch, Readied, Launched, Exited, AllEnded, Closed, WithChallengesOf,
         HasLaunchGrant, ValidPreflightCompatibility, BarrierPassed, IsBatch, Reconciled, EvidenceVerifies,
         RoomIsWaitingFor, NewRoom, RecentChallenges, HasPending, ExpireChallenges, GrantsWithout;
  }

  lemma JoiningUsesTheInvite(t: Tables, now: Time, op: Op)
    requires op.OpJoinInvite? && Apply(t, now, op).outcome == Done
    ensures op.code in t.invites && !t.invites[op.code].consumed && now < t.invites[op.code].expiresAt
    ensures op.code in Apply(t, now, op).tables.invites && Apply(t, now, op).tables.invites[op.code].consumed
  {
    hide DisposeWaiting;
  }

  lemma {:induction false} JoinedInvitesStayUsed(t: Tables, run: seq<Commit>, i: nat, n: nat, code: Code)
    requires Joins(t, run, i, code) && i < n <= |run|
    ensures code in At(t, run[..n]).invites && At(t, run[..n]).invites[code].consumed
    decreases n
  {
    hide Apply;
    AtExtends(t, run, n - 1);
    if i == n - 1 {
      JoiningUsesTheInvite(At(t, run[..i]), run[i].now, run[i].op);
    } else {
      JoinedInvitesStayUsed(t, run, i, n - 1, code);
      InvitesStayUsed(At(t, run[..n - 1]), run[n - 1].now, run[n - 1].op, code);
    }
  }

  /** An invite code admits one player, once. */
  lemma InvitesAdmitOnce(t: Tables, run: seq<Commit>, i: nat, j: nat, code: Code)
    requires Joins(t, run, i, code) && Joins(t, run, j, code)
    ensures i == j
  {
    hide Apply;
    JoiningUsesTheInvite(At(t, run[..i]), run[i].now, run[i].op);
    JoiningUsesTheInvite(At(t, run[..j]), run[j].now, run[j].op);
    if i < j {
      JoinedInvitesStayUsed(t, run, i, j, code);
    } else if j < i {
      JoinedInvitesStayUsed(t, run, j, i, code);
    }
  }

  /** What an invite is for: on the tables it leaves, any player but the host is let in until it expires. */
  lemma InvitesAdmitUntilTheyExpire(t: Tables, now: Time, host: UserId, id: RoomId, code: Code, later: Time, guest: UserId)
    requires Inv(t) && CreateInvite(t, now, host, id, code).outcome == Done
    ensures JoinInvite(CreateInvite(t, now, host, id, code).tables, later, guest, code).outcome
            == if now + 15 * MINUTE <= later then Denied(NotFound)
               else if guest == host then Denied(Forbidden)
               else Done
  {
    hide DisposeWaiting, WaitingOk, ChallengesOk, PairsOk, GrantsOk, InvitesOk;
    assert RoomOk(t.rooms[id]);
    assert t.rooms[id].members == {host};
  }
}
