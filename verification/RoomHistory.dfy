/**
 What a reachable state says about the past: who authorised each process, who set each barrier,
 and how many challenges a user may have opened.
 */
module RoomHistory {
  import opened Text
  import opened RoomStates
  import opened RoomTables
  import opened RoomInvariants
  import opened RoomLinks
  import opened RoomRuns
  import opened RoomContracts

  // ---- events of a run ----------------------------------------------------------------------------

  /** Step `i` of the run committed, and was not refused. */
  predicate Succeeds(t: Tables, run: seq<Commit>, i: nat)
    requires i < |run|
  {
    Apply(At(t, run[..i]), run[i].now, run[i].op).outcome == Done
  }

  predicate Issues(t: Tables, run: seq<Commit>, i: nat, token: Token, id: RoomId, user: UserId) {
    && i < |run| && run[i].op.OpCreateGrant? && Succeeds(t, run, i)
    && run[i].op.token == token && run[i].op.id == id && run[i].op.user == user
    && id in At(t, run[..i]).rooms && At(t, run[..i]).rooms[id].state == Connecting
  }

  predicate Consumes(t: Tables, run: seq<Commit>, i: nat, token: Token, user: UserId) {
    i < |run| && run[i].op == OpConsumeGrant(user, token) && Succeeds(t, run, i)
  }

  predicate Launches(t: Tables, run: seq<Commit>, i: nat, id: RoomId, user: UserId) {
    i < |run| && run[i].op == OpLaunch(user, id) && Succeeds(t, run, i)
  }

  predicate Readies(t: Tables, run: seq<Commit>, i: nat, id: RoomId) {
    i < |run| && run[i].op.OpReady? && run[i].op.id == id && Succeeds(t, run, i)
  }

  predicate Preflights(t: Tables, run: seq<Commit>, i: nat, id: RoomId) {
    i < |run| && run[i].op.OpSubmitPreflight? && run[i].op.id == id && Succeeds(t, run, i)
  }

  // ---- launch grants and native processes ---------------------------------------------------------

  lemma NewlyConsumed(t: Tables, now: Time, op: Op, token: Token)
    requires token in t.grants && !t.grants[token].consumed
    requires token in Apply(t, now, op).tables.grants && Apply(t, now, op).tables.grants[token].consumed
    ensures op == OpConsumeGrant(t.grants[token].user, token) && Apply(t, now, op).outcome == Done
  {
    hide Joined, DisposeWaiting, PreflightsMatch, Readied, Launched, Exited, AllEnded, Closed, WithChallengesOf,
         HasLaunchGrant, ValidPreflightCompatibility, BarrierPassed, IsBatch, Reconciled, EvidenceVerifies,
         RoomIsWaitingFor, NewRoom, RecentChallenges, HasPending, ExpireChallenges;
  }

  lemma GrantsAreIssued(t: Tables, now: Time, op: Op)
    requires op.OpCreateGrant? && op.token in Apply(t, now, op).tables.grants && op.token !in t.grants
    ensures Apply(t, now, op).outcome == Done && op.id in t.rooms && t.rooms[op.id].state == Connecting
  {
  }

  /** Every grant row was issued while its room was connecting; a consumed one was consumed after that. */
  lemma {:induction false} GrantsHaveHistory(t: Tables, run: seq<Commit>, token: Token) returns (i: nat, j: nat)
    requires t.grants == map[] && token in At(t, run).grants
    ensures var grant := At(t, run).grants[token];
            && Issues(t, run, i, token, grant.room, grant.user) && grant.expiresAt == run[i].now + 90
            && (grant.consumed ==> i < j && Consumes(t, run, j, token, grant.user))
  {
    hide Apply;
    var n := |run| - 1;
    var shorter, last := run[..n], run[n];
    var before := At(t, shorter);
    GrantsComeFrom(before, last.now, last.op, token);
    if token in before.grants {
      i, j := GrantsHaveHistory(t, shorter, token);
      assert shorter[..i] == run[..i];
      if !before.grants[token].consumed {
        if At(t, run).grants[token].consumed {
          NewlyConsumed(before, last.now, last.op, token);
          j := n;
        }
      } else {
        assert shorter[..j] == run[..j];
      }
    } else {
      GrantsAreIssued(before, last.now, last.op);
      i, j := n, 0;
    }
  }

  lemma LaunchesAddParticipants(t: Tables, now: Time, op: Op, id: RoomId, user: UserId)
    requires op.OpLaunch? || op.OpExit?
    requires id in Apply(t, now, op).tables.rooms && user in Apply(t, now, op).tables.rooms[id].participants
    ensures || (id in t.rooms && user in t.rooms[id].participants)
            || (op == OpLaunch(user, id) && Apply(t, now, op).outcome == Done && HasLaunchGrant(t, id, user, now))
  {
    hide GrantsWithout, HasLaunchGrant, Closed, EndedUsers;
  }

  /** Disposing of waiting rooms and then opening or joining one leaves processes and barriers as they were. */
  predicate OpensOrJoins(before: map<RoomId, Room>, after: map<RoomId, Room>) {
    forall id :: id in after ==>
      && after[id].participants == (if id in before then before[id].participants else map[])
      && after[id].barrier == (if id in before then before[id].barrier else None)
  }

  lemma DisposeKeepsPlayers(rooms: map<RoomId, Room>, host: UserId, game: string, keep: Option<RoomId>, how: Disposal)
    ensures OpensOrJoins(rooms, DisposeWaiting(rooms, host, game, keep, how))
  {
    hide IsWaiting, Closed;
  }

  lemma PutKeepsPlayers(before: map<RoomId, Room>, after: map<RoomId, Room>, id: RoomId, room: Room)
    requires OpensOrJoins(before, after)
    requires room.participants == (if id in before then before[id].participants else map[])
    requires room.barrier == (if id in before then before[id].barrier else None)
    ensures OpensOrJoins(before, after[id := room])
  {
  }

  lemma DisposePut(rooms: map<RoomId, Room>, host: UserId, game: string, keep: Option<RoomId>, how: Disposal,
                   id: RoomId, room: Room)
    requires room.participants == (if id in rooms then rooms[id].participants else map[])
    requires room.barrier == (if id in rooms then rooms[id].barrier else None)
    ensures OpensOrJoins(rooms, DisposeWaiting(rooms, host, game, keep, how)[id := room])
    ensures OpensOrJoins(rooms, rooms[id := room])
    ensures OpensOrJoins(rooms, rooms)
  {
    hide DisposeWaiting;
    DisposeKeepsPlayers(rooms, host, game, keep, how);
    assert OpensOrJoins(rooms, rooms);
    hide OpensOrJoins;
    PutKeepsPlayers(rooms, DisposeWaiting(rooms, host, game, keep, how), id, room);
    PutKeepsPlayers(rooms, rooms, id, room);
  }

  lemma OpeningKeepsMatches(t: Tables, now: Time, op: Op)
    requires Opens(op)
    ensures OpensOrJoins(t.rooms, Apply(t, now, op).tables.rooms)
  {
    hide DisposeWaiting, OpensOrJoins, EvidenceVerifies, RoomIsWaitingFor, RecentChallenges, HasPending, ExpireChallenges;
    var after := Apply(t, now, op).tables.rooms;
    if after == t.rooms {
      StayingKeepsMatches(t.rooms);
    } else {
      var game := if op.OpReceipt? then t.rooms[op.source].game else op.game;
      var how := if op.OpReceipt? then LeaveAttempt else KeepDeadlines;
      DisposePut(t.rooms, op.user, game, None, how, op.id, after[op.id]);
    }
  }

  lemma StayingKeepsMatches(rooms: map<RoomId, Room>)
    ensures OpensOrJoins(rooms, rooms)
  {
  }

  lemma JoiningKeepsMatches(t: Tables, now: Time, op: Op)
    requires op.OpAcceptChallenge? || op.OpJoinInvite?
    ensures OpensOrJoins(t.rooms, Apply(t, now, op).tables.rooms)
  {
    hide DisposeWaiting, OpensOrJoins;
    var after := Apply(t, now, op).tables.rooms;
    if after == t.rooms {
      StayingKeepsMatches(t.rooms);
    } else if op.OpAcceptChallenge? {
      var id := t.challenges[op.cid].room;
      DisposePut(t.rooms, op.user, t.rooms[id].game, None, KeepDeadlines, id, after[id]);
    } else {
      var id := t.invites[op.code].room;
      DisposePut(t.rooms, op.user, t.rooms[id].game, Some(id), ClearDeadlines, id, after[id]);
    }
  }

  lemma CancellingAddsNoParticipants(t: Tables, now: Time, op: Op, id: RoomId, user: UserId)
    requires op.OpReconcile? || op.OpCancelRoom? || op.OpDeclineRoom? || op.OpResolveChallenge?
    requires id in Apply(t, now, op).tables.rooms && user in Apply(t, now, op).tables.rooms[id].participants
    ensures id in t.rooms && user in t.rooms[id].participants
  {
    hide WithChallengesOf, IsBatch, Closed;
  }

  lemma SetupAddsNoParticipants(t: Tables, now: Time, op: Op, id: RoomId, user: UserId)
    requires op.OpSubmitPreflight? || op.OpReady? || op.OpCreateGrant? || op.OpAcceptRoom? || op.OpCreateInvite?
             || op.OpConsumeGrant?
    requires id in Apply(t, now, op).tables.rooms && user in Apply(t, now, op).tables.rooms[id].participants
    ensures id in t.rooms && user in t.rooms[id].participants
  {
    hide PreflightsMatch, BarrierPassed, ValidPreflightCompatibility, ReadyUsers, WithReady;
  }

  lemma ParticipantsComeFrom(t: Tables, now: Time, op: Op, id: RoomId, user: UserId)
    requires id in Apply(t, now, op).tables.rooms && user in Apply(t, now, op).tables.rooms[id].participants
    ensures || (id in t.rooms && user in t.rooms[id].participants)
            || (op == OpLaunch(user, id) && Apply(t, now, op).outcome == Done && HasLaunchGrant(t, id, user, now))
  {
    hide Apply, HasLaunchGrant;
    if op.OpLaunch? || op.OpExit? {
      LaunchesAddParticipants(t, now, op, id, user);
    } else if Opens(op) {
      OpeningKeepsMatches(t, now, op);
    } else if op.OpAcceptChallenge? || op.OpJoinInvite? {
      JoiningKeepsMatches(t, now, op);
    } else if op.OpReconcile? || op.OpCancelRoom? || op.OpDeclineRoom? || op.OpResolveChallenge? {
      CancellingAddsNoParticipants(t, now, op, id, user);
    } else {
      SetupAddsNoParticipants(t, now, op, id, user);
    }
  }

  /**
   Behind every process a match ran: a grant of the same user and room, issued while the room was
   connecting, then consumed, then used to launch within its ninety seconds.
   */
  lemma {:induction false} ParticipantsHaveHistory(t: Tables, run: seq<Commit>, id: RoomId, user: UserId)
    returns (token: Token, i: nat, j: nat, k: nat)
    requires t.grants == map[] && t.rooms == map[]
    requires id in At(t, run).rooms && user in At(t, run).rooms[id].participants
    ensures i < j < k && k < |run| && run[k].now < run[i].now + 90
    ensures Issues(t, run, i, token, id, user) && Consumes(t, run, j, token, user) && Launches(t, run, k, id, user)
  {
    hide Apply;
    var n := |run| - 1;
    var shorter, last := run[..n], run[n];
    var before := At(t, shorter);
    ParticipantsComeFrom(before, last.now, last.op, id, user);
    if id in before.rooms && user in before.rooms[id].participants {
      token, i, j, k := ParticipantsHaveHistory(t, shorter, id, user);
      assert shorter[..i] == run[..i] && shorter[..j] == run[..j] && shorter[..k] == run[..k];
    } else {
      token :| token in before.grants && Authorizes(before.grants[token], id, user, last.now);
      i, j := GrantsHaveHistory(t, shorter, token);
      assert shorter[..i] == run[..i] && shorter[..j] == run[..j];
      k := n;
    }
  }

  /** Tokens are drawn at random: no two issued grants share one. */
  predicate FreshTokens(t: Tables, run: seq<Commit>) {
    forall i, j ::
      (&& 0 <= i < j < |run| && run[i].op.OpCreateGrant? && run[j].op.OpCreateGrant?
       && Succeeds(t, run, i) && Succeeds(t, run, j)) ==> run[i].op.token != run[j].op.token
  }

  lemma ConsumingConsumes(t: Tables, now: Time, user: UserId, token: Token)
    requires Apply(t, now, OpConsumeGrant(user, token)).outcome == Done
    ensures token in t.grants && t.grants[token].user == user && !t.grants[token].consumed
    ensures var grants := Apply(t, now, OpConsumeGrant(user, token)).tables.grants;
            token in grants && grants[token].consumed
  {
  }

  /** A consumed token never becomes usable again. */
  lemma {:induction false} ConsumedStaysConsumed(t: Tables, run: seq<Commit>, token: Token, user: UserId, j: nat, n: nat)
    requires t.grants == map[] && FreshTokens(t, run) && Consumes(t, run, j, token, user) && j < n <= |run|
    ensures var grants := At(t, run[..n]).grants;
            token in grants ==> grants[token].consumed
    decreases n
  {
    hide Apply;
    var before := At(t, run[..n - 1]);
    var step := run[n - 1];
    AtExtends(t, run, n - 1);
    if n - 1 == j {
      ConsumingConsumes(before, step.now, user, token);
    } else {
      ConsumedStaysConsumed(t, run, token, user, j, n - 1);
      if token in Apply(before, step.now, step.op).tables.grants {
        GrantsComeFrom(before, step.now, step.op, token);
        if token !in before.grants {
          GrantsAreIssued(before, step.now, step.op);
          IssuedBefore(t, run, token, user, j, n - 1);
        }
      }
    }
  }

  lemma IssuedBefore(t: Tables, run: seq<Commit>, token: Token, user: UserId, j: nat, k: nat)
    requires t.grants == map[] && Consumes(t, run, j, token, user) && j < k < |run|
    requires run[k].op.OpCreateGrant? && run[k].op.token == token && Succeeds(t, run, k)
    ensures !FreshTokens(t, run)
  {
    hide Apply;
    ConsumingConsumes(At(t, run[..j]), run[j].now, user, token);
    var i, _ := GrantsHaveHistory(t, run[..j], token);
    assert run[..j][..i] == run[..i];
    assert Succeeds(t, run, i) && run[i].op.token == token;
  }

  /** Each launch grant is consumed at most once in a run. */
  lemma GrantsAreConsumedOnce(t: Tables, run: seq<Commit>, token: Token, u: UserId, v: UserId, i: nat, j: nat)
    requires t.grants == map[] && FreshTokens(t, run)
    requires Consumes(t, run, i, token, u) && Consumes(t, run, j, token, v)
    ensures i == j
  {
    hide Apply;
    if i < j {
      ConsumedStaysConsumed(t, run, token, u, i, j);
      ConsumingConsumes(At(t, run[..j]), run[j].now, v, token);
    } else if j < i {
      ConsumedStaysConsumed(t, run, token, v, j, i);
      ConsumingConsumes(At(t, run[..i]), run[i].now, u, token);
    }
  }

  /** A process and its grant: issued while connecting, consumed once and by nobody else, launched in time. */
  ghost predicate Backs(t: Tables, run: seq<Commit>, token: Token, id: RoomId, user: UserId, i: nat, j: nat, k: nat) {
    && i < j < k && Issues(t, run, i, token, id, user) && Consumes(t, run, j, token, user) && Launches(t, run, k, id, user)
    && run[k].now < run[i].now + 90
    && (forall other: nat, v :: Consumes(t, run, other, token, v) ==> other == j && v == user)
  }

  lemma EveryProcessIsBacked(t: Tables, run: seq<Commit>, id: RoomId, user: UserId)
    returns (token: Token, i: nat, j: nat, k: nat)
    requires t.grants == map[] && t.rooms == map[] && FreshTokens(t, run)
    requires id in At(t, run).rooms && user in At(t, run).rooms[id].participants
    ensures Backs(t, run, token, id, user, i, j, k)
  {
    token, i, j, k := ParticipantsHaveHistory(t, run, id, user);
    hide At, Apply, Succeeds, FreshTokens;
    forall other: nat, v | Consumes(t, run, other, token, v) ensures other == j && v == user {
      GrantsAreConsumedOnce(t, run, token, user, v, j, other);
    }
  }

  /**
   Every process has a grant of its own, issued to its user and room while connecting, consumed
   exactly once in the run and launched within ninety seconds: two participants never rest on the
   same one.
   */
  lemma ParticipantsOwnTheirGrants(t: Tables, run: seq<Commit>, a: RoomId, u: UserId, b: RoomId, v: UserId)
    returns (s: Token, i: nat, c: nat, k: nat, r: Token, j: nat, d: nat, l: nat)
    requires t.grants == map[] && t.rooms == map[] && FreshTokens(t, run) && (a, u) != (b, v)
    requires a in At(t, run).rooms && u in At(t, run).rooms[a].participants
    requires b in At(t, run).rooms && v in At(t, run).rooms[b].participants
    ensures Backs(t, run, s, a, u, i, c, k) && Backs(t, run, r, b, v, j, d, l)
    ensures s != r && c != d && k != l
  {
    hide At, Apply, Succeeds;
    s, i, c, k := EveryProcessIsBacked(t, run, a, u);
    r, j, d, l := EveryProcessIsBacked(t, run, b, v);
    assert i != j;
  }

  // ---- launch barriers -----------------------------------------------------------------------------

  predicate AcceptsPreflight(t: Tables, now: Time, op: Op, id: RoomId) {
    op.OpSubmitPreflight? && op.id == id && Apply(t, now, op).outcome == Done
  }

  predicate AcceptsReady(t: Tables, now: Time, op: Op, id: RoomId) {
    op.OpReady? && op.id == id && Apply(t, now, op).outcome == Done
  }

  predicate SetsUpMatches(op: Op) {
    op.OpSubmitPreflight? || op.OpReady? || op.OpCreateGrant? || op.OpLaunch? || op.OpExit? || op.OpAcceptRoom?
  }

  /** Where a barrier comes from, and what becomes of it. */
  predicate BarrierStep(t: Tables, now: Time, op: Op, id: RoomId)
    requires id in Apply(t, now, op).tables.rooms
  {
    var after := Apply(t, now, op).tables.rooms[id].barrier;
    var before := if id in t.rooms then t.rooms[id].barrier else None;
    if AcceptsPreflight(t, now, op, id) then after == None
    else if AcceptsReady(t, now, op, id) then
      after == before || ((before.None? || before.value <= now) && after == Some(now + LAUNCH_DELAY))
    else after == before
  }

  lemma PreparingBarrierStep(t: Tables, now: Time, op: Op, id: RoomId)
    requires (op.OpSubmitPreflight? || op.OpReady?) && id in Apply(t, now, op).tables.rooms
    ensures BarrierStep(t, now, op, id)
  {
    hide PreflightsMatch, ReadyUsers, WithReady, ValidPreflightCompatibility;
  }

  lemma JoiningBarrierStep(t: Tables, now: Time, op: Op, id: RoomId)
    requires (op.OpCreateGrant? || op.OpAcceptRoom?) && id in Apply(t, now, op).tables.rooms
    ensures BarrierStep(t, now, op, id)
  {
    hide BarrierPassed;
  }

  lemma PlayingBarrierStep(t: Tables, now: Time, op: Op, id: RoomId)
    requires (op.OpLaunch? || op.OpExit?) && id in Apply(t, now, op).tables.rooms
    ensures BarrierStep(t, now, op, id)
  {
    hide HasLaunchGrant, GrantsWithout, EndedUsers, Closed;
  }

  lemma SetupBarrierStep(t: Tables, now: Time, op: Op, id: RoomId)
    requires SetsUpMatches(op) && id in Apply(t, now, op).tables.rooms
    ensures BarrierStep(t, now, op, id)
  {
    hide Apply, BarrierStep;
    if op.OpSubmitPreflight? || op.OpReady? {
      PreparingBarrierStep(t, now, op, id);
    } else if op.OpCreateGrant? || op.OpAcceptRoom? {
      JoiningBarrierStep(t, now, op, id);
    } else {
      PlayingBarrierStep(t, now, op, id);
    }
  }

  lemma CancelBarrierStep(t: Tables, now: Time, op: Op, id: RoomId)
    requires !SetsUpMatches(op) && !Opens(op) && !op.OpAcceptChallenge? && !op.OpJoinInvite?
    requires id in Apply(t, now, op).tables.rooms
    ensures BarrierStep(t, now, op, id)
  {
    hide Closed, IsBatch, WithChallengesOf, AllEnded;
  }

  lemma OtherBarrierStep(t: Tables, now: Time, op: Op, id: RoomId)
    requires !SetsUpMatches(op) && id in Apply(t, now, op).tables.rooms
    ensures BarrierStep(t, now, op, id)
  {
    hide Apply;
    if Opens(op) {
      OpeningKeepsMatches(t, now, op);
    } else if op.OpAcceptChallenge? || op.OpJoinInvite? {
      JoiningKeepsMatches(t, now, op);
    } else {
      CancelBarrierStep(t, now, op, id);
    }
  }

  /** A preflight removes the barrier; a barrier still ahead is moved by nothing else, ready calls included. */
  lemma FutureBarriersStand(t: Tables, now: Time, op: Op, id: RoomId)
    requires id in t.rooms && t.rooms[id].barrier.Some? && t.rooms[id].barrier.value > now
    requires id in Apply(t, now, op).tables.rooms
    ensures Apply(t, now, op).tables.rooms[id].barrier
            == if AcceptsPreflight(t, now, op, id) then None else t.rooms[id].barrier
  {
    hide Apply;
    if SetsUpMatches(op) {
      SetupBarrierStep(t, now, op, id);
    } else {
      OtherBarrierStep(t, now, op, id);
    }
  }

  /**
   A standing barrier was set by one ready call, five seconds before its time; since then nothing
   moved it and no preflight came in.
   */
  lemma {:induction false} BarriersHaveHistory(t: Tables, run: seq<Commit>, id: RoomId) returns (i: nat)
    requires t.rooms == map[] && id in At(t, run).rooms && At(t, run).rooms[id].barrier.Some?
    ensures Readies(t, run, i, id) && At(t, run).rooms[id].barrier == Some(run[i].now + LAUNCH_DELAY)
    ensures forall k :: i < k < |run| ==> !Preflights(t, run, k, id)
  {
    hide Apply;
    var n := |run| - 1;
    var shorter, last := run[..n], run[n];
    var before := At(t, shorter);
    if SetsUpMatches(last.op) {
      SetupBarrierStep(before, last.now, last.op, id);
    } else {
      OtherBarrierStep(before, last.now, last.op, id);
    }
    if id in before.rooms && before.rooms[id].barrier == At(t, run).rooms[id].barrier {
      i := BarriersHaveHistory(t, shorter, id);
      assert shorter[..i] == run[..i];
      forall k | i < k < |run| ensures !Preflights(t, run, k, id) {
        if k < n {
          assert shorter[..k] == run[..k] && !Preflights(t, shorter, k, id);
        }
      }
    } else {
      i := n;
    }
  }

  lemma CampaignGrantsCheckTheBarrier(t: Tables, now: Time, op: Op)
    requires op.OpCreateGrant? && op.campaign && Apply(t, now, op).outcome == Done
    ensures op.id in t.rooms && t.rooms[op.id].barrier.Some? && t.rooms[op.id].barrier.value <= now
  {
  }

  /**
   Every campaign-mode grant comes at least five seconds after the ready call that set the
   barrier, with no new preflight in between, and over two ready and matching preflights.
   */
  lemma CampaignGrantsWaitForTheBarrier(users: set<UserId>, games: set<string>, run: seq<Commit>, g: nat)
    returns (i: nat)
    requires g < |run| && run[g].op.OpCreateGrant? && run[g].op.campaign && Succeeds(Empty(users, games), run, g)
    ensures i < g && Readies(Empty(users, games), run, i, run[g].op.id) && run[i].now + LAUNCH_DELAY <= run[g].now
    ensures forall k :: i < k < g ==> !Preflights(Empty(users, games), run, k, run[g].op.id)
    ensures var t := At(Empty(users, games), run[..g]);
            run[g].op.id in t.rooms
            && BarrierOk(t.rooms[run[g].op.id].members, t.rooms[run[g].op.id].preflights)
  {
    hide Apply, BarrierOk, StageOk, SlotsOk;
    var t := Empty(users, games);
    var id := run[g].op.id;
    var shorter := run[..g];
    CampaignGrantsCheckTheBarrier(At(t, shorter), run[g].now, run[g].op);
    i := BarriersHaveHistory(t, shorter, id);
    assert shorter[..i] == run[..i];
    forall k | i < k < g ensures !Preflights(t, run, k, id) {
      assert shorter[..k] == run[..k] && !Preflights(t, shorter, k, id);
    }
    RunsKeepInv(users, games, shorter);
    assert RoomOk(At(t, shorter).rooms[id]);
  }

  // ---- how many challenges a user opens -----------------------------------------------------------

  predicate ClockForward(run: seq<Commit>) {
    forall i, j :: 0 <= i < j < |run| ==> run[i].now <= run[j].now
  }

  function OpenedWithin(t: Tables, user: UserId, from: Time, to: Time): set<ChallengeId> {
    set c | c in t.challenges && t.challenges[c].challenger == user && from < t.challenges[c].createdAt <= to
  }

  lemma ChallengesComeFrom(t: Tables, now: Time, op: Op, c: ChallengeId)
    requires c in Apply(t, now, op).tables.challenges
    ensures var challenge := Apply(t, now, op).tables.challenges[c];
            || (c in t.challenges && challenge == t.challenges[c].(state := challenge.state))
            || (&& op.OpCreateChallenge? && c == op.cid && challenge.challenger == op.user && challenge.createdAt == now
                && |RecentChallenges(t, now, op.user)| < 10)
  {
    if op.OpCreateChallenge? {
      hide DisposeWaiting, NewRoom, RecentChallenges, HasPending;
      ExpiringSettles(t.challenges, now);
    } else {
      hide Apply;
      OthersSettle(t, now, op);
    }
  }

  lemma {:induction false} ChallengesAreInThePast(t: Tables, run: seq<Commit>, c: ChallengeId)
    requires t.challenges == map[] && ClockForward(run) && c in At(t, run).challenges
    ensures run != [] && At(t, run).challenges[c].createdAt <= run[|run| - 1].now
  {
    hide Apply;
    var n := |run| - 1;
    ChallengesComeFrom(At(t, run[..n]), run[n].now, run[n].op, c);
    if c in At(t, run[..n]).challenges {
      ChallengesAreInThePast(t, run[..n], c);
    }
  }

  /** Nobody opens more than ten challenges in any ten minutes, at any point of any run. */
  lemma {:induction false} TenChallengesPerTenMinutes(t: Tables, run: seq<Commit>, user: UserId, to: Time)
    requires t.challenges == map[] && ClockForward(run)
    ensures |OpenedWithin(At(t, run), user, to - 10 * MINUTE, to)| <= 10
  {
    hide Apply;
    if run == [] {
      assert OpenedWithin(t, user, to - 10 * MINUTE, to) == {};
    } else {
      var n := |run| - 1;
      var before, last := At(t, run[..n]), run[n];
      var current := OpenedWithin(At(t, run), user, to - 10 * MINUTE, to);
      var earlier := OpenedWithin(before, user, to - 10 * MINUTE, to);
      TenChallengesPerTenMinutes(t, run[..n], user, to);
      forall c | c in current
        ensures c in earlier || (last.op.OpCreateChallenge? && c == last.op.cid && last.op.user == user && last.now <= to
                                 && |RecentChallenges(before, last.now, user)| < 10)
      {
        ChallengesComeFrom(before, last.now, last.op, c);
      }
      if current <= earlier {
        CardinalityOfAtMost(current, earlier);
      } else {
        var recent := RecentChallenges(before, last.now, user);
        forall c | c in current && c != last.op.cid ensures c in recent {
          assert c in earlier;
        }
        CardinalityOfAtMost(current, recent + {last.op.cid});
      }
    }
  }

  // ---- continuation receipts -----------------------------------------------------------------------

  /** What a user did under an idempotency key, and the receipts given out, are never forgotten. */
  lemma ReceiptsAccumulate(t: Tables, now: Time, op: Op)
    ensures t.results <= Apply(t, now, op).tables.results && t.receipts <= Apply(t, now, op).tables.receipts
  {
    hide Joined, DisposeWaiting, PreflightsMatch, Readied, Launched, Exited, AllEnded, Closed, WithChallengesOf,
         HasLaunchGrant, ValidPreflightCompatibility, BarrierPassed, IsBatch, Reconciled, EvidenceVerifies,
         RoomIsWaitingFor, NewRoom, RecentChallenges, HasPending, ExpireChallenges, GrantsWithout;
  }

  lemma {:induction false} ReceiptsAccumulateOverRuns(t: Tables, run: seq<Commit>, i: nat)
    requires i <= |run|
    ensures At(t, run[..i]).results <= At(t, run).results && At(t, run[..i]).receipts <= At(t, run).receipts
    decreases |run|
  {
    hide Apply;
    if i == |run| {
      assert run[..i] == run;
    } else {
      var n := |run| - 1;
      assert run[..n][..i] == run[..i];
      ReceiptsAccumulateOverRuns(t, run[..n], i);
      ReceiptsAccumulate(At(t, run[..n]), run[n].now, run[n].op);
    }
  }

  lemma ReceiptsAreKept(t: Tables, now: Time, op: Op)
    requires op.OpReceipt? && Apply(t, now, op).outcome == Done
    ensures (op.user, op.key) in Apply(t, now, op).tables.results
    ensures (op.user, op.key) !in t.results ==>
              && (op.source, op.user) !in t.receipts && (op.source, op.user) in Apply(t, now, op).tables.receipts
              && op.source in t.rooms && op.user in t.rooms[op.source].members && t.rooms[op.source].state == Finished
              && EvidenceVerifies(op.reports, op.failureReports)
  {
    hide EvidenceVerifies, DisposeWaiting;
  }

  lemma RetryChangesNothing(t: Tables, now: Time, op: Op)
    requires op.OpReceipt? && (op.user, op.key) in t.results
    ensures Apply(t, now, op) == Response(t, Done)
  {
  }

  /** Sending a receipt request again under its key succeeds at any later time and changes nothing. */
  lemma ReceiptsAreIdempotent(t: Tables, run: seq<Commit>, i: nat, now: Time, again: Op)
    requires i < |run| && run[i].op.OpReceipt? && Succeeds(t, run, i)
    requires again.OpReceipt? && again.user == run[i].op.user && again.key == run[i].op.key
    ensures Apply(At(t, run), now, again) == Response(At(t, run), Done)
  {
    hide Apply;
    AtExtends(t, run, i);
    ReceiptsAreKept(At(t, run[..i]), run[i].now, run[i].op);
    ReceiptsAccumulateOverRuns(t, run, i + 1);
    RetryChangesNothing(At(t, run), now, again);
  }

  predicate NewReceipt(t: Tables, run: seq<Commit>, i: nat, user: UserId, source: RoomId) {
    && i < |run| && run[i].op.OpReceipt? && run[i].op.user == user && run[i].op.source == source && Succeeds(t, run, i)
    && (user, run[i].op.key) !in At(t, run[..i]).results
  }

  /** One match yields one continuation receipt per player, whatever keys are tried, and only on verified evidence. */
  lemma OneReceiptPerPlayerAndMatch(t: Tables, run: seq<Commit>, i: nat, j: nat, user: UserId, source: RoomId)
    requires NewReceipt(t, run, i, user, source) && NewReceipt(t, run, j, user, source)
    ensures i == j && Proven(run[i].op.reports, run[i].op.failureReports)
  {
    hide Apply, EvidenceVerifies, Proven;
    EvidenceVerifiesExactlyWhen(run[i].op.reports, run[i].op.failureReports);
    ReceiptsAreKept(At(t, run[..i]), run[i].now, run[i].op);
    ReceiptsAreKept(At(t, run[..j]), run[j].now, run[j].op);
    if i < j {
      LaterReceipt(t, run, i, j);
    } else if j < i {
      LaterReceipt(t, run, j, i);
    }
  }

  lemma LaterReceipt(t: Tables, run: seq<Commit>, i: nat, j: nat)
    requires i < j < |run|
    ensures At(t, run[..i + 1]).receipts <= At(t, run[..j]).receipts
    ensures At(t, run[..i + 1]) == Apply(At(t, run[..i]), run[i].now, run[i].op).tables
  {
    hide Apply;
    AtExtends(t, run, i);
    assert run[..j][..i + 1] == run[..i + 1];
    ReceiptsAccumulateOverRuns(t, run[..j], i + 1);
  }
}
