/**
 The lifecycle tables and the effect of each committed transaction on them.

 Rows keyed by a room (its attempt, members, runtime participants, preflights and launch
 barrier) are kept inside the room's record. Each handler is a function from the tables before
 to the tables after and the response; a denied request leaves the tables alone. Ids, tokens
 and codes arrive as arguments, and a duplicate one is the primary-key violation it would be.
 */
module RoomTables {
  import opened Text
  import opened RoomStates
  import Reports

  type UserId = nat
  type RoomId = nat
  type ChallengeId = nat
  type Token = nat
  type Code = nat
  type Key = nat
  type Time = int

  const MINUTE: Time := 60
  const HOUR: Time := 3600
  const LAUNCH_DELAY: Time := 5
  const RECONCILE_BATCH_SIZE: nat := 250

  datatype AttemptState = Active | Succeeded | Failed | AttemptCancelled | Expired

  datatype Attempt = Attempt(state: AttemptState, deadline: Option<Time>)

  datatype Participant = Running | Ended

  datatype Preflight = Preflight(
    compatibility: Reports.Compatibility,
    portAvailable: bool,
    controllerConnected: bool,
    playerSlot: nat,
    ready: bool)

  datatype Room = Room(
    host: UserId,
    game: string,
    state: RoomState,
    deadline: Option<Time>,
    attempt: Attempt,
    members: set<UserId>,
    participants: map<UserId, Participant>,
    preflights: map<UserId, Preflight>,
    barrier: Option<Time>)

  datatype ChallengeState = Pending | Accepted | Declined | ChallengeCancelled | ChallengeExpired

  datatype Challenge = Challenge(
    room: RoomId,
    challenger: UserId,
    challenged: UserId,
    state: ChallengeState,
    createdAt: Time,
    expiresAt: Time)

  datatype Grant = Grant(room: RoomId, user: UserId, expiresAt: Time, consumed: bool)

  datatype Invite = Invite(room: RoomId, expiresAt: Time, consumed: bool)

  datatype Tables = Tables(
    users: set<UserId>,
    games: set<string>,
    rooms: map<RoomId, Room>,
    challenges: map<ChallengeId, Challenge>,
    grants: map<Token, Grant>,
    invites: map<Code, Invite>,
    receipts: set<(RoomId, UserId)>,
    results: set<(UserId, Key)>
  ) {
    function Put(id: RoomId, room: Room): Tables {
      this.(rooms := rooms[id := room])
    }
  }

  datatype ApiError = BadRequest | NotFound | Forbidden | Unauthorized | Conflict | RateLimited | Internal

  datatype Outcome = Done | Denied(error: ApiError)

  datatype Response = Response(tables: Tables, outcome: Outcome)

  function Deny(t: Tables, error: ApiError): Response {
    Response(t, Denied(error))
  }

  // ---- pieces shared by handlers --------------------------------------------------------

  function NewRoom(host: UserId, game: string, state: RoomState, deadline: Time): Room {
    Room(host, game, state, Some(deadline), Attempt(Active, Some(deadline)), {host}, map[], map[], None)
  }

  predicate IsWaiting(room: Room, host: UserId, game: string) {
    room.host == host && room.game == game && room.state == Waiting
  }

  /** The three ways handlers dispose of a user's other waiting rooms. */
  datatype Disposal = KeepDeadlines | ClearDeadlines | LeaveAttempt

  function Disposed(room: Room, how: Disposal): Room {
    match how
    case KeepDeadlines => room.(state := Cancelled, attempt := Closed(room.attempt, AttemptCancelled, room.attempt.deadline))
    case ClearDeadlines =>
      room.(state := Cancelled, deadline := None, attempt := Closed(room.attempt, AttemptCancelled, None))
    case LeaveAttempt => room.(state := Cancelled)
  }

  /** Cancels the waiting rooms of `host` for `game`, except `keep`. */
  function DisposeWaiting(rooms: map<RoomId, Room>, host: UserId, game: string, keep: Option<RoomId>, how: Disposal)
    : map<RoomId, Room>
  {
    map id | id in rooms ::
      if IsWaiting(rooms[id], host, game) && keep != Some(id) then Disposed(rooms[id], how) else rooms[id]
  }

  /** `UPDATE match_attempts ... WHERE state = 'ACTIVE'`. */
  function Closed(attempt: Attempt, state: AttemptState, deadline: Option<Time>): Attempt {
    if attempt.state == Active then Attempt(state, deadline) else attempt
  }

  function AllEnded(participants: map<UserId, Participant>): map<UserId, Participant> {
    map user | user in participants :: Ended
  }

  function EndedUsers(participants: map<UserId, Participant>): set<UserId> {
    set user | user in participants && participants[user] == Ended
  }

  function ReadyUsers(preflights: map<UserId, Preflight>): set<UserId> {
    set user | user in preflights && preflights[user].ready
  }

  function WithChallengesOf(challenges: map<ChallengeId, Challenge>, rooms: set<RoomId>, state: ChallengeState)
    : map<ChallengeId, Challenge>
  {
    map c | c in challenges ::
      if challenges[c].room in rooms && challenges[c].state == Pending then challenges[c].(state := state)
      else challenges[c]
  }

  /** A second player joins: the room starts connecting with two minutes to go. */
  function Joined(room: Room, user: UserId, now: Time): Room {
    room.(members := room.members + {user}, state := Connecting, deadline := Some(now + 2 * MINUTE),
          attempt := room.attempt.(deadline := Some(now + 2 * MINUTE)))
  }

  predicate RoomIsWaitingFor(t: Tables, host: UserId, game: string) {
    exists id :: id in t.rooms && IsWaiting(t.rooms[id], host, game)
  }

  // ---- rooms ----------------------------------------------------------------------------

  function CreateRoom(t: Tables, now: Time, user: UserId, game: string, maxPlayers: int, id: RoomId): Response {
    if IsBlank(game) || maxPlayers != 2 then Deny(t, BadRequest)
    else if game !in t.games then Deny(t, NotFound)
    else if RoomIsWaitingFor(t, user, game) then Response(t, Done)
    else if id in t.rooms then Deny(t, Internal)
    else Response(t.Put(id, NewRoom(user, game, Waiting, now + 24 * HOUR)), Done)
  }

  function AcceptRoom(t: Tables, now: Time, user: UserId, id: RoomId): Response {
    if id !in t.rooms then Deny(t, NotFound)
    else
      var room := t.rooms[id];
      if room.host == user then Deny(t, Forbidden)
      else if user in room.members && room.state in {Connecting, Playing, Finished} then Response(t, Done)
      else if |room.members| >= 2 then Deny(t, Conflict)
      else if Transition(room.state, Accept).Failure? then Deny(t, Conflict)
      else Response(t.Put(id, Joined(room, user, now)), Done)
  }

  /** Cancel and decline, by any member. */
  function ChangeRoomState(t: Tables, user: UserId, id: RoomId, event: RoomEvent): Response
    requires event in {Cancel, Decline}
  {
    if id !in t.rooms then Deny(t, NotFound)
    else
      var room := t.rooms[id];
      if user !in room.members then Deny(t, Forbidden)
      else if Transition(room.state, event).Failure? then Deny(t, Conflict)
      else
        var cancelled := room.(state := Cancelled, deadline := None,
                               attempt := Closed(room.attempt, AttemptCancelled, None),
                               participants := AllEnded(room.participants));
        Response(t.Put(id, cancelled).(challenges := WithChallengesOf(t.challenges, {id}, ChallengeCancelled)), Done)
  }

  // ---- challenges -----------------------------------------------------------------------

  function RecentChallenges(t: Tables, now: Time, user: UserId): set<ChallengeId> {
    set c | c in t.challenges && t.challenges[c].challenger == user && t.challenges[c].createdAt > now - 10 * MINUTE
  }

  function ExpireChallenges(challenges: map<ChallengeId, Challenge>, now: Time): map<ChallengeId, Challenge> {
    map c | c in challenges ::
      if challenges[c].state == Pending && challenges[c].expiresAt <= now then challenges[c].(state := ChallengeExpired)
      else challenges[c]
  }

  predicate HasPending(challenges: map<ChallengeId, Challenge>, challenger: UserId, challenged: UserId) {
    exists c :: c in challenges && challenges[c].state == Pending
                && challenges[c].challenger == challenger && challenges[c].challenged == challenged
  }

  function CreateChallenge(t: Tables, now: Time, user: UserId, challenged: UserId, game: string,
                           id: RoomId, cid: ChallengeId): Response
  {
    if IsBlank(game) || challenged == user then Deny(t, BadRequest)
    else if challenged !in t.users || game !in t.games then Deny(t, NotFound)
    else if |RecentChallenges(t, now, user)| >= 10 then Deny(t, RateLimited)
    else
      var challenges := ExpireChallenges(t.challenges, now);
      if id in t.rooms || cid in t.challenges then Deny(t, Internal)
      else if HasPending(challenges, user, challenged) then Deny(t, Conflict)
      else
        var rooms := DisposeWaiting(t.rooms, user, game, None, KeepDeadlines);
        var challenge := Challenge(id, user, challenged, Pending, now, now + 5 * MINUTE);
        Response(t.(rooms := rooms[id := NewRoom(user, game, Challenging, now + 5 * MINUTE)],
                    challenges := challenges[cid := challenge]), Done)
  }

  predicate IsPending(c: Challenge, now: Time) {
    c.state == Pending && c.expiresAt > now
  }

  function AcceptChallenge(t: Tables, now: Time, user: UserId, cid: ChallengeId): Response {
    if cid !in t.challenges || t.challenges[cid].room !in t.rooms then Deny(t, NotFound)
    else
      var challenge := t.challenges[cid];
      var room := t.rooms[challenge.room];
      if challenge.challenged != user then Deny(t, Forbidden)
      else if challenge.state == Accepted then Response(t, Done)
      else if !IsPending(challenge, now) || room.state != Challenging then Deny(t, Conflict)
      else if user in room.members then Deny(t, Internal)
      else
        var rooms := DisposeWaiting(t.rooms, user, room.game, None, KeepDeadlines);
        Response(t.(rooms := rooms[challenge.room := Joined(room, user, now)],
                    challenges := t.challenges[cid := challenge.(state := Accepted)]), Done)
  }

  /** Decline and cancel of a challenge: the room is cancelled whatever its state. */
  function ResolveChallenge(t: Tables, now: Time, user: UserId, cid: ChallengeId, cancel: bool): Response {
    if cid !in t.challenges || t.challenges[cid].room !in t.rooms then Deny(t, NotFound)
    else
      var challenge := t.challenges[cid];
      var room := t.rooms[challenge.room];
      if user != (if cancel then challenge.challenger else challenge.challenged) then Deny(t, Forbidden)
      else if !IsPending(challenge, now) then Deny(t, Conflict)
      else
        var state := if cancel then ChallengeCancelled else Declined;
        var cancelled := room.(state := Cancelled, deadline := None,
                               attempt := Closed(room.attempt, AttemptCancelled, None));
        Response(t.Put(challenge.room, cancelled)
                  .(challenges := t.challenges[cid := challenge.(state := state)]), Done)
  }

  // ---- invites --------------------------------------------------------------------------

  function CreateInvite(t: Tables, now: Time, user: UserId, id: RoomId, code: Code): Response {
    if id !in t.rooms || t.rooms[id].host != user || t.rooms[id].state != Waiting then Deny(t, Forbidden)
    else if code in t.invites then Deny(t, Internal)
    else Response(t.(invites := t.invites[code := Invite(id, now + 15 * MINUTE, false)]), Done)
  }

  function JoinInvite(t: Tables, now: Time, user: UserId, code: Code): Response {
    if code !in t.invites || t.invites[code].expiresAt <= now || t.invites[code].consumed
       || t.invites[code].room !in t.rooms
    then Deny(t, NotFound)
    else
      var invite := t.invites[code];
      var room := t.rooms[invite.room];
      if room.host == user then Deny(t, Forbidden)
      else if Transition(room.state, Accept).Failure? || |room.members| >= 2 then Deny(t, Conflict)
      else if user in room.members then Deny(t, Internal)
      else
        var rooms := DisposeWaiting(t.rooms, user, room.game, Some(invite.room), ClearDeadlines);
        var attempt := Closed(room.attempt, Active, Some(now + 2 * MINUTE));
        Response(t.(rooms := rooms[invite.room := Joined(room, user, now).(attempt := attempt)],
                    invites := t.invites[code := invite.(consumed := true)]), Done)
  }

  // ---- preflight and barrier ------------------------------------------------------------

  /** The checks every match-setup request passes first. */
  function LockActiveAttempt(t: Tables, now: Time, user: UserId, id: RoomId): Result<Room, ApiError> {
    if id !in t.rooms || user !in t.rooms[id].members then Failure(Forbidden)
    else
      var room := t.rooms[id];
      if room.state !in {Connecting, Playing} then Failure(Conflict)
      else if room.deadline.Some? && room.deadline.value <= now then Failure(Conflict)
      else Success(room)
  }

  function ExpectedSlot(host: UserId, user: UserId): nat {
    if host == user then 1 else 2
  }

  predicate ValidPreflightCompatibility(c: Reports.Compatibility) {
    && c.adapter in {"retroarch_fbneo", "retroarch_test"}
    && (c.emulatorVersion.Some? ==> !IsBlank(c.emulatorVersion.value) && Utf8Len(c.emulatorVersion.value) <= 64)
    && Reports.LowerHexOfLength(c.executableSha256, 64)
    && Reports.LowerHexOfLength(c.coreSha256, 64)
    && Reports.LowerHexOfLength(c.contentSha256, 64)
  }

  function SubmitPreflight(t: Tables, now: Time, user: UserId, id: RoomId, preflight: Preflight): Response {
    if !ValidPreflightCompatibility(preflight.compatibility) then Deny(t, BadRequest)
    else
      match LockActiveAttempt(t, now, user, id)
      case Failure(error) => Deny(t, error)
      case Success(room) =>
        if preflight.playerSlot != ExpectedSlot(room.host, user) then Deny(t, BadRequest)
        else
          var preflights := room.preflights[user := preflight.(ready := false)];
          Response(t.Put(id, room.(preflights := preflights, barrier := None)), Done)
  }

  /** Both peers reported, with one compatibility, free ports, controllers and slots 1 and 2. */
  predicate PreflightsMatch(preflights: map<UserId, Preflight>) {
    && |preflights| == 2
    && (forall u, v :: u in preflights && v in preflights ==> preflights[u].compatibility == preflights[v].compatibility)
    && (forall u :: u in preflights ==> preflights[u].portAvailable && preflights[u].controllerConnected)
    && (set u | u in preflights :: preflights[u].playerSlot) == {1, 2}
  }

  function WithReady(preflights: map<UserId, Preflight>, user: UserId): map<UserId, Preflight> {
    if user in preflights && preflights[user].portAvailable
    then preflights[user := preflights[user].(ready := true)]
    else preflights
  }

  /** The second ready call sets the barrier; later ones move it only once it has passed. */
  function Readied(room: Room, user: UserId, now: Time): Room {
    var preflights := WithReady(room.preflights, user);
    var barrier :=
      if |ReadyUsers(preflights)| == 2 && (room.barrier.None? || room.barrier.value <= now)
      then Some(now + LAUNCH_DELAY)
      else room.barrier;
    room.(preflights := preflights, barrier := barrier)
  }

  function ReadyToLaunch(t: Tables, now: Time, user: UserId, id: RoomId): Response {
    match LockActiveAttempt(t, now, user, id)
    case Failure(error) => Deny(t, error)
    case Success(room) =>
      if !PreflightsMatch(room.preflights) then Deny(t, Conflict)
      else
        Response(t.Put(id, Readied(room, user, now)), Done)
  }

  // ---- grants and native processes ------------------------------------------------------

  predicate BarrierPassed(room: Room, now: Time) {
    room.barrier.Some? && room.barrier.value <= now && |ReadyUsers(room.preflights)| == 2
  }

  function CreateLaunchGrant(t: Tables, now: Time, user: UserId, id: RoomId, endpointsUsable: bool,
                             campaign: bool, token: Token): Response
  {
    if !endpointsUsable then Deny(t, BadRequest)
    else if id !in t.rooms then Deny(t, NotFound)
    else
      var room := t.rooms[id];
      if room.state != Connecting then Deny(t, Conflict)
      else if campaign && !BarrierPassed(room, now) then Deny(t, Conflict)
      else if user !in room.members || room.members == {user} then Deny(t, Forbidden)
      else if token in t.grants then Deny(t, Internal)
      else
        var renewed := room.(attempt := room.attempt.(deadline := Some(now + 2 * MINUTE)));
        Response(t.Put(id, renewed).(grants := t.grants[token := Grant(id, user, now + 90, false)]), Done)
  }

  function ConsumeLaunchGrant(t: Tables, now: Time, user: UserId, token: Token): Response {
    if token in t.grants && t.grants[token].user == user && t.grants[token].expiresAt > now && !t.grants[token].consumed
    then Response(t.(grants := t.grants[token := t.grants[token].(consumed := true)]), Done)
    else Deny(t, Unauthorized)
  }

  predicate Authorizes(grant: Grant, id: RoomId, user: UserId, now: Time) {
    grant.room == id && grant.user == user && grant.consumed && grant.expiresAt > now
  }

  predicate HasLaunchGrant(t: Tables, id: RoomId, user: UserId, now: Time) {
    exists token :: token in t.grants && Authorizes(t.grants[token], id, user, now)
  }

  function GrantsWithout(grants: map<Token, Grant>, id: RoomId, user: UserId): map<Token, Grant> {
    map token | token in grants && !(grants[token].room == id && grants[token].user == user) :: grants[token]
  }

  /** A participant's process runs; the second one starts play. */
  function Launched(room: Room, user: UserId, now: Time): Room {
    var launched := room.(participants := room.participants[user := Running]);
    if room.state == Connecting && |room.members| == 2 && |launched.participants| == |room.members|
    then launched.(state := Playing, deadline := Some(now + 4 * HOUR),
                   attempt := Closed(room.attempt, Active, Some(now + 4 * HOUR)))
    else launched
  }

  function ConfirmNativeLaunch(t: Tables, now: Time, user: UserId, id: RoomId): Response {
    if id !in t.rooms then Deny(t, NotFound)
    else
      var room := t.rooms[id];
      if room.state !in {Connecting, Playing} then Deny(t, Conflict)
      else if user !in room.members then Deny(t, Forbidden)
      else if user in room.participants then
        if room.participants[user] == Ended then Deny(t, Conflict) else Response(t, Done)
      else if !HasLaunchGrant(t, id, user, now) then Deny(t, Conflict)
      else
        Response(t.Put(id, Launched(room, user, now)).(grants := GrantsWithout(t.grants, id, user)), Done)
  }

  /** A participant's process ended; before play that fails the attempt, the last one finishes the match. */
  function Exited(room: Room, user: UserId): Room {
    var exited := room.(participants := room.participants[user := Ended]);
    if room.state == Connecting then
      exited.(state := Cancelled, deadline := None, attempt := Closed(room.attempt, Failed, None))
    else if room.state == Playing && |room.members| == 2 && |EndedUsers(exited.participants)| == |room.members| then
      exited.(state := Finished, deadline := None, attempt := Closed(room.attempt, Succeeded, None))
    else exited
  }

  function ConfirmNativeExit(t: Tables, user: UserId, id: RoomId): Response {
    if id !in t.rooms then Deny(t, NotFound)
    else
      var room := t.rooms[id];
      if room.state !in {Connecting, Playing, Finished, Cancelled} then Deny(t, Conflict)
      else if user !in room.participants then Deny(t, Conflict)
      else
        Response(t.Put(id, Exited(room, user)), Done)
  }

  // ---- continuation receipts ------------------------------------------------------------

  predicate EvidenceVerifies(reports: seq<Reports.MatchReport>, failureReports: nat) {
    && |reports| == 2 && failureReports == 0
    && Reports.VerifyPlayableMatchReports(reports[0], reports[1]).Success?
    && reports[0].nativeRoute.Some? && reports[0].nativeRoute == reports[1].nativeRoute
  }

  function CreateMatchReceipt(t: Tables, now: Time, user: UserId, source: RoomId, key: Key,
                              reports: seq<Reports.MatchReport>, failureReports: nat,
                              id: RoomId, code: Code): Response
  {
    if (user, key) in t.results then Response(t, Done)
    else if source !in t.rooms || user !in t.rooms[source].members || t.rooms[source].state != Finished then
      Deny(t, Conflict)
    else if !EvidenceVerifies(reports, failureReports) then Deny(t, Conflict)
    else if (source, user) in t.receipts then Deny(t, Conflict)
    else if id in t.rooms || code in t.invites then Deny(t, Internal)
    else
      var game := t.rooms[source].game;
      var rooms := DisposeWaiting(t.rooms, user, game, None, LeaveAttempt);
      Response(t.(rooms := rooms[id := NewRoom(user, game, Waiting, now + 24 * HOUR)],
                  invites := t.invites[code := Invite(id, now + 15 * MINUTE, false)],
                  receipts := t.receipts + {(source, user)},
                  results := t.results + {(user, key)}), Done)
  }

  // ---- the deadline reconciler ----------------------------------------------------------

  predicate RoomExpired(room: Room, now: Time) {
    Live(room.state) && room.state != Ready && room.deadline.Some? && room.deadline.value <= now
  }

  function ExpiredRooms(t: Tables, now: Time): set<RoomId> {
    set id | id in t.rooms && RoomExpired(t.rooms[id], now)
  }

  function ExpiredChallenges(t: Tables, now: Time): set<ChallengeId> {
    set c | c in t.challenges && t.challenges[c].state == Pending && t.challenges[c].expiresAt <= now
  }

  /** The rows a pass may lock: expired ones, at most a batch (locked rows are skipped). */
  predicate IsBatch(t: Tables, now: Time, rooms: set<RoomId>, challenges: set<ChallengeId>) {
    && rooms <= ExpiredRooms(t, now) && |rooms| <= RECONCILE_BATCH_SIZE
    && challenges <= ExpiredChallenges(t, now) && |challenges| <= RECONCILE_BATCH_SIZE
  }

  function Reconciled(room: Room): Room {
    room.(state := Cancelled, deadline := None, attempt := Closed(room.attempt, Expired, None),
          participants := AllEnded(room.participants))
  }

  function WithExpired(challenges: map<ChallengeId, Challenge>, ids: set<ChallengeId>): map<ChallengeId, Challenge> {
    map c | c in challenges :: if c in ids then challenges[c].(state := ChallengeExpired) else challenges[c]
  }

  function WithReconciled(rooms: map<RoomId, Room>, ids: set<RoomId>): map<RoomId, Room> {
    map id | id in rooms :: if id in ids then Reconciled(rooms[id]) else rooms[id]
  }

  function ReconcileExpired(t: Tables, rooms: set<RoomId>, challenges: set<ChallengeId>): Tables {
    t.(rooms := WithReconciled(t.rooms, rooms),
       challenges := WithChallengesOf(WithExpired(t.challenges, challenges), rooms, ChallengeExpired))
  }

  // ---- all transactions -----------------------------------------------------------------

  datatype Op =
    | OpCreateRoom(user: UserId, game: string, maxPlayers: int, id: RoomId)
    | OpAcceptRoom(user: UserId, id: RoomId)
    | OpCancelRoom(user: UserId, id: RoomId)
    | OpDeclineRoom(user: UserId, id: RoomId)
    | OpCreateChallenge(user: UserId, challenged: UserId, game: string, id: RoomId, cid: ChallengeId)
    | OpAcceptChallenge(user: UserId, cid: ChallengeId)
    | OpResolveChallenge(user: UserId, cid: ChallengeId, cancel: bool)
    | OpCreateInvite(user: UserId, id: RoomId, code: Code)
    | OpJoinInvite(user: UserId, code: Code)
    | OpSubmitPreflight(user: UserId, id: RoomId, preflight: Preflight)
    | OpReady(user: UserId, id: RoomId)
    | OpCreateGrant(user: UserId, id: RoomId, endpointsUsable: bool, campaign: bool, token: Token)
    | OpConsumeGrant(user: UserId, token: Token)
    | OpLaunch(user: UserId, id: RoomId)
    | OpExit(user: UserId, id: RoomId)
    | OpReceipt(user: UserId, source: RoomId, key: Key, reports: seq<Reports.MatchReport>, failureReports: nat,
                id: RoomId, code: Code)
    | OpReconcile(rooms: set<RoomId>, expired: set<ChallengeId>)

  function Apply(t: Tables, now: Time, op: Op): Response {
    match op
    case OpCreateRoom(user, game, maxPlayers, id) => CreateRoom(t, now, user, game, maxPlayers, id)
    case OpAcceptRoom(user, id) => AcceptRoom(t, now, user, id)
    case OpCancelRoom(user, id) => ChangeRoomState(t, user, id, Cancel)
    case OpDeclineRoom(user, id) => ChangeRoomState(t, user, id, Decline)
    case OpCreateChallenge(user, challenged, game, id, cid) => CreateChallenge(t, now, user, challenged, game, id, cid)
    case OpAcceptChallenge(user, cid) => AcceptChallenge(t, now, user, cid)
    case OpResolveChallenge(user, cid, cancel) => ResolveChallenge(t, now, user, cid, cancel)
    case OpCreateInvite(user, id, code) => CreateInvite(t, now, user, id, code)
    case OpJoinInvite(user, code) => JoinInvite(t, now, user, code)
    case OpSubmitPreflight(user, id, preflight) => SubmitPreflight(t, now, user, id, preflight)
    case OpReady(user, id) => ReadyToLaunch(t, now, user, id)
    case OpCreateGrant(user, id, usable, campaign, token) => CreateLaunchGrant(t, now, user, id, usable, campaign, token)
    case OpConsumeGrant(user, token) => ConsumeLaunchGrant(t, now, user, token)
    case OpLaunch(user, id) => ConfirmNativeLaunch(t, now, user, id)
    case OpExit(user, id) => ConfirmNativeExit(t, user, id)
    case OpReceipt(user, source, key, reports, failures, id, code) =>
      CreateMatchReceipt(t, now, user, source, key, reports, failures, id, code)
    case OpReconcile(rooms, expired) =>
      if IsBatch(t, now, rooms, expired) then Response(ReconcileExpired(t, rooms, expired), Done) else Response(t, Done)
  }
}
