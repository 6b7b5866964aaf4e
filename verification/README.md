# OpenCade verification model

OpenCade lets two players meet in a room, prove over the network that both emulators stay in step, and launch a
match together. This project models the parts of it that must agree without trusting each other, and proves what
they promise.

* **The match probe** (`Probe`, `ProbeNetwork`, `InMemoryProof`, `Fnv`, `Reports`). Each side exchanges one input
  frame at a time, retries, answers stale frames and lingers for a lagging peer. The loops of the code are methods
  proved equal to a state machine; two such machines then run over a network that loses, duplicates and reorders
  packets, and again over the bounded lossless queue of the in-process proof. The results go through the transcript
  checksum and the report verifier to an end-to-end statement.
* **The room lifecycle** (`RoomStates`, `RoomTables`, `RoomInvariants`, `RoomLinks`, `RoomRuns`, `RoomHistory`,
  `RoomVerdicts`, `RoomAuthority`, `RoomDeadlines`, `RoomReconciler`, `ChallengeLimit`, `RoomContracts`, `RoomServer`).
  `RoomTables` computes the effect of each committed transaction on the tables; `RoomServer.Database` is the handlers as
  written, statement after statement over mutable tables, each proved to have that effect; `RoomContracts` says apart
  from both what each request asks for and which rows it changes. Invariants, histories and the deadline reconciler are
  proved for every run.
* **The relay** (`Utf8`, `Tickets`, `TicketGate`, `RelayRegistry`, `RelayRuns`, `RelayLimit`). Signed tickets, the
  table of used nonces and its cleanup, the connection registry under interleaved joins, replacements and clean-ups,
  and the per-connection rate limit.
* **Codecs and counting** (`Stun`, `Campaign`, `SlidingWindow`, `RateLimits`, `TestCore`). The STUN response parser
  (RFC 8489), the alpha campaign summary, the sliding-window limiters against the full history, and the libretro test
  core's picture and save states.

Times are integers, ids and tokens are numbers drawn by the caller, and concurrency is interleaving: a schedule is a
sequence of steps and every theorem about runs holds for all of them. A committed transaction is one step. Quantities
that wrap or saturate in the code (64-bit hashes and expiries, 32-bit pixels, saturating counters) do so here.

Four facts of the code shape the statements. `resolve_challenge` writes CANCELLED without looking at the room's state
(`apps/server/src/routes/challenges.rs:370`), and `accept_room` takes a room out of an open challenge without settling
it (`apps/server/src/routes/rooms.rs:263`); so the state machine is followed by all changes but one, which
`RoomRuns.ChangesAreEdgesExactlyWhen` pins down and `RoomRuns.AFinishedMatchCanBeCancelled` exhibits.
`create_match_receipt` cancels a waiting room without closing its attempt (`apps/server/src/routes/alpha.rs:437`), so
live rooms have an active attempt but not conversely. `create_challenge` counts a player's challenges without a lock
(`apps/server/src/routes/challenges.rs:100`), so the limit of ten is exact only for requests that do not overlap. The
comment in `crates/proof-of-match/src/lib.rs:24-27` cites other lines of `probe.rs` for the hash constants than the ones
that hold them (323-324); the values agree.

## Model

| member | source | states |
|---|---|---|
| `Fnv.AbsorbIsABijection` | packages/networking/src/probe.rs:326-340 | absorbing a byte is a one-to-one map of 64-bit states, undone by multiplying with the inverse of the FNV prime |
| `Fnv.FoldKeepsStatesApart` | packages/networking/src/probe.rs:326-340 | two checksums that differ stay different, and equal ones equal, under any common continuation |
| `Fnv.OneByteDifferenceIsDetected` | packages/networking/src/probe.rs:323-340 | equal-length transcripts that differ in exactly one byte never share a checksum |
| `Fnv.TestVectors` | packages/networking/src/probe.rs:323-340 | the checksum of nothing and of "a" are those published for 64-bit FNV-1a |
| `Fnv.HexIsCanonical` | packages/networking/src/probe.rs:218 | the printed checksum is always 16 lowercase hexadecimal digits, which is what the report verifier demands |
| `Fnv.HexIsInjective` | packages/networking/src/probe.rs:218 | two prints are equal exactly when the checksums are |
| `Probe.MatchProbeConfig.New` | packages/networking/src/probe.rs:39-78 | an accepted configuration is kept as given, and within the frame-count bounds one is accepted exactly when descriptor, transport, session key and timeout are valid |
| `Probe.ConfigurationsAreMadeExactlyWhen` | packages/networking/src/probe.rs:39-78 | a configuration is made exactly within the written-out bounds of descriptor, transport, key, 1 to 10,000 frames and a timeout |
| `Probe.ValidConfigsBuildEveryFrame` | packages/networking/src/probe.rs:311-321 | an accepted configuration can build every one of its frames, so a probe never fails on its own input |
| `Probe.UpdateTranscriptChecksum` | packages/networking/src/probe.rs:326-340 | the checksum absorbs host before guest, whichever side computes it |
| `Probe.RunMatchProbe` | packages/networking/src/probe.rs:140-224 | the nested exchange and linger loops, with every early return, send and answer exactly as the state machine does turn by turn |
| `Probe.RunStopsWhenEnded` | packages/networking/src/probe.rs:140-224 | once a probe has returned, no later packet or timeout changes what it reported or sent |
| `Probe.MismatchExactlyWhen` | packages/networking/src/probe.rs:247-267 | a waiting probe ends with a mismatch exactly on a datagram of another room, session or player or with an oversized input, and then sends nothing; hole punches change nothing |
| `Probe.EndingsAre` | packages/networking/src/probe.rs:160-309 | out of time before its last frame a probe fails with the frames it has, after it the report names the match, both users, its sends and receives and its checksum; a transport fault ends it in either phase |
| `ProbeNetwork.RunsKeepInv` | packages/networking/src/probe.rs:140-309 | every schedule keeps the invariant and both checksums equal to the canonical transcript of the frames absorbed |
| `ProbeNetwork.Safety` | packages/networking/src/probe.rs:140-309 | over a network that loses, duplicates and reorders, counters stay within one of each other, every packet in flight is its sender's genuine frame, checksums are canonical and no side sees a peer mismatch |
| `ProbeNetwork.CompletedProbesAgree` | packages/networking/src/probe.rs:210-224 | a completed probe's checksum depends on the frame count alone, so two completed probes agree under every schedule; sends are never fewer than receives |
| `ProbeNetwork.TranscriptIs` | packages/networking/src/probe.rs:311-338 | the canonical transcript holds frame numbers modulo four, the guest's two ahead of the host's, host first |
| `ProbeNetwork.LaggingPeersAreAnswered` | packages/networking/src/probe.rs:182-304 | while it exchanges or lingers, a probe answers every frame it does not wait for with its own of that number, or its latest, counted in its sends also when the network loses it; in the grace period too no lagging peer is left without |
| `ProbeNetwork.SilenceIsAnswered` | packages/networking/src/probe.rs:168-289 | a timeout or an unavailable peer makes a probe repeat its latest frame, in the exchange and in the grace period |
| `ProbeNetwork.ProbesBeginWithFrameZero` | packages/networking/src/probe.rs:149-156 | a probe begins by sending its frame 0 and counting it |
| `ProbeNetwork.AwaitedFramesAdvance` | packages/networking/src/probe.rs:197-210 | the awaited frame is hashed host's byte first and opens the next frame, which is sent, or after the last one the grace period, in which nothing is sent unasked |
| `ProbeNetwork.AdvanceByStaleAnswer` | packages/networking/src/probe.rs:182-304 | a side behind, also behind a lingering peer, advances within three steps on that peer's answers alone, without a timeout of it |
| `ProbeNetwork.LaggingSideCanAdvance` | packages/networking/src/probe.rs:167-204 | no loss pattern deadlocks the exchange: at most three retries and deliveries advance the lagging side |
| `ProbeNetwork.ExchangeCanComplete` | packages/networking/src/probe.rs:140-309 | from every live state some schedule of at most three steps per missing frame and two more, the ends of the grace periods, leaves both probes returned with all frames |
| `ProbeNetwork.ProgressIsPossibleExactlyWhen` | packages/networking/src/probe.rs:9-12 | a waiting probe can still progress if and only if its peer has not stopped or its frame is already in flight: why the completion grace period exists |
| `ProbeNetwork.OrphanNeverAdvances` | packages/networking/src/probe.rs:140-309 | a probe whose peer stopped with nothing in flight never advances, under any schedule |
| `ProbeNetwork.SidesRunTheLoop` | packages/networking/src/probe.rs:140-309 | each side of the network model is the probe loop run on that side's own turns |
| `InMemoryProof.InputQueue.TrySend` | packages/networking/src/lib.rs:199-204 | a frame is queued at the back unless 120 are waiting, which is backpressure and changes nothing |
| `InMemoryProof.InputQueue.TryReceive` | packages/networking/src/lib.rs:206-209 | frames leave in the order they were queued |
| `InMemoryProof.DriveSide` | crates/proof-of-match/src/lib.rs:192-261 | the nested send and receive loops send and conclude exactly as the step machine does; SidesRunTheLoop says which queue answers they get |
| `InMemoryProof.DriveReactionsAre` | crates/proof-of-match/src/lib.rs:192-261 | what a driving side does with each wake: a retry repeats its latest frame, other frames of the peer are answered with its own of that number or its latest, the awaited one is hashed and opens the next or ends the side after the sixtieth, a full queue or a deadline stops it |
| `InMemoryProof.SidesRunTheLoop` | crates/proof-of-match/src/lib.rs:130-143 | in every run of the joined tasks each side is where its loop is after its own turns, a send being refused exactly when its own outgoing queue was full |
| `InMemoryProof.SentIsReceivedOrQueued` | packages/networking/src/lib.rs:199-209 | in every run what a side sent is, in order, what its peer has received and then what is still queued |
| `InMemoryProof.JoinTasks` | crates/proof-of-match/src/lib.rs:130-143 | the two tasks over two queue objects, woken in any order, leave the drives and queues the run theorems speak of |
| `InMemoryProof.LosslessOrder` | crates/proof-of-match/src/lib.rs:130-261 | in every run, also when one side stopped and the other runs on, frames in flight are sides started plus retries minus sides finished or refused, the branch for a frame from the future is unreachable, and a finished side holds sixty frames and the canonical checksum |
| `InMemoryProof.NoBackpressure` | crates/proof-of-match/src/lib.rs:31-32 | with at most 118 retries no send meets a full queue, under any schedule |
| `InMemoryProof.OneMoreRetryOverflows` | packages/networking/src/lib.rs:34 | 118 is exact: a schedule with 119 retries does stop a side with backpressure |
| `InMemoryProof.ProofsFinishWithoutRetries` | crates/proof-of-match/src/lib.rs:130-261 | every run without retries from the start has at most 122 steps, can go on exactly while it has fewer, and ends with both sides complete after exactly sixty sends each |
| `Reports.VerificationIsSymmetric` | packages/networking/src/report.rs:388-491 | two reports verify exactly when each is well-formed, they agree and have opposite roles; order does not matter |
| `Reports.ProofIsNeverRejected` | crates/proof-of-match/src/lib.rs:94-184 | whatever the schedule, a proof whose two sides finish is verified; a verification error is unreachable |
| `Reports.CompletedProbesVerify` | packages/networking/src/report.rs:388-423 | two completed sixty-frame probes of one match always produce evidence the verifier accepts |
| `RoomStates.EdgesAre` | apps/server/src/room_state.rs:19-36 | the edges written out: one stage forward, or from any live state to cancelled |
| `RoomInvariants.StepKeepsRooms` | apps/server/src/routes/rooms.rs:114-936 | every transaction keeps each room's stage, members, processes, preflights, barrier, deadline and attempt lawful, and undoes nothing |
| `RoomLinks.WaitingStep` | apps/server/migrations/008_match_lifecycle.sql:102-104 | a host waits in at most one room for one game, through every handler, so the unique index is never violated by a serial run |
| `RoomLinks.StepKeepsInv` | apps/server/src/routes/rooms.rs:114-936 | the rooms, challenges, grants and invites stay consistent with each other through every transaction of every handler |
| `RoomRuns.RunsKeepInv` | apps/server/src/routes/rooms.rs:114-936 | the whole lifecycle invariant holds after every run of committed transactions |
| `RoomRuns.NothingIsUndone` | apps/server/src/routes/rooms.rs:857-932 | between any two points of a run cancelled rooms stay cancelled, settled attempts keep their verdict, hosts, games and members stay, ended processes never restart |
| `RoomRuns.ChangesAreEdgesExactlyWhen` | apps/server/src/routes/challenges.rs:347-383 | every committed room-state change is an edge of the state machine or a stutter, except exactly when a pending challenge is resolved on a finished room |
| `RoomRuns.AFinishedMatchCanBeCancelled` | apps/server/src/routes/challenges.rs:370-373 | the exception is reachable: a user who entered by accept_room can decline the challenge after the match, and the finished room becomes cancelled with its attempt succeeded |
| `RoomRuns.ChallengesStayPending` | apps/server/src/routes/rooms.rs:226-300 | once accept_room leaves open challenges alone, a pending challenge's room is always challenging |
| `RoomRuns.RunsFollowTheStateMachine` | apps/server/src/room_state.rs:19-36 | under that restriction every change of every run is an edge or a stutter |
| `RoomVerdicts.VerdictsHaveCauses` | apps/server/src/routes/rooms.rs:737-930 | every verdict of a reachable state was given by one step of the run, of the kind that gives it, to an attempt still open |
| `RoomVerdicts.VerdictsExactlyWhen` | apps/server/src/routes/rooms.rs:756-818 | in every run an attempt has failed exactly when an exit found its room connecting, succeeded exactly when the last running process was reported ended in play, and expired exactly when a pass took its room overdue |
| `RoomVerdicts.SuccessesWerePlayedOut` | apps/server/src/routes/rooms.rs:770-818 | in every reachable state a succeeded attempt belongs to a finished or cancelled room whose two members both ran the match and ended it |
| `RoomAuthority.OutsidersChangeNothing` | apps/server/src/routes/rooms.rs:866-882 | apart from the reconciler and the two users of its own challenge, whoever changes a room is one of its members |
| `RoomHistory.GrantsHaveHistory` | apps/server/src/routes/rooms.rs:448-592 | every grant row was issued to that user while that room was connecting, for ninety seconds, and was consumed only after that |
| `RoomHistory.ParticipantsHaveHistory` | apps/server/src/routes/rooms.rs:594-655 | every process a match ran had a grant of its own user and room, issued while connecting, then consumed, then used within ninety seconds |
| `RoomHistory.GrantsAreConsumedOnce` | apps/server/src/routes/rooms.rs:566-578 | with randomly drawn tokens each grant is consumed at most once in a run |
| `RoomHistory.ParticipantsOwnTheirGrants` | apps/server/src/routes/rooms.rs:448-663 | each process has a grant issued to its user and room while connecting, consumed by one step only and launched within ninety seconds; no two processes share the grant, its consumption or its launch |
| `RoomHistory.FutureBarriersStand` | apps/server/src/routes/alpha.rs:289-310 | a barrier still ahead is removed by a new preflight and moved by nothing, repeated ready calls included |
| `RoomHistory.BarriersHaveHistory` | apps/server/src/routes/alpha.rs:264-327 | a standing barrier was set by one ready call five seconds before its time, and no preflight came since |
| `RoomHistory.CampaignGrantsWaitForTheBarrier` | apps/server/src/routes/rooms.rs:483-502 | every campaign-mode grant comes at least five seconds after the ready call that set the barrier, over two ready and matching preflights |
| `RoomHistory.TenChallengesPerTenMinutes` | apps/server/src/routes/challenges.rs:101-113 | nobody opens more than ten challenges in any ten minutes of any run of whole transactions |
| `ChallengeLimit.OverlapBoundsTheRows` | apps/server/src/routes/challenges.rs:99-183 | when requests of a player interleave between count and insert, at most k of them at a time, ten minutes hold at most nine rows and k, whatever the clocks say |
| `ChallengeLimit.LimitHoldsExactlyWhen` | apps/server/src/routes/challenges.rs:99-183 | the promised ten are kept by every interleaving if and only if no two requests of the player overlap: for each greater overlap a run reaches nine and k |
| `RoomHistory.ReceiptsAreIdempotent` | apps/server/src/routes/alpha.rs:335-353 | a receipt request repeated under its key succeeds at any later time and changes nothing |
| `RoomHistory.OneReceiptPerPlayerAndMatch` | apps/server/src/routes/alpha.rs:329-435 | a player gets one continuation receipt per match, whatever keys are tried, and only on two well-formed, agreeing, playable reports over one route without any failure report |
| `RoomDeadlines.DeadlinesAreBounded` | apps/server/src/lifecycle.rs:82-115 | no live room's deadline is ever further ahead than its stage allows: 24 hours waiting, 5 minutes challenging, 2 minutes connecting, 4 hours playing |
| `RoomDeadlines.IdleServersEmpty` | apps/server/src/lifecycle.rs:64-121 | no room stays live for ever: a day after the last transaction enough passes leave no live room |
| `RoomDeadlines.InvitesAdmitOnce` | apps/server/src/routes/alpha.rs:81-182 | an invite code admits one player, once |
| `RoomDeadlines.InvitesAdmitUntilTheyExpire` | apps/server/src/routes/alpha.rs:35-182 | on the tables its creation leaves, an invite lets in any player but the host until its fifteen minutes are over |
| `RoomReconciler.OverdueRoomsAreGoneExactlyWhen` | apps/server/src/lifecycle.rs:64-121 | n overdue rooms are gone exactly after as many passes as n needs at 250 a pass |
| `RoomReconciler.OldestDeadlinesGoFirst` | apps/server/src/lifecycle.rs:86-88 | an earlier pass never takes a later deadline |
| `RoomReconciler.AfterwardsDeadlinesAreAhead` | apps/server/src/lifecycle.rs:82-90 | after those passes every live room has its deadline ahead |
| `RoomReconciler.ABatchTimesOut` | apps/server/src/lifecycle.rs:64-121 | one transaction: each room taken is cancelled without a deadline, its open attempt expired, every process of it recorded as ended, its players and preflights kept; its pending challenges and those taken expire; nothing else changes |
| `RoomReconciler.PassesTimeOut` | apps/server/src/lifecycle.rs:64-121 | the same over any number of passes, for exactly the rooms and challenges taken, all of which were overdue at the start |
| `RoomReconciler.OverdueChallengesAreGone` | apps/server/src/lifecycle.rs:66-79 | overdue challenges are gone after as many passes as they need at 250 a pass |
| `RoomContracts.RefusalsChangeNothing` | apps/server/src/routes/rooms.rs:114-936 | a refused request of any kind leaves all tables as they were |
| `RoomContracts.DisposalsAre` | apps/server/src/routes/challenges.rs:121-134 | exactly the user's other waiting rooms of the game are cancelled, their open attempts with them except where the receipt handler leaves them; who was in them is kept |
| `RoomContracts.AcceptingARoom` | apps/server/src/routes/rooms.rs:226-300 | a guest is let in exactly while the room is open and not full, with two minutes to connect; asking again is harmless |
| `RoomContracts.LeavingARoom` | apps/server/src/routes/rooms.rs:857-932 | any member of a live room ends it, with its pending challenges, open attempt and every recorded process |
| `RoomContracts.PreflightsMatchExactlyWhen` | apps/server/src/routes/alpha.rs:650-686 | two players with one setup, free ports, controllers and the slots 1 and 2 |
| `RoomContracts.DeclaringReady` | apps/server/src/routes/alpha.rs:264-327 | readiness changes for the caller alone, and with both ready the barrier is set five seconds ahead unless one still is |
| `RoomContracts.ConfirmingALaunch` | apps/server/src/routes/rooms.rs:594-717 | a launch needs a consumed grant in time and uses up exactly the user's grants for the room; the second process starts four hours of play |
| `RoomContracts.ConfirmingAnExit` | apps/server/src/routes/rooms.rs:719-836 | an exit ends the caller's process alone; before play it fails the attempt, and in play exactly the last one finishes the room and makes it a success |
| `RoomContracts.EvidenceVerifiesExactlyWhen` | apps/server/src/routes/alpha.rs:389-427 | evidence counts exactly when there is no failure report and two well-formed, agreeing reports of opposite roles, both with compatibility and one native route |
| `RoomContracts.IssuingAReceipt` | apps/server/src/routes/alpha.rs:329-525 | a new receipt is given exactly for a finished match of the caller's with such evidence and no receipt yet, and otherwise refused as a conflict with nothing changed |
| `RoomServer.Database.CreateRoom` | apps/server/src/routes/rooms.rs:114-215 | a repeated request finds the host's waiting room of that game and changes nothing; otherwise success adds the one new room and leaves every other row alone |
| `RoomServer.Database.AcceptRoom` | apps/server/src/routes/rooms.rs:226-300 | membership, state, room deadline and attempt deadline change together for a guest of a joinable room, and nothing changes in any refused case |
| `RoomServer.Database.ChangeRoomState` | apps/server/src/routes/rooms.rs:857-932 | cancelling or declining settles the room's pending challenges, closes its attempt and ends its processes in the same transaction, for members of live rooms only |
| `RoomServer.Database.CreateChallenge` | apps/server/src/routes/challenges.rs:70-198 | overdue challenges expire and the challenger's waiting rooms go before the insert, and a pending challenge of the pair or a used id takes all of it back |
| `RoomServer.Database.AcceptChallenge` | apps/server/src/routes/challenges.rs:242-329 | only the challenged user moves the challenge and its room on, the accepter's own waiting rooms are cancelled, and every other pending challenge is left |
| `RoomServer.Database.ResolveChallenge` | apps/server/src/routes/challenges.rs:347-416 | the right one of the two users settles a pending challenge, and its room is cancelled whatever its stage |
| `RoomServer.Database.CreateInvite` | apps/server/src/routes/alpha.rs:35-79 | success is exactly the one new code, for fifteen minutes into the caller's waiting room; no other code or table changes |
| `RoomServer.Database.JoinInvite` | apps/server/src/routes/alpha.rs:81-182 | the guest's own waiting rooms of the game are cancelled, the guest joins and the code is used up, or a late refusal takes all of it back |
| `RoomServer.Database.SubmitPreflight` | apps/server/src/routes/alpha.rs:184-253 | the caller's preflight is replaced, unready, and the barrier removed, only for the right slot of a live attempt |
| `RoomServer.Database.ReadyToLaunch` | apps/server/src/routes/alpha.rs:264-327 | readiness needs two matching preflights, and the second ready player sets a barrier unless one is ahead |
| `RoomServer.Database.CreateLaunchGrant` | apps/server/src/routes/rooms.rs:448-556 | a member of a connecting room of two gets a ninety-second grant and the attempt more time, in campaign mode only once the barrier has passed |
| `RoomServer.Database.ConsumeLaunchGrant` | apps/server/src/routes/rooms.rs:558-592 | success is exactly the caller's own, unexpired, unused grant, of which one flag changes and nothing else, after which no request can consume it |
| `RoomServer.Database.ConfirmNativeLaunch` | apps/server/src/routes/rooms.rs:594-717 | a launch needs a consumed grant, which it uses up; a repeated one changes nothing and the second process starts play |
| `RoomServer.Database.ConfirmNativeExit` | apps/server/src/routes/rooms.rs:719-836 | an exit ends the caller's process, fails the attempt before play and finishes the match when it is the last |
| `RoomServer.Database.CreateMatchReceipt` | apps/server/src/routes/alpha.rs:329-525 | a verified match yields one new waiting room, invite and receipt, the caller's other waiting room being cancelled, or nothing at all |
| `RoomServer.Database.Serve` | apps/server/src/routes/rooms.rs:114-936 | one request of any kind keeps the lifecycle invariant of the mutable tables |
| `RoomServer.Database.ReconcileExpired` | apps/server/src/lifecycle.rs:64-121 | one pass over the mutable tables locks the oldest overdue rooms, at most 250, and has the effect of a full pass |
| `RoomServer.Database.Drain` | apps/server/src/lifecycle.rs:14-27 | repeating the pass ends with no overdue room |
| `RoomServer.TakeOldest` | apps/server/src/lifecycle.rs:86-88 | ordering by deadline and taking a limit selects the smaller of the limit and all, none later than one left behind |
| `Tickets.ClaimsAreRead` | packages/shared/src/lib.rs:130-144 | a reader of the signed bytes recovers room, user, expiry, capability and nonce, whatever colons, digits or signs they hold |
| `Tickets.ClaimsAreInjective` | packages/shared/src/lib.rs:130-144 | signed bytes are equal exactly when all claims are |
| `Tickets.IssuedTicketsVerifyExactlyWhen` | packages/shared/src/lib.rs:58-98 | an issued ticket verifies exactly from 300 seconds before its expiry until it, and otherwise fails with the right error |
| `Tickets.LifetimeIsExactExactlyWhen` | packages/shared/src/lib.rs:83-85 | the lifetime test is exact for any clock value exactly when the 64-bit subtraction does not wrap |
| `Tickets.TamperingIsRejected` | packages/shared/src/lib.rs:78-98 | with a collision-free keyed hash a ticket carrying an issued signature, in any spelling, verifies exactly when its claims are the issued ones and the clock is in their window |
| `TicketGate.Gate.Upgrade` | services/relay/src/main.rs:151-178 | one upgrade verifies, inserts and admits exactly when the nonce was not in the table |
| `TicketGate.Gate.CleanUp` | services/relay/src/main.rs:99-116 | a nonce is held afterwards exactly when it was and has not expired, with its expiry kept |
| `TicketGate.HeldExactlyWhen` | services/relay/src/main.rs:99-178 | in any run a nonce is held from its last use, under that ticket's expiry, exactly until a cleanup past it |
| `TicketGate.AdmittedExactlyWhen` | services/relay/src/main.rs:99-178 | in any run of any tickets an upgrade is admitted exactly when its ticket verifies and its nonce is unused or a cleanup found the last ticket that used it expired |
| `TicketGate.SharedNoncesAreAdmittedTwice` | services/relay/src/main.rs:151-175 | the table alone does not make tickets single-use: of two issued tickets with one nonce the refused shorter one lets the longer one in again after a cleanup between their expiries |
| `TicketGate.AdmissionIsFirstUse` | services/relay/src/main.rs:99-178 | where tickets that share a nonce expire together, a ticket is admitted exactly when it verifies and its nonce never came with a verifying ticket before, although the table forgets |
| `TicketGate.NoncesAuthoriseOnce` | services/relay/src/main.rs:165-175 | there each nonce authorises at most one upgrade in a run |
| `TicketGate.IssuedTicketsAuthoriseOnce` | packages/shared/src/lib.rs:58-98 | when the issuer draws fresh nonces and nobody else can sign, every admitted ticket carries issued claims and each of those authorises one upgrade of the run |
| `RelayRegistry.Relay.Join` | services/relay/src/main.rs:218-237 | joining replaces the user's own entry or takes a free place, and is refused when two others hold the room |
| `RelayRegistry.Relay.Leave` | services/relay/src/main.rs:371-377 | clean-up removes the entry only while it is still this connection's |
| `RelayRegistry.Relay.Prune` | services/relay/src/main.rs:378 | a room is removed exactly when it is empty, every other stays, and no registration is lost |
| `RelayRegistry.Relay.Broadcast` | services/relay/src/main.rs:190-203 | a frame is offered to every peer of the room but its sender, and the count is of those whose queue took it |
| `RelayRuns.StepsKeepInv` | services/relay/src/main.rs:205-382 | joins, replacements, clean-ups and prunes in any order keep the registry equal to the current connections |
| `RelayRuns.RelayIsSafe` | services/relay/src/main.rs:205-382 | under every interleaving a room holds at most two users, a connection is registered exactly while it serves unreplaced, and no room outlives its connections |
| `RelayRuns.CurrentStaysUntil` | services/relay/src/main.rs:218-237 | a current connection stays registered exactly until it leaves or its user joins there again |
| `RelayRuns.RoomKeysAreInjective` | services/relay/src/main.rs:214 | room and capability can be read back from the registry key |
| `RelayRuns.FramesReachTheOtherPeer` | services/relay/src/main.rs:190-203 | a current connection's frame reaches at most one connection: the other user's current one in the same room and capability |
| `RelayRuns.FramesReturnExactlyWhen` | services/relay/src/main.rs:190-203 | a frame comes back to its sender's user exactly when the sender was replaced and the replacement is registered |
| `RelayLimit.Limiter.ExceedsRateLimit` | services/relay/src/main.rs:384-400 | the window restarts after a second and the frame is counted in place |
| `RelayLimit.OneSecondIsBounded` | services/relay/src/main.rs:384-400 | in any one second at most 256 frames and two mebibytes pass |
| `RelayLimit.PassesExactlyWhen` | services/relay/src/main.rs:384-400 | after frames that passed, one is cut off exactly when it is the 129th of its window or takes it past one mebibyte |
| `Stun.BindingRequest` | packages/networking/src/stun.rs:84-90 | the request is a 20-byte header of type 1, no attributes, the magic cookie and the transaction id |
| `Stun.ReadAddress` | packages/networking/src/stun.rs:151-190 | an address is read, masked in place when asked, as the format defines it |
| `Stun.AddressRoundTrip` | packages/networking/src/stun.rs:151-190 | every IPv4 and IPv6 address and port reads back from its plain and its masked encoding |
| `Stun.AddressesAreReadExactlyWhen` | packages/networking/src/stun.rs:151-190 | a value is read as an address exactly when it is that address's encoding |
| `Stun.MasksAre` | packages/networking/src/stun.rs:151-190 | the port is masked with 0x2112 and each octet with the cookie and then the transaction id, or not at all |
| `Stun.WalkAttributes` | packages/networking/src/stun.rs:117-148 | for arbitrary bytes the walk's answer, and its cursor's positions: after the header, aligned, in bounds, growing, and ending exactly at the declared end or else just where an attribute ends the walk |
| `Stun.ReadBindingResponse` | packages/networking/src/stun.rs:92-149 | every input gets the result or the error the format prescribes |
| `Stun.OnlyAnswersAreRead` | packages/networking/src/stun.rs:92-149 | for arbitrary bytes: exactly a success response with this request's transaction id, the cookie and an aligned length that is there is read, as the meaning of the attributes of its declared body |
| `Stun.HeaderRefusalsAre` | packages/networking/src/stun.rs:92-116 | anything else gets the refusal of the first header test it fails, byte by byte |
| `Stun.DecodedBodiesEncodeBack` | packages/networking/src/stun.rs:117-145 | any aligned bytes are exactly the encoding of the attributes read from them followed by the rest where one overruns |
| `Stun.ResponsesParseToTheirMeaning` | packages/networking/src/stun.rs:92-149 | every well-formed response parses to the meaning of its attribute list, whatever follows it |
| `Stun.WalkMeansItsAttributes` | packages/networking/src/stun.rs:117-148 | for arbitrary aligned bytes the walk is the meaning of the attributes that are there and of the rest that follows them |
| `Stun.FirstMaskedDecides` | packages/networking/src/stun.rs:134-136 | the first masked address is the answer, readable or not, after any attributes the walk goes on from |
| `Stun.LastPlainCounts` | packages/networking/src/stun.rs:137-139 | without one the last plain address is the answer, and a plain one that cannot be read ends the walk at once |
| `Stun.OverrunsAreRefused` | packages/networking/src/stun.rs:126-133 | an attribute longer than what is left spoils a response that nothing decided before |
| `Stun.MappedAddressRoundTrip` | packages/networking/src/stun.rs:134-136 | a masked address is found after any readable attributes and before any others |
| `Stun.PlainAddressRoundTrip` | packages/networking/src/stun.rs:137-139 | the last plain address is found where no masked one is |
| `Campaign.SummarizeCampaignEvidence` | packages/networking/src/report.rs:182-294 | the grouping and counting loops give the summary that counts distinct rooms, its success rate and its gate |
| `Campaign.SummaryIs` | packages/networking/src/report.rs:182-294 | reports, distinct rooms, verified and failed ones, the ratio, the gate and the failed rooms, each counted from the reports |
| `Campaign.RowsAre` | packages/networking/src/report.rs:231-262 | each row counts the rooms with a report under its key and those of them that verified, and every reported key has a row |
| `Campaign.RowsTellReportsApart` | packages/networking/src/report.rs:352-386 | reports share a row exactly when game, platform, transport, mapping state and candidate agree |
| `Campaign.FailedRoomsShow` | packages/networking/src/report.rs:296-350 | mixed evidence, unusable failure reports and differing games show their codes in that order, and otherwise the alphabetically first of the reported codes |
| `Campaign.PairsShow` | packages/networking/src/report.rs:388-490 | the code a pair of reports shows: the first fault of either, then the first mismatch between them |
| `Campaign.GateIsFourInFive` | packages/networking/src/report.rs:263-275 | the gate opens exactly for ten rooms or more of which four in five are verified |
| `Campaign.VerifiedPlusFailed` | packages/networking/src/report.rs:264-277 | every distinct room is verified or failed and not both |
| `Campaign.OrderDoesNotMatter` | packages/networking/src/report.rs:182-294 | any order of the same reports gives the same counts, gate, compatibility rows and failed rooms |
| `Campaign.VerifiedRoomsAre` | packages/networking/src/report.rs:209-228 | a room is verified exactly when it has two well-formed, agreeing, opposite reports and nobody reported failure |
| `Campaign.FailureReportsNeverHelp` | packages/networking/src/report.rs:296-321 | a failure report takes exactly its own room off the verified ones and never opens the gate in a room already counted |
| `SlidingWindow.WindowsAreBounded` | apps/server/src/ws.rs:36-51 | no window of that length, wherever it starts, holds more than the limit |
| `RateLimits.RateLimiter.Allow` | apps/server/src/ws.rs:36-51 | with a clock that never runs back a message passes exactly when fewer than 30 passed in the last ten seconds |
| `RateLimits.ThirtyMessagesPerTenSeconds` | apps/server/src/ws.rs:28-29 | in any ten seconds at most thirty messages pass |
| `RateLimits.AuthRateLimiter.CheckAt` | apps/server/src/auth_rate_limit.rs:23-50 | an attempt passes exactly when the key has fewer than the limit in the last minute by its full history and, if it has none, fewer than 4,096 keys are live |
| `RateLimits.AuthRateLimiter.Clear` | apps/server/src/auth_rate_limit.rs:52-54 | clearing forgets one key and no other |
| `RateLimits.FullExactlyWhen` | apps/server/src/auth_rate_limit.rs:27-37 | a key is refused for lack of room exactly when 4,096 other keys are live and it is not |
| `TestCore.ButtonsAreReadBack` | fixtures/libretro/opencade-test-core/opencade_test_core.c:88-104 | the pad word has exactly the bits of B, start, up, down, left and right |
| `TestCore.Core.RenderHalf` | fixtures/libretro/opencade-test-core/opencade_test_core.c:106-116 | the loops repaint exactly the half's pixels and no other |
| `TestCore.Core.Run` | fixtures/libretro/opencade-test-core/opencade_test_core.c:178-190 | after a frame every one of the 320x240 pixels is the closed form of the frame number and the two inputs |
| `TestCore.AdvancingReadsBothPads` | fixtures/libretro/opencade-test-core/opencade_test_core.c:178-184 | a frame later the counter is one further and each input is what its own player presses |
| `TestCore.PixelsAre` | fixtures/libretro/opencade-test-core/opencade_test_core.c:106-116 | every pixel in numbers: each half's colour, inverted while its player presses, under a board of 16-pixel squares that flips every thirty frames |
| `TestCore.OnePicturePerState` | fixtures/libretro/opencade-test-core/opencade_test_core.c:178-190 | a state has one picture |
| `TestCore.HalvesShowTheirOwnInput` | fixtures/libretro/opencade-test-core/opencade_test_core.c:106-116 | the halves do not interfere: a pixel tells exactly whether its own player presses anything |
| `TestCore.Core.Unserialize` | fixtures/libretro/opencade-test-core/opencade_test_core.c:202-208 | only a buffer of the exact size is restored, and then entirely |
| `TestCore.SaveDetourRestoreReplay` | fixtures/libretro/opencade-test-core/opencade_test_core.c:194-208 | save, run anything, restore and replay reaches the state of a straight run, and its picture once a frame was replayed |
| `TestCore.ResetIsAFreshStart` | fixtures/libretro/opencade-test-core/opencade_test_core.c:176-190 | whatever ran before, a reset core replays to the state of a new one and to its picture once a frame was run; until then the old picture stays |

## Left out

- Sockets, WebSocket and HTTP framing, tokio scheduling and real clocks: packets, timeouts and connection steps are schedule choices, times are arguments.
- SQL text, JSON, the HMAC, SHA-256 and UUID generation: tables are maps, the keyed hash is any function of key and message, ids are arguments; a duplicate id is the key violation it would be.
- Rows keyed by a room (attempt, members, participants, preflights, barrier) live inside the room's record, since no handler moves them; updates of them are updates of that record.
- Isolation finer than one step per transaction: handlers lock the rows they change, and the few checks made outside a lock are taken as part of the step, except the challenge count in `ChallengeLimit`.
- RoomHistory.TenChallengesPerTenMinutes: about transactions one after another; the count is not under a lock, and ChallengeLimit.LimitHoldsExactlyWhen says what overlapping ones do to it.
- RoomHistory.GrantsAreConsumedOnce: assumes that drawn grant tokens never repeat, as 256 random bits are taken to do.
- RoomHistory.ParticipantsOwnTheirGrants: assumes the same.
- TicketGate.IssuedTicketsAuthoriseOnce: assumes that drawn nonces never repeat, that nobody but the issuer makes signatures that verify, and a clock that never runs back; TicketGate.AdmittedExactlyWhen needs none of these.
- TicketGate.AdmissionIsFirstUse: assumes what TicketGate.IssuedNoncesNameTickets derives for issued tickets; TicketGate.SharedNoncesAreAdmittedTwice shows that it is needed.
- Tickets.TamperingIsRejected: assumes a collision-free keyed hash; nothing is proved about HMAC itself.
- Tickets.IssuedTicketsVerifyExactlyWhen: for clocks that count from the epoch; Tickets.LifetimeIsExactExactlyWhen says when other clock values are judged rightly.
- RateLimits.AuthRateLimiter.CheckAt: assumes instants that never run back, which the platform's monotonic clock provides; key storms from several threads are taken one call at a time.
- Campaign.SummarizeCampaignEvidence: the success rate is a real number, so the rounding of its division is not modelled, and failures and rows are maps where the code lists them in key order.
- TestCore.Core.Serialize: a saved state is the record itself, not its sixteen bytes.
- The `matches` and `room_events` tables, notifications, payloads shown to clients, tickets for rooms, telemetry and public statistics: written or read beside the lifecycle, never consulted by it.
- Endpoint syntax, invite-code syntax and the grant's copied columns: arguments say whether they pass.
- `elapsed_ms`, NAT classification and hole punching: timing or heuristics of the platform.
- The user interface, process launching, configuration, file scanning, game definitions and authentication: plumbing or single checks.
