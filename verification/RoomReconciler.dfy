/**
 The deadline reconciler on its own: repeated passes at one instant clear every overdue room,
 oldest deadline first, 250 at a time, and touch nothing else.
 */
module RoomReconciler {
  import opened Text
  import opened RoomStates
  import opened RoomTables
  import opened RoomInvariants
  import opened RoomContracts
  import RoomLinks

  datatype Batch = Batch(rooms: set<RoomId>, challenges: set<ChallengeId>)

  /** `ORDER BY state_deadline_at LIMIT 250` over the overdue rooms, none of them locked elsewhere. */
  predicate OldestRooms(t: Tables, now: Time, rooms: set<RoomId>) {
    && rooms <= ExpiredRooms(t, now)
    && |rooms| == (if |ExpiredRooms(t, now)| <= RECONCILE_BATCH_SIZE then |ExpiredRooms(t, now)| else RECONCILE_BATCH_SIZE)
    && (forall r, s :: r in rooms && s in ExpiredRooms(t, now) && s !in rooms ==>
          t.rooms[r].deadline.value <= t.rooms[s].deadline.value)
  }

  /** `ORDER BY expires_at LIMIT 250` over the overdue challenges. */
  predicate OldestChallenges(t: Tables, now: Time, challenges: set<ChallengeId>) {
    && challenges <= ExpiredChallenges(t, now)
    && |challenges| == (if |ExpiredChallenges(t, now)| <= RECONCILE_BATCH_SIZE then |ExpiredChallenges(t, now)|
                        else RECONCILE_BATCH_SIZE)
    && (forall c, d :: c in challenges && d in ExpiredChallenges(t, now) && d !in challenges ==>
          t.challenges[c].expiresAt <= t.challenges[d].expiresAt)
  }

  predicate FullPass(t: Tables, now: Time, batch: Batch) {
    OldestRooms(t, now, batch.rooms) && OldestChallenges(t, now, batch.challenges)
  }

  lemma FullPassesAreBatches(t: Tables, now: Time, batch: Batch)
    requires FullPass(t, now, batch)
    ensures IsBatch(t, now, batch.rooms, batch.challenges)
  {
    hide ExpiredRooms, ExpiredChallenges;
  }

  function Pass(t: Tables, batch: Batch): Tables {
    ReconcileExpired(t, batch.rooms, batch.challenges)
  }

  function Passes(t: Tables, batches: seq<Batch>): Tables {
    if batches == [] then t else Pass(Passes(t, batches[..|batches| - 1]), batches[|batches| - 1])
  }

  predicate FullPasses(t: Tables, now: Time, batches: seq<Batch>) {
    forall i :: 0 <= i < |batches| ==> FullPass(Passes(t, batches[..i]), now, batches[i])
  }

  lemma PassRemovesTheBatch(t: Tables, now: Time, batch: Batch)
    requires batch.rooms <= ExpiredRooms(t, now)
    ensures ExpiredRooms(Pass(t, batch), now) == ExpiredRooms(t, now) - batch.rooms
    ensures forall id :: id in t.rooms && id !in batch.rooms ==> Pass(t, batch).rooms[id] == t.rooms[id]
    ensures Pass(t, batch).rooms.Keys == t.rooms.Keys
  {
    hide AllEnded, Closed, WithChallengesOf;
  }

  lemma {:induction false} PassesShrink(t: Tables, now: Time, batches: seq<Batch>)
    requires FullPasses(t, now, batches)
    ensures var left := |ExpiredRooms(t, now)| - RECONCILE_BATCH_SIZE * |batches|;
            |ExpiredRooms(Passes(t, batches), now)| == if left > 0 then left else 0
  {
    hide ExpiredRooms, Pass;
    if batches != [] {
      var n := |batches| - 1;
      var shorter := batches[..n];
      assert forall i :: 0 <= i < n ==> shorter[..i] == batches[..i];
      PassesShrink(t, now, shorter);
      var before := ExpiredRooms(Passes(t, shorter), now);
      assert FullPass(Passes(t, shorter), now, batches[n]);
      PassRemovesTheBatch(Passes(t, shorter), now, batches[n]);
      assert |before - batches[n].rooms| == |before| - |batches[n].rooms| by {
        assert before == (before - batches[n].rooms) + batches[n].rooms;
      }
    }
  }

  /** n overdue rooms are gone after exactly the passes that n needs at 250 a pass. */
  lemma OverdueRoomsAreGoneExactlyWhen(t: Tables, now: Time, batches: seq<Batch>)
    requires FullPasses(t, now, batches)
    ensures ExpiredRooms(Passes(t, batches), now) == {} <==> (|ExpiredRooms(t, now)| + 249) / 250 <= |batches|
  {
    hide ExpiredRooms, Passes;
    PassesShrink(t, now, batches);
  }

  lemma {:induction false} PassesAre(t: Tables, now: Time, batches: seq<Batch>)
    requires FullPasses(t, now, batches)
    ensures ExpiredRooms(Passes(t, batches), now) <= ExpiredRooms(t, now)
    ensures Passes(t, batches).rooms.Keys == t.rooms.Keys
    ensures forall id :: id in t.rooms ==>
      Passes(t, batches).rooms[id]
      == if id in ExpiredRooms(t, now) && id !in ExpiredRooms(Passes(t, batches), now) then Reconciled(t.rooms[id])
         else t.rooms[id]
  {
    hide ExpiredRooms, Reconciled;
    if batches != [] {
      var n := |batches| - 1;
      var shorter := batches[..n];
      assert forall i :: 0 <= i < n ==> shorter[..i] == batches[..i];
      PassesAre(t, now, shorter);
      assert FullPass(Passes(t, shorter), now, batches[n]);
      PassRemovesTheBatch(Passes(t, shorter), now, batches[n]);
    }
  }

  // ---- what timing out means -------------------------------------------------------------------------

  /** The room is cancelled without a deadline, its open attempt expired and its processes recorded as ended. */
  predicate TimedOut(before: Room, after: Room) {
    && after.state == Cancelled && after.deadline == None && SameParty(before, after)
    && ProcessesEnded(before, after) && Judged(before.attempt, after.attempt, Expired, None)
  }

  /** A challenge that was pending is expired when it, or its room, was taken. */
  predicate ChallengeTimedOut(before: Challenge, after: Challenge, taken: bool) {
    && OnlySettled(before, after)
    && after.state == (if taken && before.state == Pending then ChallengeExpired else before.state)
  }

  /** These rooms and challenges, and the challenges of these rooms, have timed out; nothing else differs. */
  predicate ExactlyTimedOut(before: Tables, after: Tables, rooms: set<RoomId>, challenges: set<ChallengeId>) {
    && after == before.(rooms := after.rooms, challenges := after.challenges)
    && after.rooms.Keys == before.rooms.Keys && after.challenges.Keys == before.challenges.Keys
    && (forall id :: id in before.rooms ==>
          if id in rooms then TimedOut(before.rooms[id], after.rooms[id]) else after.rooms[id] == before.rooms[id])
    && (forall c :: c in before.challenges ==>
          ChallengeTimedOut(before.challenges[c], after.challenges[c],
                            c in challenges || before.challenges[c].room in rooms))
  }

  /** One transaction of the reconciler. */
  lemma ABatchTimesOut(t: Tables, now: Time, rooms: set<RoomId>, challenges: set<ChallengeId>)
    requires IsBatch(t, now, rooms, challenges)
    ensures ExactlyTimedOut(t, ReconcileExpired(t, rooms, challenges), rooms, challenges)
  {
    hide ExpiredRooms;
  }

  lemma TimingOutAddsUp(t: Tables, mid: Tables, after: Tables, rooms: set<RoomId>, challenges: set<ChallengeId>,
                        moreRooms: set<RoomId>, moreChallenges: set<ChallengeId>)
    requires ExactlyTimedOut(t, mid, rooms, challenges) && ExactlyTimedOut(mid, after, moreRooms, moreChallenges)
    requires rooms !! moreRooms
    ensures ExactlyTimedOut(t, after, rooms + moreRooms, challenges + moreChallenges)
  {
    hide TimedOut;
  }

  /** The rooms and challenges that some pass took. */
  function RoomsTaken(batches: seq<Batch>): set<RoomId> {
    set i, id | 0 <= i < |batches| && id in batches[i].rooms :: id
  }

  function ChallengesTaken(batches: seq<Batch>): set<ChallengeId> {
    set i, c | 0 <= i < |batches| && c in batches[i].challenges :: c
  }

  lemma TakenSoFar(batches: seq<Batch>)
    requires batches != []
    ensures RoomsTaken(batches) == RoomsTaken(batches[..|batches| - 1]) + batches[|batches| - 1].rooms
    ensures ChallengesTaken(batches) == ChallengesTaken(batches[..|batches| - 1]) + batches[|batches| - 1].challenges
  {
    var shorter := batches[..|batches| - 1];
    assert forall i :: 0 <= i < |shorter| ==> shorter[i] == batches[i];
  }

  /**
   After any number of passes: the rooms taken were overdue at the start and have timed out, every other
   room is as it was, and the pending challenges that were taken or whose room was taken have expired.
   */
  lemma {:induction false} PassesTimeOut(t: Tables, now: Time, batches: seq<Batch>)
    requires FullPasses(t, now, batches)
    ensures RoomsTaken(batches) <= ExpiredRooms(t, now)
    ensures ExactlyTimedOut(t, Passes(t, batches), RoomsTaken(batches), ChallengesTaken(batches))
  {
    if batches == [] {
      hide TimedOut;
    } else {
      hide ExpiredRooms, ReconcileExpired, RoomsTaken, ChallengesTaken, ExactlyTimedOut, IsBatch, FullPasses;
      var n := |batches| - 1;
      var shorter, last := batches[..n], batches[n];
      ShorterPasses(t, now, batches);
      PassesTimeOut(t, now, shorter);
      TakenSoFar(batches);
      var before := Passes(t, shorter);
      FullPassesAreBatches(before, now, last);
      ABatchTimesOut(before, now, last.rooms, last.challenges);
      OverdueAfterTimeouts(t, before, now, RoomsTaken(shorter), ChallengesTaken(shorter));
      TimingOutAddsUp(t, before, Passes(t, batches), RoomsTaken(shorter), ChallengesTaken(shorter), last.rooms,
                      last.challenges);
    }
  }

  lemma OverdueAfterTimeouts(t: Tables, after: Tables, now: Time, rooms: set<RoomId>, challenges: set<ChallengeId>)
    requires ExactlyTimedOut(t, after, rooms, challenges)
    ensures ExpiredRooms(after, now) <= ExpiredRooms(t, now) && ExpiredRooms(after, now) !! rooms
  {
  }

  // ---- overdue challenges ----------------------------------------------------------------------------

  lemma OverdueChallengesAfter(t: Tables, after: Tables, now: Time, rooms: set<RoomId>, challenges: set<ChallengeId>)
    requires ExactlyTimedOut(t, after, rooms, challenges)
    ensures ExpiredChallenges(after, now) <= ExpiredChallenges(t, now) - challenges
  {
  }

  lemma {:induction false} OverdueChallengesShrink(t: Tables, now: Time, batches: seq<Batch>)
    requires FullPasses(t, now, batches)
    ensures var left := |ExpiredChallenges(t, now)| - 250 * |batches|;
            |ExpiredChallenges(Passes(t, batches), now)| <= if left > 0 then left else 0
  {
    if batches != [] {
      hide ExpiredChallenges, ExpiredRooms, ReconcileExpired, ExactlyTimedOut, FullPasses, IsBatch;
      var n := |batches| - 1;
      var shorter, last := batches[..n], batches[n];
      ShorterPasses(t, now, batches);
      OverdueChallengesShrink(t, now, shorter);
      var before := Passes(t, shorter);
      FullPassesAreBatches(before, now, last);
      ABatchTimesOut(before, now, last.rooms, last.challenges);
      OverdueChallengesAfter(before, Passes(t, batches), now, last.rooms, last.challenges);
      var overdue := ExpiredChallenges(before, now);
      CardinalityOfAtMost(ExpiredChallenges(Passes(t, batches), now), overdue - last.challenges);
      assert overdue == (overdue - last.challenges) + last.challenges;
    }
  }

  /** n overdue challenges are gone after the passes that n needs at 250 a pass, if not before with their rooms. */
  lemma OverdueChallengesAreGone(t: Tables, now: Time, batches: seq<Batch>)
    requires FullPasses(t, now, batches) && (|ExpiredChallenges(t, now)| + 249) / 250 <= |batches|
    ensures ExpiredChallenges(Passes(t, batches), now) == {}
  {
    OverdueChallengesShrink(t, now, batches);
  }

  /** Rooms are cancelled in deadline order: an earlier pass never takes a later deadline. */
  lemma OldestDeadlinesGoFirst(t: Tables, now: Time, batches: seq<Batch>, i: nat, j: nat, r: RoomId, s: RoomId)
    requires FullPasses(t, now, batches) && i < j < |batches| && r in batches[i].rooms && s in batches[j].rooms
    ensures r in t.rooms && s in t.rooms && RoomExpired(t.rooms[r], now) && RoomExpired(t.rooms[s], now)
    ensures t.rooms[r].deadline.value <= t.rooms[s].deadline.value
  {
    hide ExpiredRooms;
    var atI, atJ := Passes(t, batches[..i]), Passes(t, batches[..j]);
    var between := batches[i..j];
    assert forall k :: 0 <= k < i ==> batches[..i][..k] == batches[..k];
    PassesAre(t, now, batches[..i]);
    assert FullPass(atI, now, batches[i]) && FullPass(atJ, now, batches[j]);
    LaterPasses(t, now, batches, i, j);
    ExpiredRoomsAre(atI, now, r);
    ExpiredRoomsAre(atI, now, s);
  }

  lemma ExpiredRoomsAre(t: Tables, now: Time, id: RoomId)
    ensures id in ExpiredRooms(t, now) <==> id in t.rooms && RoomExpired(t.rooms[id], now)
  {
  }

  lemma NextPass(t: Tables, now: Time, batches: seq<Batch>, j: nat)
    requires FullPasses(t, now, batches) && j < |batches|
    ensures ExpiredRooms(Passes(t, batches[..j + 1]), now) == ExpiredRooms(Passes(t, batches[..j]), now) - batches[j].rooms
  {
    hide ExpiredRooms, Pass;
    assert batches[..j + 1][..j] == batches[..j];
    assert FullPass(Passes(t, batches[..j]), now, batches[j]);
    PassRemovesTheBatch(Passes(t, batches[..j]), now, batches[j]);
  }

  lemma {:induction false} LaterPasses(t: Tables, now: Time, batches: seq<Batch>, i: nat, j: nat)
    requires FullPasses(t, now, batches) && i < j <= |batches|
    ensures ExpiredRooms(Passes(t, batches[..j]), now) <= ExpiredRooms(Passes(t, batches[..i]), now) - batches[i].rooms
    decreases j
  {
    hide ExpiredRooms, Passes;
    if i < j - 1 {
      LaterPasses(t, now, batches, i, j - 1);
    }
    NextPass(t, now, batches, j - 1);
  }

  /** Once the passes are done, every room still live has its deadline ahead. */
  lemma AfterwardsDeadlinesAreAhead(t: Tables, now: Time, batches: seq<Batch>, id: RoomId)
    requires RoomsOk(t.rooms) && FullPasses(t, now, batches)
    requires |ExpiredRooms(t, now)| <= RECONCILE_BATCH_SIZE * |batches|
    requires id in t.rooms && id in Passes(t, batches).rooms && Live(Passes(t, batches).rooms[id].state)
    ensures Passes(t, batches).rooms[id] == t.rooms[id]
    ensures t.rooms[id].deadline.Some? && t.rooms[id].deadline.value > now
  {
    hide ExpiredRooms, Passes, FullPasses;
    PassesShrink(t, now, batches);
    PassesAre(t, now, batches);
    assert ExpiredRooms(Passes(t, batches), now) == {};
    ExpiredRoomsAre(t, now, id);
    assert RoomOk(t.rooms[id]);
  }

  /** Passes are ordinary transactions: whatever holds of the tables still holds after them. */
  lemma ShorterPasses(t: Tables, now: Time, batches: seq<Batch>)
    requires FullPasses(t, now, batches) && batches != []
    ensures FullPasses(t, now, batches[..|batches| - 1])
    ensures FullPass(Passes(t, batches[..|batches| - 1]), now, batches[|batches| - 1])
  {
    hide FullPass, Passes;
    var n := |batches| - 1;
    assert forall i :: 0 <= i < n ==> batches[..n][..i] == batches[..i];
  }

  lemma {:induction false} PassesKeepInv(t: Tables, now: Time, batches: seq<Batch>)
    requires RoomLinks.Inv(t) && FullPasses(t, now, batches)
    ensures RoomLinks.Inv(Passes(t, batches))
  {
    hide RoomLinks.Inv, Apply;
    if batches != [] {
      var n := |batches| - 1;
      var shorter, last := batches[..n], batches[n];
      ShorterPasses(t, now, batches);
      PassesKeepInv(t, now, shorter);
      hide FullPasses, Pass;
      RoomLinks.StepKeepsInv(Passes(t, shorter), now, OpReconcile(last.rooms, last.challenges));
      PassCommits(Passes(t, shorter), now, last);
    }
  }

  lemma PassCommits(t: Tables, now: Time, batch: Batch)
    requires FullPass(t, now, batch)
    ensures Apply(t, now, OpReconcile(batch.rooms, batch.challenges)).tables == Pass(t, batch)
  {
    FullPassesAreBatches(t, now, batch);
    hide ReconcileExpired, IsBatch, FullPass;
  }
}
