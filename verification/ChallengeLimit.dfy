/**
 One player's challenge requests when their transactions overlap: each counts the committed rows and
 inserts its own later, with no lock in between.
 */
module ChallengeLimit {
  import opened RoomTables

  const LIMIT: nat := 10

  /** A request counts, then commits its row or gives up. Rows are stamped with the transaction's start. */
  datatype Event = Counts(id: nat, startedAt: Time) | Commits(id: nat) | GivesUp(id: nat)

  /** Requests that passed the count and have not ended, and committed rows. */
  datatype Requests = Requests(open: map<nat, Time>, created: map<nat, Time>)

  function Recent(created: map<nat, Time>, now: Time): set<nat> {
    set id | id in created && created[id] > now - 10 * MINUTE
  }

  function Step(r: Requests, event: Event): Requests {
    match event
    case Counts(id, startedAt) =>
      if |Recent(r.created, startedAt)| >= LIMIT || id in r.open || id in r.created then r
      else r.(open := r.open[id := startedAt])
    case Commits(id) =>
      if id in r.open then Requests(r.open - {id}, r.created[id := r.open[id]]) else r
    case GivesUp(id) => r.(open := r.open - {id})
  }

  function After(run: seq<Event>): Requests {
    if run == [] then Requests(map[], map[]) else Step(After(run[..|run| - 1]), run[|run| - 1])
  }

  /** Never more than `k` requests between their count and their end. */
  predicate Overlap(run: seq<Event>, k: nat) {
    forall i :: 0 <= i <= |run| ==> |After(run[..i]).open| <= k
  }

  predicate InWindow(at: Time, end: Time) {
    end - 10 * MINUTE < at <= end
  }

  function Within(rows: map<nat, Time>, end: Time): set<nat> {
    set id | id in rows && InWindow(rows[id], end)
  }

  lemma FewerIn<T>(a: set<T>, b: set<T>)
    requires a <= b
    ensures |a| <= |b|
  {
    assert b == a + (b - a);
  }

  /** Rows and requests on their way, together. */
  function Claimed(r: Requests, end: Time): set<nat> {
    Within(r.created, end) + Within(r.open, end)
  }

  lemma WindowsAreRecent(created: map<nat, Time>, startedAt: Time, end: Time)
    requires InWindow(startedAt, end)
    ensures Within(created, end) <= Recent(created, startedAt)
  {
  }

  /** Only a count can add to them, and it sees every row of the windows it adds to. */
  lemma StepKeepsTheBound(r: Requests, event: Event, k: nat, end: Time)
    requires |Claimed(r, end)| <= LIMIT - 1 + k && |Step(r, event).open| <= k
    ensures |Claimed(Step(r, event), end)| <= LIMIT - 1 + k
  {
    var after := Step(r, event);
    hide InWindow;
    if event.Counts? && r != after && InWindow(event.startedAt, end) {
      WindowsAreRecent(r.created, event.startedAt, end);
      FewerIn(Within(after.created, end), Recent(r.created, event.startedAt));
      FewerIn(Within(after.open, end), after.open.Keys);
    } else {
      FewerIn(Claimed(after, end), Claimed(r, end));
    }
  }

  lemma {:induction false} ClaimedIsBounded(run: seq<Event>, k: nat, end: Time)
    requires Overlap(run, k)
    ensures |Claimed(After(run), end)| <= LIMIT - 1 + k
  {
    hide Step, Claimed;
    if run == [] {
      NothingClaimed(end);
    } else {
      var n := |run| - 1;
      OverlapOfPrefix(run, k);
      ClaimedIsBounded(run[..n], k, end);
      assert run[..|run|] == run;
      StepKeepsTheBound(After(run[..n]), run[n], k, end);
    }
  }

  lemma NothingClaimed(end: Time)
    ensures Claimed(Requests(map[], map[]), end) == {}
  {
  }

  lemma OverlapOfPrefix(run: seq<Event>, k: nat)
    requires Overlap(run, k) && run != []
    ensures Overlap(run[..|run| - 1], k)
  {
    var shorter := run[..|run| - 1];
    forall i | 0 <= i <= |shorter| ensures |After(shorter[..i]).open| <= k {
      assert shorter[..i] == run[..i];
    }
  }

  /** However requests interleave and clocks stand: ten minutes hold at most nine rows more than requests overlap. */
  lemma OverlapBoundsTheRows(run: seq<Event>, k: nat, end: Time)
    requires Overlap(run, k)
    ensures |Within(After(run).created, end)| <= LIMIT - 1 + k
  {
    ClaimedIsBounded(run, k, end);
    FewerIn(Within(After(run).created, end), Claimed(After(run), end));
  }

  // ---- the bound is reached -------------------------------------------------------------------------

  function Ids(from: nat, end: nat): set<nat>
    decreases end
  {
    if from >= end then {} else Ids(from, end - 1) + {end - 1}
  }

  lemma {:induction false} IdsAre(from: nat, end: nat)
    requires from <= end
    ensures |Ids(from, end)| == end - from && forall id :: id in Ids(from, end) <==> from <= id < end
    decreases end
  {
    if from < end {
      IdsAre(from, end - 1);
    }
  }

  /** Rows with these identifiers, all of one time. */
  function Rows(from: nat, end: nat, now: Time): map<nat, Time> {
    map id | id in Ids(from, end) :: now
  }

  lemma RowsCount(from: nat, end: nat, now: Time)
    requires from <= end
    ensures |Recent(Rows(from, end, now), now)| == |Within(Rows(from, end, now), now)| == |Rows(from, end, now)| == end - from
  {
    IdsAre(from, end);
    hide Ids;
    var rows := Rows(from, end, now);
    assert Recent(rows, now) == Ids(from, end) && Within(rows, now) == Ids(from, end) && rows.Keys == Ids(from, end);
  }

  lemma RowsGrow(from: nat, end: nat, now: Time)
    requires from <= end
    ensures Rows(from, end + 1, now) == Rows(from, end, now)[end := now] && end !in Rows(from, end, now)
  {
    IdsAre(from, end);
    IdsAre(from, end + 1);
    hide Ids;
  }

  lemma RowsEnd(from: nat, end: nat, id: nat, now: Time)
    requires from <= end <= id
    ensures id !in Rows(from, end, now)
  {
    IdsAre(from, end);
  }

  lemma RowsShrink(from: nat, end: nat, now: Time)
    requires from < end
    ensures Rows(from + 1, end, now) == Rows(from, end, now) - {from} && from in Rows(from, end, now)
  {
    IdsAre(from, end);
    IdsAre(from + 1, end);
    hide Ids;
  }

  lemma AfterAppended(run: seq<Event>, event: Event)
    ensures After(run + [event]) == Step(After(run), event)
  {
    hide Step;
    assert (run + [event])[..|run|] == run;
  }

  lemma Appended(run: seq<Event>, event: Event, k: nat)
    requires Overlap(run, k) && |Step(After(run), event).open| <= k
    ensures After(run + [event]) == Step(After(run), event) && Overlap(run + [event], k)
  {
    AfterAppended(run, event);
    hide After, Step;
    var longer := run + [event];
    forall i | 0 <= i <= |longer| ensures |After(longer[..i]).open| <= k {
      if i <= |run| {
        assert longer[..i] == run[..i];
      } else {
        assert longer[..i] == longer;
      }
    }
  }

  /** A request that finds at most nine rows. */
  lemma CountsNext(run: seq<Event>, k: nat, id: nat, now: Time, open: map<nat, Time>, created: map<nat, Time>)
    requires Overlap(run, k) && After(run) == Requests(open, created)
    requires |Recent(created, now)| < LIMIT && id !in open && id !in created && |open[id := now]| <= k
    ensures After(run + [Counts(id, now)]) == Requests(open[id := now], created) && Overlap(run + [Counts(id, now)], k)
  {
    hide Overlap, After, Recent;
    Appended(run, Counts(id, now), k);
  }

  lemma CommitsNext(run: seq<Event>, k: nat, id: nat, open: map<nat, Time>, created: map<nat, Time>)
    requires Overlap(run, k) && After(run) == Requests(open, created) && id in open && |open - {id}| <= k
    ensures After(run + [Commits(id)]) == Requests(open - {id}, created[id := open[id]]) && Overlap(run + [Commits(id)], k)
  {
    hide Overlap, After;
    Appended(run, Commits(id), k);
  }

  /** Nine requests one after another. */
  lemma {:induction false} OneAfterAnother(n: nat, k: nat, now: Time) returns (run: seq<Event>)
    requires n < LIMIT && k >= 1
    ensures Overlap(run, k) && After(run) == Requests(map[], Rows(0, n, now))
  {
    run := [];
    if n > 0 {
      run := OneAfterAnother(n - 1, k, now);
      RowsCount(0, n - 1, now);
      hide Overlap, After, Rows, Recent, Step;
      var rows := Rows(0, n - 1, now);
      RowsGrow(0, n - 1, now);
      CountsNext(run, k, n - 1, now, map[], rows);
      run := run + [Counts(n - 1, now)];
      assert map[n - 1 := now] - {n - 1} == map[];
      CommitsNext(run, k, n - 1, map[n - 1 := now], rows);
      run := run + [Commits(n - 1)];
    }
  }

  /** Then more that all count before any of them commits. */
  lemma {:induction false} AllCount(j: nat, k: nat, now: Time) returns (run: seq<Event>)
    requires j <= k && k >= 1
    ensures Overlap(run, k) && After(run) == Requests(Rows(9, 9 + j, now), Rows(0, 9, now))
  {
    if j == 0 {
      run := OneAfterAnother(9, k, now);
    } else {
      run := AllCount(j - 1, k, now);
      RowsCount(0, 9, now);
      RowsEnd(0, 9, 8 + j, now);
      RowsCount(9, 9 + j, now);
      RowsGrow(9, 8 + j, now);
      hide Overlap, After, Recent, Rows;
      CountsNext(run, k, 8 + j, now, Rows(9, 8 + j, now), Rows(0, 9, now));
      run := run + [Counts(8 + j, now)];
    }
  }

  lemma {:induction false} AllCommit(m: nat, k: nat, now: Time) returns (run: seq<Event>)
    requires m <= k && k >= 1
    ensures Overlap(run, k) && After(run) == Requests(Rows(9 + m, 9 + k, now), Rows(0, 9 + m, now))
    decreases m
  {
    if m == 0 {
      run := AllCount(k, k, now);
    } else {
      run := AllCommit(m - 1, k, now);
      RowsCount(9 + m, 9 + k, now);
      RowsShrink(8 + m, 9 + k, now);
      RowsGrow(0, 8 + m, now);
      assert Rows(8 + m, 9 + k, now)[8 + m] == now;
      hide Overlap, After, Rows;
      CommitsNext(run, k, 8 + m, Rows(8 + m, 9 + k, now), Rows(0, 8 + m, now));
      run := run + [Commits(8 + m)];
    }
  }

  ghost predicate LimitHolds(k: nat) {
    forall run, end :: Overlap(run, k) ==> |Within(After(run).created, end)| <= LIMIT
  }

  /** Ten challenges in ten minutes is what the count enforces exactly when no two requests of a player overlap. */
  lemma LimitHoldsExactlyWhen(k: nat)
    ensures LimitHolds(k) <==> k <= 1
  {
    if k <= 1 {
      forall run, end | Overlap(run, k) ensures |Within(After(run).created, end)| <= LIMIT {
        OverlapBoundsTheRows(run, k, end);
      }
    } else {
      var run := AllCommit(k, k, 0);
      RowsCount(0, 9 + k, 0);
      assert |Within(After(run).created, 0)| == 9 + k;
    }
  }
}
