/**
 The server's two sliding-window limiters, each against the full history of what it let through.
 */
module RateLimits {
  import opened SlidingWindow

  /** A queue that stands for a limited history. */
  ghost predicate Stands(queue: seq<Time>, history: seq<Time>, latest: Time, window: Time) {
    Tracks(queue, history, latest, window) && Ordered(history, latest)
  }

  /** One decision: trimming leaves the recent attempts, and an accepted one is pushed. */
  lemma Attempt(queue: seq<Time>, history: seq<Time>, latest: Time, now: Time, window: Time)
    requires Stands(queue, history, latest, window) && (history != [] ==> latest <= now)
    ensures var trimmed := Trim(queue, now, window);
            && |trimmed| == Recent(history, now, window)
            && Stands(trimmed, history, now, window) && Stands(trimmed + [now], history + [now], now, window)
            && Ordered(history + [now], now)
  {
    if history != [] {
      TracksLater(queue, history, latest, now, window);
    }
    TrimTracks(queue, history, now, window);
    TrimmedLengthIsRecent(queue, history, now, window);
    TracksPush(Trim(queue, now, window), history, now, window);
  }

  lemma LimitedPush(history: seq<Time>, now: Time, limit: nat, window: Time)
    requires Limited(history, limit, window) && Recent(history, now, window) < limit
    ensures Limited(history + [now], limit, window)
  {
    hide Recent;
    var longer := history + [now];
    forall i | 0 <= i < |longer| ensures Recent(longer[..i], longer[i], window) < limit {
      if i < |history| {
        assert longer[..i] == history[..i] && Recent(history[..i], history[i], window) < limit;
      } else {
        assert longer[..i] == history;
      }
    }
  }

  // ---- WebSocket messages -------------------------------------------------------------------------

  const RATE_LIMIT_MESSAGES: nat := 30
  const RATE_LIMIT_WINDOW: Time := 10 * SECOND

  class RateLimiter {
    var receivedAt: seq<Time>
    /** Every instant ever let through, and the last call's. */
    ghost var history: seq<Time>
    ghost var latest: Time

    constructor ()
      ensures Valid() && history == []
    {
      receivedAt, history, latest := [], [], 0;
    }

    ghost predicate Valid()
      reads this
    {
      Stands(receivedAt, history, latest, RATE_LIMIT_WINDOW) && Limited(history, RATE_LIMIT_MESSAGES, RATE_LIMIT_WINDOW)
    }

    /** With a clock that never runs back, a message passes exactly when fewer than 30 passed in the last ten seconds. */
    method Allow(now: Time) returns (allowed: bool)
      requires Valid() && (history != [] ==> latest <= now)
      modifies this
      ensures Valid() && latest == now
      ensures allowed <==> Recent(old(history), now, 10 * SECOND) < 30
      ensures history == if allowed then old(history) + [now] else old(history)
    {
      hide Stands, Recent, Limited, Elapsed;
      Attempt(receivedAt, history, latest, now, RATE_LIMIT_WINDOW);
      ghost var trimmed := Trim(receivedAt, now, RATE_LIMIT_WINDOW);
      while receivedAt != [] && Elapsed(now, receivedAt[0]) >= RATE_LIMIT_WINDOW
        invariant history == old(history) && Trim(receivedAt, now, RATE_LIMIT_WINDOW) == trimmed
        decreases |receivedAt|
      {
        receivedAt := receivedAt[1..];
      }
      latest := now;
      if |receivedAt| >= RATE_LIMIT_MESSAGES {
        return false;
      }
      LimitedPush(history, now, RATE_LIMIT_MESSAGES, RATE_LIMIT_WINDOW);
      receivedAt := receivedAt + [now];
      history := history + [now];
      return true;
    }
  }

  /** In any ten seconds at most thirty messages pass. */
  lemma ThirtyMessagesPerTenSeconds(limiter: RateLimiter, from: Time)
    requires limiter.Valid()
    ensures Within(limiter.history, from, 10 * SECOND) <= 30
  {
    WindowsAreBounded(limiter.history, RATE_LIMIT_MESSAGES, RATE_LIMIT_WINDOW, from);
  }

  // ---- sign-in attempts -----------------------------------------------------------------------------

  const MAX_TRACKED_KEYS: nat := 4096
  const ATTEMPT_WINDOW: Time := 60 * SECOND

  type Attempts = map<string, seq<Time>>

  function HistoryOf(histories: Attempts, key: string): seq<Time> {
    if key in histories then histories[key] else []
  }

  /** Keys with an accepted attempt in the last minute, by the full histories. */
  function LiveKeys(histories: Attempts, now: Time): set<string> {
    set key | key in histories && Recent(histories[key], now, ATTEMPT_WINDOW) > 0
  }

  /** Each tracked queue stands for its key's history; an untracked key has no live attempt. */
  ghost predicate Consistent(attempts: Attempts, histories: Attempts, now: Time) {
    && attempts.Keys <= histories.Keys
    && (forall key :: key in attempts ==>
          attempts[key] != [] && Stands(attempts[key], histories[key], now, ATTEMPT_WINDOW))
    && (forall key :: key in histories ==> Ordered(histories[key], now))
    && (forall key :: key in histories && key !in attempts ==> Recent(histories[key], now, ATTEMPT_WINDOW) == 0)
  }

  predicate LastIsLive(queue: seq<Time>, now: Time) {
    queue != [] && Elapsed(now, queue[|queue| - 1]) < ATTEMPT_WINDOW
  }

  lemma ConsistentLater(attempts: Attempts, histories: Attempts, now: Time, later: Time)
    requires Consistent(attempts, histories, now) && now <= later
    ensures Consistent(attempts, histories, later)
  {
    forall key | key in histories ensures Ordered(histories[key], later) {
      assert Ordered(histories[key], now);
    }
    forall key | key in attempts ensures Stands(attempts[key], histories[key], later, ATTEMPT_WINDOW) {
      TracksLater(attempts[key], histories[key], now, later, ATTEMPT_WINDOW);
    }
    forall key | key in histories && key !in attempts ensures Recent(histories[key], later, ATTEMPT_WINDOW) == 0 {
      NoneRecent(histories[key], now, ATTEMPT_WINDOW);
      NoneRecent(histories[key], later, ATTEMPT_WINDOW);
    }
  }

  /** The newest entry of a queue tells whether its key is live. */
  lemma LastDecides(queue: seq<Time>, history: seq<Time>, now: Time)
    requires Stands(queue, history, now, ATTEMPT_WINDOW) && queue != []
    ensures LastIsLive(queue, now) <==> Recent(history, now, ATTEMPT_WINDOW) > 0
  {
    NoneRecent(history, now, ATTEMPT_WINDOW);
    var n := |history| - 1;
    assert queue[|queue| - 1] == history[n];
    forall i | 0 <= i < |history| ensures history[i] <= history[n] {
      assert i < n ==> history[i] <= history[n];
    }
  }

  function Retained(attempts: Attempts, now: Time): Attempts {
    map key | key in attempts && LastIsLive(attempts[key], now) :: attempts[key]
  }

  /** Eviction keeps exactly the live keys. */
  lemma EvictionKeepsTheLive(attempts: Attempts, histories: Attempts, now: Time)
    requires Consistent(attempts, histories, now)
    ensures Consistent(Retained(attempts, now), histories, now)
    ensures Retained(attempts, now).Keys == LiveKeys(histories, now) <= attempts.Keys
  {
    hide Stands, Recent, Ordered, LastIsLive;
    forall key | key in attempts
      ensures LastIsLive(attempts[key], now) <==> Recent(histories[key], now, ATTEMPT_WINDOW) > 0
    {
      LastDecides(attempts[key], histories[key], now);
    }
  }

  lemma SubsetSizes<T>(a: set<T>, b: set<T>)
    requires a <= b
    ensures |a| <= |b| && (|a| == |b| ==> a == b)
  {
    assert b == a + (b - a);
  }

  class AuthRateLimiter {
    var attempts: Attempts
    /** Every accepted attempt of each key since it was last cleared. */
    ghost var histories: Attempts
    ghost var latest: Time

    constructor (ghost start: Time)
      ensures Valid() && histories == map[] && latest == start
    {
      attempts, histories, latest := map[], map[], start;
    }

    ghost predicate Valid()
      reads this
    {
      |attempts| <= MAX_TRACKED_KEYS && Consistent(attempts, histories, latest)
    }

    /**
     With a clock that never runs back, an attempt passes exactly when the key has fewer than
     `limit` accepted attempts in the last minute and, if it has none, fewer than 4096 keys do.
     */
    method CheckAt(key: string, limit: nat, now: Time) returns (allowed: bool)
      requires Valid() && latest <= now
      modifies this
      ensures Valid() && latest == now
      ensures allowed <==>
                var recent := Recent(HistoryOf(old(histories), key), now, 60 * SECOND);
                recent < limit && (recent > 0 || |LiveKeys(old(histories), now)| < 4096)
      ensures histories == if allowed then old(histories)[key := HistoryOf(old(histories), key) + [now]] else old(histories)
    {
      hide Consistent, Recent, LiveKeys, Elapsed, LastIsLive;
      ConsistentLater(attempts, histories, latest, now);
      latest := now;
      if limit == 0 {
        return false;
      }
      var full := MakeRoom(key, now);
      if full {
        return false;
      }
      var queue := if key in attempts then attempts[key] else [];
      KeyAttempt(attempts, histories, key, now);
      ghost var trimmed := Trim(queue, now, ATTEMPT_WINDOW);
      while queue != [] && Elapsed(now, queue[0]) >= ATTEMPT_WINDOW
        invariant Trim(queue, now, ATTEMPT_WINDOW) == trimmed
        decreases |queue|
      {
        queue := queue[1..];
      }
      PutSize(attempts, key, queue);
      if |queue| >= limit {
        attempts := attempts[key := queue];
        return false;
      }
      queue := queue + [now];
      attempts := attempts[key := queue];
      histories := histories[key := HistoryOf(histories, key) + [now]];
      return true;
    }

    /** A new key finds room, if need be by evicting keys whose attempts have all expired. */
    method MakeRoom(key: string, now: Time) returns (full: bool)
      requires |attempts| <= MAX_TRACKED_KEYS && Consistent(attempts, histories, now)
      modifies `attempts
      ensures |attempts| <= MAX_TRACKED_KEYS && Consistent(attempts, histories, now)
      ensures full <==> Recent(HistoryOf(histories, key), now, ATTEMPT_WINDOW) == 0
                        && |LiveKeys(histories, now)| >= MAX_TRACKED_KEYS
      ensures !full ==> key in attempts || |attempts| < MAX_TRACKED_KEYS
    {
      hide Consistent, Recent, LiveKeys, LastIsLive;
      FullExactlyWhen(attempts, histories, key, now);
      if |attempts| >= MAX_TRACKED_KEYS && key !in attempts {
        EvictionKeepsTheLive(attempts, histories, now);
        SubsetSizes(Retained(attempts, now).Keys, attempts.Keys);
        attempts := Retained(attempts, now);
        return |attempts| >= MAX_TRACKED_KEYS;
      }
      return false;
    }

    /** A success resets the key's budget and no other's. */
    method Clear(key: string)
      requires Valid()
      modifies this
      ensures Valid() && histories == old(histories) - {key} && latest == old(latest)
    {
      hide Consistent;
      ConsistentRemove(attempts, histories, key, latest);
      SubsetSizes((attempts - {key}).Keys, attempts.Keys);
      attempts := attempts - {key};
      histories := histories - {key};
    }
  }

  /** The registry refuses an untracked key just when 4096 keys are live and it is not one of them. */
  lemma FullExactlyWhen(attempts: Attempts, histories: Attempts, key: string, now: Time)
    requires Consistent(attempts, histories, now) && |attempts| <= MAX_TRACKED_KEYS
    ensures var recent := Recent(HistoryOf(histories, key), now, ATTEMPT_WINDOW);
            (|attempts| >= MAX_TRACKED_KEYS && key !in attempts && |Retained(attempts, now)| >= MAX_TRACKED_KEYS)
            <==> recent == 0 && |LiveKeys(histories, now)| >= MAX_TRACKED_KEYS
  {
    EvictionKeepsTheLive(attempts, histories, now);
    hide Stands;
    SubsetSizes(LiveKeys(histories, now), attempts.Keys);
    assert |Retained(attempts, now)| == |Retained(attempts, now).Keys|;
  }

  lemma ConsistentPut(attempts: Attempts, histories: Attempts, key: string, queue: seq<Time>, history: seq<Time>, now: Time)
    requires Consistent(attempts, histories, now)
    requires queue != [] && Stands(queue, history, now, ATTEMPT_WINDOW) && Ordered(history, now)
    ensures Consistent(attempts[key := queue], histories[key := history], now)
  {
    hide Stands, Recent, Ordered;
  }

  lemma ConsistentRemove(attempts: Attempts, histories: Attempts, key: string, now: Time)
    requires Consistent(attempts, histories, now)
    ensures Consistent(attempts - {key}, histories - {key}, now)
  {
    hide Stands, Recent, Ordered;
  }

  lemma PutSize<T>(m: map<string, T>, key: string, value: T)
    ensures |m[key := value]| == if key in m then |m| else |m| + 1
  {
    assert m[key := value].Keys == m.Keys + {key};
  }

  /** What one decision about a key does to the whole registry. */
  lemma KeyAttempt(attempts: Attempts, histories: Attempts, key: string, now: Time)
    requires Consistent(attempts, histories, now)
    ensures var queue := if key in attempts then attempts[key] else [];
            var trimmed := Trim(queue, now, ATTEMPT_WINDOW);
            && |trimmed| == Recent(HistoryOf(histories, key), now, ATTEMPT_WINDOW)
            && (trimmed != [] ==> Consistent(attempts[key := trimmed], histories, now))
            && Consistent(attempts[key := trimmed + [now]], histories[key := HistoryOf(histories, key) + [now]], now)
  {
    var history := HistoryOf(histories, key);
    if key in attempts {
      assert Stands(attempts[key], history, now, ATTEMPT_WINDOW) && Ordered(history, now);
      hide Stands, Recent, Ordered, Trim, Consistent;
      Attempt(attempts[key], history, now, now, ATTEMPT_WINDOW);
      var trimmed := Trim(attempts[key], now, ATTEMPT_WINDOW);
      if trimmed != [] {
        ConsistentPut(attempts, histories, key, trimmed, history, now);
        assert histories[key := history] == histories;
      }
      ConsistentPut(attempts, histories, key, trimmed + [now], history + [now], now);
    } else {
      assert Ordered(history, now) && Recent(history, now, ATTEMPT_WINDOW) == 0;
      assert Trim([], now, ATTEMPT_WINDOW) == [];
      hide Stands, Recent, Ordered, Trim, Consistent;
      UntrackedAttempt(history, now);
      assert [] + [now] == [now];
      ConsistentPut(attempts, histories, key, [now], history + [now], now);
    }
  }

  lemma UntrackedAttempt(history: seq<Time>, now: Time)
    requires Ordered(history, now) && Recent(history, now, ATTEMPT_WINDOW) == 0
    ensures Stands([now], history + [now], now, ATTEMPT_WINDOW) && Ordered(history + [now], now)
  {
    NoneRecent(history, now, ATTEMPT_WINDOW);
    TracksPush([], history, now, ATTEMPT_WINDOW);
    assert [] + [now] == [now];
  }
}
