/**
 Queues of recent instants against the full history of accepted ones.
 */
module SlidingWindow {

  type Time = int

  const SECOND: Time := 1_000_000_000

  /** `now.duration_since(then)`, which is zero for an instant in the future. */
  function Elapsed(now: Time, instant: Time): Time {
    if now >= instant then now - instant else 0
  }

  predicate Sorted(times: seq<Time>) {
    forall i, j :: 0 <= i < j < |times| ==> times[i] <= times[j]
  }

  predicate AllBy(times: seq<Time>, now: Time) {
    forall i :: 0 <= i < |times| ==> times[i] <= now
  }

  /** Pops expired instants off the front. */
  function Trim(queue: seq<Time>, now: Time, window: Time): seq<Time> {
    if queue != [] && Elapsed(now, queue[0]) >= window then Trim(queue[1..], now, window) else queue
  }

  /** How many of the accepted attempts lie in the window that ends now. */
  function Recent(history: seq<Time>, now: Time, window: Time): nat {
    if history == [] then 0
    else
      Recent(history[..|history| - 1], now, window)
      + (if Elapsed(now, history[|history| - 1]) < window then 1 else 0)
  }

  /** The queue is what is left of the history once its expired front is dropped. */
  predicate Tracks(queue: seq<Time>, history: seq<Time>, now: Time, window: Time) {
    && |queue| <= |history| && queue == history[|history| - |queue|..]
    && (forall i :: 0 <= i < |history| - |queue| ==> Elapsed(now, history[i]) >= window)
  }

  predicate Ordered(history: seq<Time>, now: Time) {
    Sorted(history) && AllBy(history, now)
  }

  lemma {:induction false} TrimTracks(queue: seq<Time>, history: seq<Time>, now: Time, window: Time)
    requires Tracks(queue, history, now, window)
    ensures Tracks(Trim(queue, now, window), history, now, window)
    ensures Trim(queue, now, window) != [] ==> Elapsed(now, Trim(queue, now, window)[0]) < window
    decreases |queue|
  {
    if queue != [] && Elapsed(now, queue[0]) >= window {
      assert queue[1..] == history[|history| - |queue[1..]|..];
      TrimTracks(queue[1..], history, now, window);
    }
  }

  lemma {:induction false} RecentCounts(history: seq<Time>, now: Time, window: Time, live: nat)
    requires live <= |history|
    requires forall i :: 0 <= i < live ==> Elapsed(now, history[i]) >= window
    requires forall i :: live <= i < |history| ==> Elapsed(now, history[i]) < window
    ensures Recent(history, now, window) == |history| - live
  {
    if history != [] {
      var n := |history| - 1;
      RecentCounts(history[..n], now, window, if live <= n then live else n);
    }
  }

  /** The trimmed queue holds exactly the recent attempts of the full history. */
  lemma TrimmedLengthIsRecent(queue: seq<Time>, history: seq<Time>, now: Time, window: Time)
    requires Tracks(queue, history, now, window) && Ordered(history, now)
    ensures |Trim(queue, now, window)| == Recent(history, now, window)
  {
    TrimTracks(queue, history, now, window);
    var trimmed := Trim(queue, now, window);
    var live := |history| - |trimmed|;
    forall i | live <= i < |history| ensures Elapsed(now, history[i]) < window {
      assert trimmed[0] == history[live] <= history[i];
    }
    RecentCounts(history, now, window, live);
  }

  lemma TracksLater(queue: seq<Time>, history: seq<Time>, now: Time, later: Time, window: Time)
    requires Tracks(queue, history, now, window) && Ordered(history, now) && now <= later
    ensures Tracks(queue, history, later, window) && Ordered(history, later)
  {
  }

  lemma TracksPush(queue: seq<Time>, history: seq<Time>, now: Time, window: Time)
    requires Tracks(queue, history, now, window) && Ordered(history, now)
    ensures Tracks(queue + [now], history + [now], now, window) && Ordered(history + [now], now)
  {
    var longer := history + [now];
    assert longer[|history| - |queue|..] == queue + [now];
  }

  lemma {:induction false} NoneRecent(history: seq<Time>, now: Time, window: Time)
    ensures Recent(history, now, window) == 0 <==>
              forall i :: 0 <= i < |history| ==> Elapsed(now, history[i]) >= window
  {
    if history != [] {
      var n := |history| - 1;
      NoneRecent(history[..n], now, window);
      assert forall i :: 0 <= i < n ==> history[..n][i] == history[i];
    }
  }

  // ---- what the decisions guarantee -----------------------------------------------------------------

  /** Each accepted attempt found fewer than `limit` recent ones before it. */
  predicate Limited(history: seq<Time>, limit: nat, window: Time) {
    forall i :: 0 <= i < |history| ==> Recent(history[..i], history[i], window) < limit
  }

  /** The attempts in a half-open window. */
  function Within(history: seq<Time>, from: Time, window: Time): nat {
    if history == [] then 0
    else
      Within(history[..|history| - 1], from, window)
      + (if from <= history[|history| - 1] < from + window then 1 else 0)
  }

  lemma {:induction false} WithinAtMostRecent(history: seq<Time>, from: Time, now: Time, window: Time)
    requires AllBy(history, now) && now < from + window
    ensures Within(history, from, window) <= Recent(history, now, window)
  {
    if history != [] {
      WithinAtMostRecent(history[..|history| - 1], from, now, window);
    }
  }

  lemma LimitedPrefix(history: seq<Time>, limit: nat, window: Time, n: nat)
    requires Limited(history, limit, window) && n < |history|
    ensures Limited(history[..n], limit, window) && Recent(history[..n], history[n], window) < limit
  {
    hide Recent, Elapsed;
    forall i | 0 <= i < n ensures Recent(history[..n][..i], history[..n][i], window) < limit {
      assert history[..n][..i] == history[..i];
    }
  }

  /** No window of that length, wherever it starts, ever holds more than `limit` accepted attempts. */
  lemma {:induction false} WindowsAreBounded(history: seq<Time>, limit: nat, window: Time, from: Time)
    requires Sorted(history) && Limited(history, limit, window)
    ensures Within(history, from, window) <= limit
  {
    hide Recent, Elapsed;
    if history != [] {
      var n := |history| - 1;
      var earlier := history[..n];
      LimitedPrefix(history, limit, window, n);
      WindowsAreBounded(earlier, limit, window, from);
      if from <= history[n] < from + window {
        WithinAtMostRecent(earlier, from, history[n], window);
      }
    }
  }
}
