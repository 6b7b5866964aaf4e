/**
 The relay's per-connection limit: a fixed window that restarts with the first frame after it ends.
 */
module RelayLimit {
  import opened SlidingWindow

  const MAX_MESSAGES_PER_SECOND: nat := 128
  const MAX_BYTES_PER_SECOND: nat := 1024 * 1024
  const U32_MAX: nat := 0xFFFF_FFFF
  const USIZE_MAX: nat := 0xFFFF_FFFF_FFFF_FFFF

  datatype Meter = Meter(started: Time, messages: nat, bytes: nat)

  /** One frame: when the elapsed time was read, when the window would restart, and its size. */
  datatype Frame = Frame(now: Time, restart: Time, size: nat)

  function SaturatingAdd(a: nat, b: nat, limit: nat): nat {
    if a + b <= limit then a + b else limit
  }

  predicate Restarts(meter: Meter, frame: Frame) {
    Elapsed(frame.now, meter.started) >= SECOND
  }

  function Counted(meter: Meter, frame: Frame): Meter {
    var window := if Restarts(meter, frame) then Meter(frame.restart, 0, 0) else meter;
    Meter(window.started, SaturatingAdd(window.messages, 1, U32_MAX), SaturatingAdd(window.bytes, frame.size, USIZE_MAX))
  }

  predicate Exceeds(meter: Meter) {
    meter.messages > MAX_MESSAGES_PER_SECOND || meter.bytes > MAX_BYTES_PER_SECOND
  }

  class Limiter {
    var windowStarted: Time
    var messages: nat
    var bytes: nat

    constructor (now: Time)
      ensures State() == Meter(now, 0, 0)
    {
      windowStarted, messages, bytes := now, 0, 0;
    }

    function State(): Meter
      reads this
    {
      Meter(windowStarted, messages, bytes)
    }

    method ExceedsRateLimit(frame: Frame) returns (exceeds: bool)
      modifies this
      ensures State() == Counted(old(State()), frame) && exceeds == Exceeds(State())
    {
      if Elapsed(frame.now, windowStarted) >= SECOND {
        windowStarted := frame.restart;
        messages := 0;
        bytes := 0;
      }
      messages := SaturatingAdd(messages, 1, U32_MAX);
      bytes := SaturatingAdd(bytes, frame.size, USIZE_MAX);
      exceeds := messages > MAX_MESSAGES_PER_SECOND || bytes > MAX_BYTES_PER_SECOND;
    }
  }

  // ---- a connection's frames ------------------------------------------------------------------------

  function After(start: Meter, frames: seq<Frame>): Meter {
    if frames == [] then start else Counted(After(start, frames[..|frames| - 1]), frames[|frames| - 1])
  }

  /** The clock never runs back, between frames or within one. */
  predicate ClockForward(start: Meter, frames: seq<Frame>) {
    && (forall i :: 0 <= i < |frames| ==> start.started <= frames[i].now <= frames[i].restart)
    && (forall i, j :: 0 <= i < j < |frames| ==> frames[i].restart <= frames[j].now)
  }

  predicate Passes(start: Meter, frames: seq<Frame>, i: nat)
    requires i < |frames|
  {
    !Exceeds(After(start, frames[..i + 1]))
  }

  /** The connection survived every frame. */
  predicate AllPass(start: Meter, frames: seq<Frame>) {
    forall i :: 0 <= i < |frames| ==> Passes(start, frames, i)
  }

  function Bytes(frames: seq<Frame>, low: nat, high: nat): nat
    requires low <= high <= |frames|
    decreases high
  {
    if low == high then 0 else Bytes(frames, low, high - 1) + frames[high - 1].size
  }

  /** The first frame counted in the window of frame `k`. */
  function First(start: Meter, frames: seq<Frame>, k: nat): (first: nat)
    requires k < |frames|
    ensures first <= k
  {
    if k == 0 || Restarts(After(start, frames[..k]), frames[k]) then k else First(start, frames, k - 1)
  }

  lemma AfterNext(start: Meter, frames: seq<Frame>, k: nat)
    requires k < |frames|
    ensures After(start, frames[..k + 1]) == Counted(After(start, frames[..k]), frames[k])
  {
    assert frames[..k + 1][..k] == frames[..k];
  }

  /** A frame that passes was counted without saturating. */
  lemma CountedExactly(meter: Meter, frame: Frame)
    requires !Exceeds(Counted(meter, frame))
    ensures Counted(meter, frame) == if Restarts(meter, frame) then Meter(frame.restart, 1, frame.size)
                                     else Meter(meter.started, meter.messages + 1, meter.bytes + frame.size)
  {
  }

  lemma BytesNext(frames: seq<Frame>, low: nat, k: nat)
    requires low <= k < |frames|
    ensures Bytes(frames, low, k + 1) == Bytes(frames, low, k) + frames[k].size && Bytes(frames, k, k) == 0
  {
  }

  /** The meter holds its window's frames, their bytes, and a start less than a second back. */
  predicate HoldsWindow(start: Meter, frames: seq<Frame>, k: nat, first: nat, meter: Meter)
    requires first <= k < |frames|
  {
    && meter.messages == k + 1 - first && meter.bytes == Bytes(frames, first, k + 1)
    && frames[k].now < meter.started + SECOND
    && (first > 0 ==>
          meter.started == frames[first].restart && Restarts(After(start, frames[..first]), frames[first]))
  }

  lemma FirstOfAWindow(start: Meter, frames: seq<Frame>, k: nat, meter: Meter)
    requires k < |frames| && frames[k].now <= frames[k].restart && !Exceeds(Counted(meter, frames[k]))
    requires meter == After(start, frames[..k])
    requires Restarts(meter, frames[k]) || (k == 0 && meter.messages == 0 && meter.bytes == 0)
    ensures HoldsWindow(start, frames, k, k, Counted(meter, frames[k]))
  {
    hide After;
    CountedExactly(meter, frames[k]);
    BytesNext(frames, k, k);
  }

  lemma LaterInAWindow(start: Meter, frames: seq<Frame>, k: nat, first: nat, meter: Meter)
    requires first < k < |frames| && !Exceeds(Counted(meter, frames[k])) && !Restarts(meter, frames[k])
    requires HoldsWindow(start, frames, k - 1, first, meter)
    ensures HoldsWindow(start, frames, k, first, Counted(meter, frames[k]))
  {
    hide After, Bytes;
    CountedExactly(meter, frames[k]);
    BytesNext(frames, first, k);
  }

  lemma {:induction false} MeterHoldsItsWindow(start: Meter, frames: seq<Frame>, k: nat)
    requires start.messages == 0 && start.bytes == 0 && ClockForward(start, frames) && AllPass(start, frames)
    requires k < |frames|
    ensures HoldsWindow(start, frames, k, First(start, frames, k), After(start, frames[..k + 1]))
  {
    AfterNext(start, frames, k);
    assert Passes(start, frames, k) && frames[k].now <= frames[k].restart;
    assert k == 0 ==> After(start, frames[..k]) == start;
    hide Counted, After, HoldsWindow, ClockForward, AllPass, Exceeds, Restarts;
    if First(start, frames, k) == k {
      FirstOfAWindow(start, frames, k, After(start, frames[..k]));
    } else {
      MeterHoldsItsWindow(start, frames, k - 1);
      LaterInAWindow(start, frames, k, First(start, frames, k), After(start, frames[..k]));
    }
  }

  lemma WindowsAreWithinTheLimit(start: Meter, frames: seq<Frame>, k: nat)
    requires start.messages == 0 && start.bytes == 0 && ClockForward(start, frames) && AllPass(start, frames)
    requires k < |frames|
    ensures k + 1 - First(start, frames, k) <= MAX_MESSAGES_PER_SECOND
    ensures Bytes(frames, First(start, frames, k), k + 1) <= MAX_BYTES_PER_SECOND
  {
    assert Passes(start, frames, k);
    hide After, First, Bytes, ClockForward, AllPass;
    MeterHoldsItsWindow(start, frames, k);
  }

  lemma PassesOfPrefix(start: Meter, frames: seq<Frame>, k: nat)
    requires ClockForward(start, frames) && k <= |frames| && forall i :: 0 <= i < k ==> Passes(start, frames, i)
    ensures ClockForward(start, frames[..k]) && AllPass(start, frames[..k])
  {
    hide Exceeds, After;
    forall i | 0 <= i < k ensures Passes(start, frames[..k], i) {
      assert frames[..k][..i + 1] == frames[..i + 1];
      assert Passes(start, frames, i);
    }
  }

  /** What was counted before a frame that restarts nothing. */
  lemma WindowBefore(start: Meter, frames: seq<Frame>, k: nat)
    requires start.messages == 0 && start.bytes == 0 && ClockForward(start, frames) && k < |frames|
    requires forall i :: 0 <= i < k ==> Passes(start, frames, i)
    requires First(start, frames, k) < k
    ensures var meter, first := After(start, frames[..k]), First(start, frames, k);
            && !Restarts(meter, frames[k])
            && meter.messages == k - first <= 128 && meter.bytes == Bytes(frames, first, k) <= 1024 * 1024
  {
    FirstBefore(start, frames, k);
    hide After, First, Bytes, ClockForward, AllPass, Restarts, Passes;
    PassesOfPrefix(start, frames, k);
    FirstOfPrefix(start, frames, k, k - 1);
    BytesOfPrefix(frames, k, First(start, frames, k - 1), k);
    LastWindow(start, frames[..k]);
  }

  /** What the meter holds after frames that all passed. */
  lemma LastWindow(start: Meter, frames: seq<Frame>)
    requires start.messages == 0 && start.bytes == 0 && ClockForward(start, frames) && AllPass(start, frames)
    requires frames != []
    ensures var meter, first := After(start, frames), First(start, frames, |frames| - 1);
            && meter.messages == |frames| - first <= MAX_MESSAGES_PER_SECOND
            && meter.bytes == Bytes(frames, first, |frames|) <= MAX_BYTES_PER_SECOND
  {
    hide After, First, Bytes, ClockForward, AllPass, Restarts;
    var k := |frames| - 1;
    MeterHoldsItsWindow(start, frames, k);
    WindowsAreWithinTheLimit(start, frames, k);
    assert frames[..k + 1] == frames;
  }

  lemma FirstBefore(start: Meter, frames: seq<Frame>, k: nat)
    requires k < |frames| && First(start, frames, k) < k
    ensures k > 0 && First(start, frames, k) == First(start, frames, k - 1) && !Restarts(After(start, frames[..k]), frames[k])
  {
    hide After, Restarts;
  }

  lemma CountingOneMore(meter: Meter, frame: Frame)
    requires (Restarts(meter, frame) || (meter.messages <= 128 && meter.bytes <= 1024 * 1024))
    ensures var messages := if Restarts(meter, frame) then 1 else meter.messages + 1;
            var bytes := if Restarts(meter, frame) then frame.size else meter.bytes + frame.size;
            Exceeds(Counted(meter, frame)) <==> messages > 128 || bytes > 1024 * 1024
  {
  }

  /** A frame after others that passed is cut off exactly when it is the 129th of its window or exceeds its mebibyte. */
  lemma PassesExactlyWhen(start: Meter, frames: seq<Frame>, k: nat)
    requires start.messages == 0 && start.bytes == 0 && ClockForward(start, frames) && k < |frames|
    requires forall i :: 0 <= i < k ==> Passes(start, frames, i)
    ensures Passes(start, frames, k) <==>
              var first := First(start, frames, k);
              k + 1 - first <= 128 && Bytes(frames, first, k + 1) <= 1024 * 1024
  {
    var first := First(start, frames, k);
    AfterNext(start, frames, k);
    BytesNext(frames, first, k);
    if first < k {
      WindowBefore(start, frames, k);
    } else {
      BytesNext(frames, k, k);
      assert k == 0 ==> After(start, frames[..k]) == start;
      assert k > 0 ==> Restarts(After(start, frames[..k]), frames[k]);
    }
    hide After, First, Bytes, Exceeds, Counted;
    CountingOneMore(After(start, frames[..k]), frames[k]);
  }

  lemma {:induction false} FirstOfPrefix(start: Meter, frames: seq<Frame>, n: nat, k: nat)
    requires k < n <= |frames|
    ensures First(start, frames[..n], k) == First(start, frames, k)
    decreases k
  {
    assert frames[..n][..k] == frames[..k];
    if k > 0 {
      FirstOfPrefix(start, frames, n, k - 1);
    }
  }

  lemma {:induction false} BytesOfPrefix(frames: seq<Frame>, n: nat, low: nat, high: nat)
    requires low <= high <= n <= |frames|
    ensures Bytes(frames[..n], low, high) == Bytes(frames, low, high)
    decreases high
  {
    if low < high {
      BytesOfPrefix(frames, n, low, high - 1);
    }
  }

  lemma {:induction false} BytesSplit(frames: seq<Frame>, a: nat, b: nat, c: nat)
    requires a <= b <= c <= |frames|
    ensures Bytes(frames, a, c) == Bytes(frames, a, b) + Bytes(frames, b, c)
    decreases c
  {
    if b < c {
      BytesSplit(frames, a, b, c - 1);
    }
  }

  /** Three windows never share one second. */
  lemma OnlyTwoWindows(start: Meter, frames: seq<Frame>, i: nat, j: nat)
    requires start.messages == 0 && start.bytes == 0 && ClockForward(start, frames) && AllPass(start, frames)
    requires i <= j < |frames| && frames[j].now - frames[i].now <= SECOND
    ensures var f := First(start, frames, j);
            f <= i || First(start, frames, f - 1) <= i
  {
    hide AllPass, Bytes, ClockForward, After, First, Restarts;
    var f := First(start, frames, j);
    MeterHoldsItsWindow(start, frames, j);
    if f > i {
      MeterHoldsItsWindow(start, frames, f - 1);
      var g := First(start, frames, f - 1);
      if g > i {
        MeterHoldsItsWindow(start, frames, g - 1);
        TooFarApart(start, frames, i, g, f, j);
      }
    }
  }

  lemma TooFarApart(start: Meter, frames: seq<Frame>, i: nat, g: nat, f: nat, j: nat)
    requires ClockForward(start, frames) && i < g < f <= j < |frames|
    requires frames[g - 1].now < After(start, frames[..g]).started + SECOND
    requires Restarts(After(start, frames[..g]), frames[g])
    requires After(start, frames[..f]).started == frames[g].restart && Restarts(After(start, frames[..f]), frames[f])
    ensures frames[j].now - frames[i].now > SECOND
  {
    hide After;
    assert frames[i].now <= frames[g - 1].now;
    assert frames[f].now <= frames[j].now;
  }

  /** In any one second a connection gets at most 256 frames and two mebibytes past the limit. */
  lemma OneSecondIsBounded(start: Meter, frames: seq<Frame>, i: nat, j: nat)
    requires start.messages == 0 && start.bytes == 0 && ClockForward(start, frames) && AllPass(start, frames)
    requires i <= j < |frames| && frames[j].now - frames[i].now <= SECOND
    ensures j + 1 - i <= 256 && Bytes(frames, i, j + 1) <= 2 * 1024 * 1024
  {
    hide First, Bytes, ClockForward, AllPass;
    var f := First(start, frames, j);
    OnlyTwoWindows(start, frames, i, j);
    WindowsAreWithinTheLimit(start, frames, j);
    if f <= i {
      BytesSplit(frames, f, i, j + 1);
    } else {
      WindowsAreWithinTheLimit(start, frames, f - 1);
      BytesSplit(frames, i, f, j + 1);
      BytesSplit(frames, First(start, frames, f - 1), i, f);
    }
  }
}
