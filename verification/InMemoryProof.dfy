/**
 The in-process proof of match: two `drive_side` tasks over a pair of bounded, lossless FIFO
 queues.
 */
module InMemoryProof {
  import opened Words
  import opened Text
  import opened Probe
  import ProbeNetwork
  import Fnv

  const PROOF_FRAMES: nat := 60
  const INPUT_QUEUE_CAPACITY: nat := 120

  // ---- the queue ------------------------------------------------------------------------

  /** One direction of an `InMemoryPeer` pair. */
  class InputQueue {
    var frames: seq<InputFrame>

    ghost predicate Valid() reads this {
      |frames| <= INPUT_QUEUE_CAPACITY
    }

    constructor ()
      ensures Valid() && frames == []
    {
      frames := [];
    }

    /** Backpressure leaves the queue as it was. */
    method TrySend(frame: InputFrame) returns (sent: bool)
      requires Valid()
      modifies this
      ensures Valid() && sent == !Full(old(frames))
      ensures frames == if sent then old(frames) + [frame] else old(frames)
    {
      sent := |frames| < INPUT_QUEUE_CAPACITY;
      if sent {
        frames := frames + [frame];
      }
    }

    /** First in, first out; waiting on an empty queue takes nothing. */
    method TryReceive() returns (frame: Option<InputFrame>)
      requires Valid()
      modifies this
      ensures Valid()
      ensures old(frames) == [] ==> frame == None && frames == []
      ensures old(frames) != [] ==> frame == Some(old(frames)[0]) && frames == old(frames)[1..]
    {
      frame := None;
      if frames != [] {
        frame := Some(frames[0]);
        frames := frames[1..];
      }
    }
  }

  predicate Full(frames: seq<InputFrame>) {
    |frames| >= INPUT_QUEUE_CAPACITY
  }

  // ---- one side -------------------------------------------------------------------------

  datatype DriveError = Backpressure | DeadlineExceeded

  datatype DriveStatus = NotStarted | Driving | Driven | Stopped(error: DriveError)

  datatype Drive = Drive(status: DriveStatus, framesReceived: nat, framesSent: nat, checksum: U64)

  const UNSTARTED: Drive := Drive(NotStarted, 0, 0, Fnv.FNV_OFFSET_BASIS)

  datatype Player = Player(role: PeerRole, userId: string)

  function FrameOf(player: Player, frame: nat): InputFrame {
    InputFrame(frame, player.userId, [InputOf(frame, player.role)])
  }

  datatype DriveReaction = DriveReaction(drive: Drive, out: Option<InputFrame>)

  function TrySendFrame(player: Player, drive: Drive, frame: nat, full: bool): DriveReaction {
    if full then DriveReaction(drive.(status := Stopped(Backpressure)), None)
    else DriveReaction(drive.(framesSent := drive.framesSent + 1), Some(FrameOf(player, frame)))
  }

  /** Starts the next frame, or ends after the last one. */
  function NextFrame(player: Player, drive: Drive, full: bool): DriveReaction {
    if drive.framesReceived < PROOF_FRAMES then TrySendFrame(player, drive, drive.framesReceived, full)
    else DriveReaction(drive.(status := Driven), None)
  }

  function StartDrive(player: Player, full: bool): DriveReaction {
    NextFrame(player, UNSTARTED.(status := Driving), full)
  }

  function OnRemoteFrame(player: Player, drive: Drive, remote: InputFrame, full: bool): DriveReaction {
    if remote.frame < drive.framesReceived then TrySendFrame(player, drive, remote.frame, full)
    else if remote.frame > drive.framesReceived then TrySendFrame(player, drive, drive.framesReceived, full)
    else NextFrame(player, Received(player, drive, remote), full)
  }

  function Received(player: Player, drive: Drive, remote: InputFrame): Drive {
    var bytes := HostThenGuest(player.role, FrameOf(player, drive.framesReceived), remote);
    drive.(checksum := Fnv.Fold(drive.checksum, bytes), framesReceived := drive.framesReceived + 1)
  }

  /** What the wait of `drive_side` yields, and whether the queue is full for the send that follows. */
  datatype Wake = Frame(remote: InputFrame) | Retry | Expired

  datatype DriveTurn = DriveTurn(wake: Wake, full: bool)

  function DriveStep(player: Player, drive: Drive, turn: DriveTurn): DriveReaction {
    if drive.status != Driving then DriveReaction(drive, None)
    else
      match turn.wake
      case Frame(remote) => OnRemoteFrame(player, drive, remote, turn.full)
      case Retry => TrySendFrame(player, drive, drive.framesReceived, turn.full)
      case Expired => DriveReaction(drive.(status := Stopped(DeadlineExceeded)), None)
  }

  /** A frame was queued for the peer and counted, or the full queue ended the side. */
  predicate Offered(player: Player, before: Drive, next: DriveReaction, frame: nat, full: bool) {
    && next.drive.framesReceived == before.framesReceived && next.drive.checksum == before.checksum
    && (if full then
          next.out == None && next.drive.status == Stopped(Backpressure) && next.drive.framesSent == before.framesSent
        else
          && next.out == Some(InputFrame(frame, player.userId, [(if player.role == Host then frame else frame + 2) % 4]))
          && next.drive.status == before.status && next.drive.framesSent == before.framesSent + 1)
  }

  /**
   What a driving side does with each wake: a retry repeats its latest frame, an earlier or later frame of
   the peer is answered with its own of that number or its latest, the awaited one is absorbed host first
   and opens the next frame or ends the side after the sixtieth, and a deadline stops it.
   */
  lemma DriveReactionsAre(player: Player, drive: Drive, turn: DriveTurn)
    requires drive.status == Driving && drive.framesReceived < 60
    ensures var next, latest := DriveStep(player, drive, turn), drive.framesReceived;
            match turn.wake
            case Expired => next == DriveReaction(drive.(status := Stopped(DeadlineExceeded)), None)
            case Retry => Offered(player, drive, next, latest, turn.full)
            case Frame(remote) =>
              if remote.frame != latest then
                Offered(player, drive, next, if remote.frame < latest then remote.frame else latest, turn.full)
              else
                var byte := (if player.role == Host then latest else latest + 2) % 4;
                var bytes := if player.role == Host then [byte] + remote.input else remote.input + [byte];
                var absorbed := drive.(framesReceived := latest + 1, checksum := Fnv.Fold(drive.checksum, bytes));
                if latest + 1 < 60 then Offered(player, absorbed, next, latest + 1, turn.full)
                else next == DriveReaction(absorbed.(status := Driven), None)
  {
  }

  /** A side starts with its frame 0, and no longer reacts once it is done or stopped. */
  lemma DrivesStartAndStop(player: Player, drive: Drive, turn: DriveTurn, full: bool)
    ensures Offered(player, Drive(Driving, 0, 0, 0xcbf29ce484222325), StartDrive(player, full), 0, full)
    ensures drive.status != Driving ==> DriveStep(player, drive, turn) == DriveReaction(drive, None)
  {
  }

  function DriveTo(player: Player, full: bool, turns: seq<DriveTurn>, count: nat): Drive
    requires count <= |turns|
  {
    if count == 0 then StartDrive(player, full).drive
    else DriveStep(player, DriveTo(player, full, turns, count - 1), turns[count - 1]).drive
  }

  function FramesTo(player: Player, full: bool, turns: seq<DriveTurn>, count: nat): seq<InputFrame>
    requires count <= |turns|
  {
    if count == 0 then Extended([], StartDrive(player, full).out)
    else
      var before := DriveTo(player, full, turns, count - 1);
      Extended(FramesTo(player, full, turns, count - 1), DriveStep(player, before, turns[count - 1]).out)
  }

  function Extended(sent: seq<InputFrame>, out: Option<InputFrame>): seq<InputFrame> {
    if out.Some? then sent + [out.value] else sent
  }

  lemma {:induction false} DriveStaysStopped(player: Player, full: bool, turns: seq<DriveTurn>, count: nat, later: nat)
    requires count <= later <= |turns|
    requires count == later || DriveTo(player, full, turns, count).status != Driving
    ensures DriveTo(player, full, turns, later) == DriveTo(player, full, turns, count)
    ensures FramesTo(player, full, turns, later) == FramesTo(player, full, turns, count)
    decreases later
  {
    if count < later {
      DriveStaysStopped(player, full, turns, count, later - 1);
    }
  }

  method SendOrStop(player: Player, before: Drive, sentBefore: seq<InputFrame>, frame: nat, full: bool)
    returns (drive: Drive, sent: seq<InputFrame>)
    ensures var next := TrySendFrame(player, before, frame, full);
            drive == next.drive && sent == Extended(sentBefore, next.out)
  {
    if full {
      return before.(status := Stopped(Backpressure)), sentBefore;
    }
    return before.(framesSent := before.framesSent + 1), sentBefore + [FrameOf(player, frame)];
  }

  /** The loop nest of `drive_side` computes the fold of its steps. */
  method DriveSide(player: Player, firstFull: bool, turns: seq<DriveTurn>)
    returns (drive: Drive, sent: seq<InputFrame>)
    ensures drive == DriveTo(player, firstFull, turns, |turns|)
    ensures sent == FramesTo(player, firstFull, turns, |turns|)
  {
    drive, sent := UNSTARTED.(status := Driving), [];
    var at: nat, full := 0, firstFull;
    for frame := 0 to PROOF_FRAMES
      invariant at <= |turns| && drive.status == Driving && drive.framesReceived == frame
      invariant DriveTo(player, firstFull, turns, at) == NextFrame(player, drive, full).drive
      invariant FramesTo(player, firstFull, turns, at) == Extended(sent, NextFrame(player, drive, full).out)
    {
      drive, sent := SendOrStop(player, drive, sent, frame, full);
      at, full, drive, sent := AwaitRemote(player, firstFull, turns, at, drive, sent);
      if drive.framesReceived == frame {
        DriveStaysStopped(player, firstFull, turns, at, |turns|);
        return;
      }
    }
    drive := drive.(status := Driven);
    DriveStaysStopped(player, firstFull, turns, at, |turns|);
  }

  /** The inner loop: returns after absorbing the awaited frame, on failure, or when turns run out. */
  method AwaitRemote(player: Player, ghost firstFull: bool, turns: seq<DriveTurn>, from: nat,
                     before: Drive, sentBefore: seq<InputFrame>)
    returns (at: nat, full: bool, drive: Drive, sent: seq<InputFrame>)
    requires from <= |turns| && before.framesReceived < PROOF_FRAMES
    requires before.status == Driving || before.status.Stopped?
    requires DriveTo(player, firstFull, turns, from) == before
    requires FramesTo(player, firstFull, turns, from) == sentBefore
    ensures at <= |turns|
    ensures drive.framesReceived == before.framesReceived ==>
              && (at == |turns| || drive.status.Stopped?)
              && DriveTo(player, firstFull, turns, at) == drive && FramesTo(player, firstFull, turns, at) == sent
    ensures drive.framesReceived != before.framesReceived ==>
              && drive.status == Driving && drive.framesReceived == before.framesReceived + 1
              && DriveTo(player, firstFull, turns, at) == NextFrame(player, drive, full).drive
              && FramesTo(player, firstFull, turns, at) == Extended(sent, NextFrame(player, drive, full).out)
  {
    hide NextFrame, Received;
    at, full, drive, sent := from, false, before, sentBefore;
    var frame := before.framesReceived;
    while at < |turns| && drive.status == Driving
      invariant at <= |turns| && drive.framesReceived == frame && (drive.status == Driving || drive.status.Stopped?)
      invariant DriveTo(player, firstFull, turns, at) == drive && FramesTo(player, firstFull, turns, at) == sent
    {
      var turn := turns[at];
      at, full := at + 1, turn.full;
      match turn.wake {
        case Expired =>
          drive := drive.(status := Stopped(DeadlineExceeded));
        case Retry =>
          drive, sent := SendOrStop(player, drive, sent, frame, full);
        case Frame(remote) =>
          if remote.frame < frame {
            drive, sent := SendOrStop(player, drive, sent, remote.frame, full);
          } else if remote.frame > frame {
            drive, sent := SendOrStop(player, drive, sent, frame, full);
          } else {
            drive := AbsorbRemote(player, drive, remote);
            return;
          }
      }
    }
  }

  method AbsorbRemote(player: Player, before: Drive, remote: InputFrame) returns (drive: Drive)
    ensures drive == Received(player, before, remote)
    ensures drive.status == before.status && drive.framesReceived == before.framesReceived + 1
  {
    var local := FrameOf(player, before.framesReceived);
    var checksum := UpdateTranscriptChecksum(before.checksum, player.role, local, remote);
    return before.(checksum := checksum, framesReceived := before.framesReceived + 1);
  }

  // ---- the pair -------------------------------------------------------------------------

  datatype Players = Players(hostId: string, guestId: string) {
    function Of(role: PeerRole): Player {
      match role case Host => Player(Host, hostId) case Guest => Player(Guest, guestId)
    }
  }

  /** `timeouts` counts the retries so far in the whole run. */
  datatype Pair = Pair(host: Drive, guest: Drive, toHost: seq<InputFrame>, toGuest: seq<InputFrame>, timeouts: nat) {
    function Drive(role: PeerRole): Drive {
      match role case Host => host case Guest => guest
    }

    function Inbox(role: PeerRole): seq<InputFrame> {
      match role case Host => toHost case Guest => toGuest
    }

    function Outbox(role: PeerRole): seq<InputFrame> {
      match role case Host => toGuest case Guest => toHost
    }

    function Put(role: PeerRole, inbox: seq<InputFrame>, reaction: DriveReaction): Pair {
      var outbox := if reaction.out.Some? then Outbox(role) + [reaction.out.value] else Outbox(role);
      match role
      case Host => this.(host := reaction.drive, toHost := inbox, toGuest := outbox)
      case Guest => this.(guest := reaction.drive, toGuest := inbox, toHost := outbox)
    }
  }

  function Other(role: PeerRole): PeerRole {
    ProbeNetwork.Other(role)
  }

  const FRESH: Pair := Pair(UNSTARTED, UNSTARTED, [], [], 0)

  datatype Move = Begin(role: PeerRole) | Receive(role: PeerRole) | TimeOut(role: PeerRole) | Deadline(role: PeerRole)

  predicate Enabled(p: Pair, move: Move) {
    match move
    case Begin(role) => p.Drive(role).status == NotStarted
    case Receive(role) => p.Drive(role).status == Driving && p.Inbox(role) != []
    case TimeOut(role) => p.Drive(role).status == Driving
    case Deadline(role) => p.Drive(role).status == Driving
  }

  function Next(players: Players, p: Pair, move: Move): Pair
    requires Enabled(p, move)
  {
    var role := move.role;
    var player, drive, inbox, full := players.Of(role), p.Drive(role), p.Inbox(role), Full(p.Outbox(role));
    match move
    case Begin(_) => p.Put(role, inbox, StartDrive(player, full))
    case Receive(_) => p.Put(role, inbox[1..], DriveStep(player, drive, DriveTurn(Frame(inbox[0]), full)))
    case TimeOut(_) =>
      p.Put(role, inbox, DriveStep(player, drive, DriveTurn(Retry, full))).(timeouts := p.timeouts + 1)
    case Deadline(_) => p.Put(role, inbox, DriveStep(player, drive, DriveTurn(Expired, full)))
  }

  predicate EnabledAll(players: Players, p: Pair, moves: seq<Move>)
    decreases |moves|
  {
    moves == [] || (Enabled(p, moves[0]) && EnabledAll(players, Next(players, p, moves[0]), moves[1..]))
  }

  function After(players: Players, p: Pair, moves: seq<Move>): Pair
    requires EnabledAll(players, p, moves)
    decreases |moves|
  {
    if moves == [] then p else After(players, Next(players, p, moves[0]), moves[1..])
  }

  // ---- the pair over its queues ---------------------------------------------------------

  method TryToSend(player: Player, before: Drive, frame: nat, outbound: InputQueue) returns (drive: Drive)
    requires outbound.Valid()
    modifies outbound
    ensures outbound.Valid()
    ensures var next := TrySendFrame(player, before, frame, Full(old(outbound.frames)));
            drive == next.drive && outbound.frames == Extended(old(outbound.frames), next.out)
  {
    var sent := outbound.TrySend(FrameOf(player, frame));
    if !sent {
      return before.(status := Stopped(Backpressure));
    }
    return before.(framesSent := before.framesSent + 1);
  }

  method EnterFrame(player: Player, before: Drive, outbound: InputQueue) returns (drive: Drive)
    requires outbound.Valid()
    modifies outbound
    ensures outbound.Valid()
    ensures var next := NextFrame(player, before, Full(old(outbound.frames)));
            drive == next.drive && outbound.frames == Extended(old(outbound.frames), next.out)
  {
    if before.framesReceived < PROOF_FRAMES {
      drive := TryToSend(player, before, before.framesReceived, outbound);
    } else {
      drive := before.(status := Driven);
    }
  }

  /** One wake of a driving task, up to its next wait. */
  method TakeTurn(player: Player, before: Drive, wake: Wake, outbound: InputQueue) returns (drive: Drive)
    requires before.status == Driving && outbound.Valid()
    modifies outbound
    ensures outbound.Valid()
    ensures var next := DriveStep(player, before, DriveTurn(wake, Full(old(outbound.frames))));
            drive == next.drive && outbound.frames == Extended(old(outbound.frames), next.out)
  {
    hide NextFrame, Received, TrySendFrame;
    match wake {
      case Expired =>
        drive := before.(status := Stopped(DeadlineExceeded));
      case Retry =>
        drive := TryToSend(player, before, before.framesReceived, outbound);
      case Frame(remote) =>
        if remote.frame < before.framesReceived {
          drive := TryToSend(player, before, remote.frame, outbound);
        } else if remote.frame > before.framesReceived {
          drive := TryToSend(player, before, before.framesReceived, outbound);
        } else {
          drive := AbsorbRemote(player, before, remote);
          drive := EnterFrame(player, drive, outbound);
        }
    }
  }

  /** One move of a task whose peer writes to `inbound` and reads from `outbound`. */
  method MakeMove(player: Player, before: Drive, move: Move, inbound: InputQueue, outbound: InputQueue)
    returns (drive: Drive)
    requires inbound.Valid() && outbound.Valid() && inbound != outbound
    requires if move.Begin? then before == UNSTARTED else before.status == Driving
    requires move.Receive? ==> inbound.frames != []
    modifies inbound, outbound
    ensures inbound.Valid() && outbound.Valid()
    ensures var full := Full(old(outbound.frames));
            var next := match move
                        case Begin(_) => StartDrive(player, full)
                        case Receive(_) => DriveStep(player, before, DriveTurn(Frame(old(inbound.frames)[0]), full))
                        case TimeOut(_) => DriveStep(player, before, DriveTurn(Retry, full))
                        case Deadline(_) => DriveStep(player, before, DriveTurn(Expired, full));
            drive == next.drive && outbound.frames == Extended(old(outbound.frames), next.out)
    ensures inbound.frames == if move.Receive? then old(inbound.frames)[1..] else old(inbound.frames)
  {
    hide DriveStep, NextFrame, Extended;
    match move {
      case Begin(_) =>
        drive := EnterFrame(player, before.(status := Driving), outbound);
      case Receive(_) =>
        var remote := inbound.TryReceive();
        drive := TakeTurn(player, before, Frame(remote.value), outbound);
      case TimeOut(_) =>
        drive := TakeTurn(player, before, Retry, outbound);
      case Deadline(_) =>
        drive := TakeTurn(player, before, Expired, outbound);
    }
  }

  /** Both tasks over the two queues of an `InMemoryPeer` pair, in any interleaving, are the pair's run. */
  method JoinTasks(players: Players, moves: seq<Move>)
    returns (host: Drive, guest: Drive, toHost: InputQueue, toGuest: InputQueue)
    requires EnabledAll(players, FRESH, moves)
    ensures fresh(toHost) && fresh(toGuest)
    ensures var p := After(players, FRESH, moves);
            p.host == host && p.guest == guest && p.toHost == toHost.frames && p.toGuest == toGuest.frames
  {
    toHost := new InputQueue();
    toGuest := new InputQueue();
    host, guest := UNSTARTED, UNSTARTED;
    ghost var p := FRESH;
    for i := 0 to |moves|
      invariant toHost.Valid() && toGuest.Valid() && toHost != toGuest && fresh(toHost) && fresh(toGuest)
      invariant p.host == host && p.guest == guest && p.toHost == toHost.frames && p.toGuest == toGuest.frames
      invariant NotStartedIsUnstarted(host) && NotStartedIsUnstarted(guest)
      invariant EnabledAll(players, p, moves[i..]) && After(players, p, moves[i..]) == After(players, FRESH, moves)
    {
      hide DriveStep, StartDrive;
      var move := moves[i];
      assert moves[i..][0] == move && moves[i..][1..] == moves[i + 1..];
      StartingIsForGood(players, p, move);
      p := Next(players, p, move);
      if move.role == Host {
        host := MakeMove(players.Of(Host), host, move, toHost, toGuest);
      } else {
        guest := MakeMove(players.Of(Guest), guest, move, toGuest, toHost);
      }
    }
    assert moves[|moves|..] == [];
  }

  predicate NotStartedIsUnstarted(drive: Drive) {
    drive.status == NotStarted ==> drive == UNSTARTED
  }

  lemma StartingIsForGood(players: Players, p: Pair, move: Move)
    requires Enabled(p, move) && NotStartedIsUnstarted(p.host) && NotStartedIsUnstarted(p.guest)
    ensures var next := Next(players, p, move);
            NotStartedIsUnstarted(next.host) && NotStartedIsUnstarted(next.guest)
    ensures move.Begin? ==> p.Drive(move.role) == UNSTARTED
  {
  }

  // ---- order ----------------------------------------------------------------------------

  /** The newest frame a side has sent, or -1. */
  function Newest(drive: Drive): int {
    if drive.status == NotStarted then -1 else drive.framesReceived
  }

  /** Position `i` holds `frame`, and only older frames come before it. */
  predicate FirstOf(queue: seq<InputFrame>, frame: nat, i: nat) {
    i < |queue| && queue[i].frame == frame && forall j :: 0 <= j < i ==> queue[j].frame < frame
  }

  predicate Contains(queue: seq<InputFrame>, frame: nat) {
    exists i :: 0 <= i < |queue| && queue[i].frame == frame
  }

  /** The queue towards a side that waits for `frame`, filled by a peer whose newest frame is `newest`. */
  predicate InOrder(queue: seq<InputFrame>, peer: Player, newest: int, frame: nat) {
    && (forall i :: 0 <= i < |queue| ==>
          queue[i].frame <= newest && queue[i].frame < PROOF_FRAMES && queue[i] == FrameOf(peer, queue[i].frame))
    && (frame <= newest && frame < PROOF_FRAMES ==> exists i :: 0 <= i < |queue| && FirstOf(queue, frame, i))
    && (frame + 1 == newest < PROOF_FRAMES ==> Contains(queue, frame + 1))
  }

  /** A lossless FIFO never shows a side a frame from its future. */
  lemma HeadIsNotFromTheFuture(queue: seq<InputFrame>, peer: Player, newest: int, frame: nat)
    requires InOrder(queue, peer, newest, frame) && queue != [] && frame < PROOF_FRAMES
    ensures queue[0].frame <= frame && queue[0] == FrameOf(peer, queue[0].frame)
  {
  }

  lemma PopStale(queue: seq<InputFrame>, peer: Player, newest: int, frame: nat)
    requires InOrder(queue, peer, newest, frame) && queue != [] && queue[0].frame < frame
    ensures InOrder(queue[1..], peer, newest, frame)
  {
    var rest := queue[1..];
    if frame <= newest && frame < PROOF_FRAMES {
      var i :| 0 <= i < |queue| && FirstOf(queue, frame, i);
      assert rest[i - 1] == queue[i];
      assert FirstOf(rest, frame, i - 1);
    }
    if frame + 1 == newest < PROOF_FRAMES {
      var i :| 0 <= i < |queue| && queue[i].frame == frame + 1;
      assert rest[i - 1].frame == frame + 1;
    }
  }

  lemma PopAwaited(queue: seq<InputFrame>, peer: Player, newest: int, frame: nat)
    requires InOrder(queue, peer, newest, frame) && queue != [] && queue[0].frame == frame
    requires newest <= frame + 1
    ensures InOrder(queue[1..], peer, newest, frame + 1)
  {
    var rest := queue[1..];
    if frame + 1 <= newest && frame + 1 < PROOF_FRAMES {
      var i :| 0 <= i < |queue| && queue[i].frame == frame + 1;
      assert rest[i - 1].frame == frame + 1;
      FirstOccurrence(rest, frame + 1, i - 1);
    }
  }

  lemma {:induction false} FirstOccurrence(queue: seq<InputFrame>, frame: nat, i: nat)
    requires i < |queue| && queue[i].frame == frame
    requires forall j :: 0 <= j < |queue| ==> queue[j].frame <= frame
    ensures exists k :: 0 <= k < |queue| && FirstOf(queue, frame, k)
    decreases i
  {
    if j :| 0 <= j < i && queue[j].frame == frame {
      FirstOccurrence(queue, frame, j);
    } else {
      assert FirstOf(queue, frame, i);
    }
  }

  lemma PushKnown(queue: seq<InputFrame>, peer: Player, newest: int, frame: nat, again: nat)
    requires InOrder(queue, peer, newest, frame) && again <= newest && again < PROOF_FRAMES
    ensures InOrder(queue + [FrameOf(peer, again)], peer, newest, frame)
  {
    var longer := queue + [FrameOf(peer, again)];
    if frame <= newest && frame < PROOF_FRAMES {
      var i :| 0 <= i < |queue| && FirstOf(queue, frame, i);
      assert FirstOf(longer, frame, i);
    }
    if frame + 1 == newest < PROOF_FRAMES {
      var i :| 0 <= i < |queue| && queue[i].frame == frame + 1;
      assert longer[i].frame == frame + 1;
    }
  }

  lemma PushNew(queue: seq<InputFrame>, peer: Player, newest: int, frame: nat)
    requires InOrder(queue, peer, newest, frame) && -1 <= newest <= frame && newest + 1 < PROOF_FRAMES
    ensures InOrder(queue + [FrameOf(peer, newest + 1)], peer, newest + 1, frame)
  {
    var longer := queue + [FrameOf(peer, newest + 1)];
    assert longer[|queue|].frame == newest + 1;
    if frame <= newest {
      var i :| 0 <= i < |queue| && FirstOf(queue, frame, i);
      assert FirstOf(longer, frame, i);
    } else if frame == newest + 1 {
      assert FirstOf(longer, frame, |queue|);
    }
  }

  lemma FinishWithoutPush(queue: seq<InputFrame>, peer: Player, frame: nat)
    requires InOrder(queue, peer, PROOF_FRAMES - 1, frame) && PROOF_FRAMES - 1 <= frame
    ensures InOrder(queue, peer, PROOF_FRAMES, frame)
  {
  }

  // ---- what every run keeps -------------------------------------------------------------

  predicate Blocked(drive: Drive) {
    drive.status == Stopped(Backpressure)
  }

  predicate Unblocked(p: Pair) {
    !Blocked(p.host) && !Blocked(p.guest)
  }

  /** A side that met a full queue may not have sent the newest frame it reached. */
  predicate Carries(queue: seq<InputFrame>, player: Player, sender: Drive, frame: nat) {
    || InOrder(queue, player, Newest(sender), frame)
    || (Blocked(sender) && InOrder(queue, player, Newest(sender) - 1, frame))
  }

  lemma CarriedHead(queue: seq<InputFrame>, player: Player, sender: Drive, frame: nat)
    requires Carries(queue, player, sender, frame) && queue != [] && frame < PROOF_FRAMES
    ensures queue[0].frame <= frame && queue[0] == FrameOf(player, queue[0].frame)
  {
    hide InOrder;
    if InOrder(queue, player, Newest(sender), frame) {
      HeadIsNotFromTheFuture(queue, player, Newest(sender), frame);
    } else {
      HeadIsNotFromTheFuture(queue, player, Newest(sender) - 1, frame);
    }
  }

  lemma CarriedPop(queue: seq<InputFrame>, player: Player, sender: Drive, frame: nat)
    requires Carries(queue, player, sender, frame) && queue != [] && queue[0].frame <= frame
    requires Newest(sender) <= frame + 1
    ensures Carries(queue[1..], player, sender, if queue[0].frame < frame then frame else frame + 1)
  {
    hide InOrder;
    var newest := if InOrder(queue, player, Newest(sender), frame) then Newest(sender) else Newest(sender) - 1;
    if queue[0].frame < frame {
      PopStale(queue, player, newest, frame);
    } else {
      PopAwaited(queue, player, newest, frame);
    }
  }

  predicate DriveOk(drive: Drive) {
    && drive.framesReceived <= PROOF_FRAMES
    && (drive.status == NotStarted ==> drive.framesReceived == 0)
    && (drive.status == Driving ==> drive.framesReceived < PROOF_FRAMES)
    && (drive.status == Driven ==> drive.framesReceived == PROOF_FRAMES)
    && drive.framesSent >= drive.framesReceived + Count(drive.status == Driving)
  }

  function Count(b: bool): nat {
    if b then 1 else 0
  }

  /** The queue towards `role`, and how far its peer may be ahead. */
  predicate RoleOk(players: Players, p: Pair, role: PeerRole) {
    var drive, peer := p.Drive(role), p.Drive(Other(role));
    && DriveOk(drive)
    && Newest(peer) <= drive.framesReceived + 1
    && (drive.status == NotStarted ==> peer.framesReceived == 0)
    && Carries(p.Inbox(role), players.Of(Other(role)), peer, drive.framesReceived)
  }

  /** The side sent nothing the last time it could: it was done, or its queue was full. */
  predicate Withheld(drive: Drive) {
    drive.status == Driven || Blocked(drive)
  }

  /** Frames in flight: one for each started side and each retry, less one for each finished or blocked side. */
  predicate Counted(p: Pair) {
    |p.toHost| + |p.toGuest| + Count(Withheld(p.host)) + Count(Withheld(p.guest))
    == Count(p.host.status != NotStarted) + Count(p.guest.status != NotStarted) + p.timeouts
  }

  predicate Inv(players: Players, p: Pair) {
    RoleOk(players, p, Host) && RoleOk(players, p, Guest) && Counted(p)
  }

  /** How a reaction changes the side and the queue it sends to. */
  predicate Kept(players: Players, p: Pair, role: PeerRole, inbox: seq<InputFrame>, next: DriveReaction) {
    var drive, peer := p.Drive(role), p.Drive(Other(role));
    var out := if next.out.Some? then p.Outbox(role) + [next.out.value] else p.Outbox(role);
    && DriveOk(next.drive) && next.drive.status != NotStarted
    && Newest(drive) <= Newest(next.drive) <= peer.framesReceived + 1
    && (Newest(peer) == -1 ==> Newest(next.drive) == 0)
    && Carries(out, players.Of(role), next.drive, peer.framesReceived)
    && Carries(inbox, players.Of(Other(role)), peer, next.drive.framesReceived)
  }

  lemma ResendKeeps(players: Players, p: Pair, role: PeerRole, again: nat, inbox: seq<InputFrame>, full: bool)
    requires Inv(players, p) && p.Drive(role).status == Driving && again <= p.Drive(role).framesReceived
    requires Carries(inbox, players.Of(Other(role)), p.Drive(Other(role)), p.Drive(role).framesReceived)
    ensures Kept(players, p, role, inbox, TrySendFrame(players.Of(role), p.Drive(role), again, full))
  {
    hide InOrder;
    assert RoleOk(players, p, role) && RoleOk(players, p, Other(role));
    var drive := p.Drive(role);
    PushKnown(p.Outbox(role), players.Of(role), Newest(drive), p.Drive(Other(role)).framesReceived, again);
  }

  /** `entered` is about to send a frame newer than any before, or has received its last one. */
  lemma EnterKeeps(players: Players, p: Pair, role: PeerRole, entered: Drive, inbox: seq<InputFrame>, full: bool)
    requires Inv(players, p) && p.Drive(role).status in {NotStarted, Driving}
    requires entered.status == Driving && entered.framesReceived == Newest(p.Drive(role)) + 1 <= PROOF_FRAMES
    requires entered.framesSent >= entered.framesReceived
    requires entered.framesReceived <= Newest(p.Drive(Other(role))) + 1
    requires Carries(inbox, players.Of(Other(role)), p.Drive(Other(role)), entered.framesReceived)
    ensures Kept(players, p, role, inbox, NextFrame(players.Of(role), entered, full))
  {
    hide InOrder;
    assert RoleOk(players, p, role) && RoleOk(players, p, Other(role));
    var peer := p.Drive(Other(role));
    if entered.framesReceived < PROOF_FRAMES {
      PushNew(p.Outbox(role), players.Of(role), Newest(p.Drive(role)), peer.framesReceived);
    } else {
      FinishWithoutPush(p.Outbox(role), players.Of(role), peer.framesReceived);
    }
  }

  lemma ReceiveKeeps(players: Players, p: Pair, role: PeerRole, full: bool)
    requires Inv(players, p) && Enabled(p, Receive(role))
    ensures var inbox := p.Inbox(role);
            Kept(players, p, role, inbox[1..], OnRemoteFrame(players.Of(role), p.Drive(role), inbox[0], full))
  {
    hide Fnv.Fold, InOrder, Carries;
    var drive, inbox, peer := p.Drive(role), p.Inbox(role), p.Drive(Other(role));
    assert RoleOk(players, p, role) && RoleOk(players, p, Other(role));
    CarriedHead(inbox, players.Of(Other(role)), peer, drive.framesReceived);
    CarriedPop(inbox, players.Of(Other(role)), peer, drive.framesReceived);
    if inbox[0].frame < drive.framesReceived {
      ResendKeeps(players, p, role, inbox[0].frame, inbox[1..], full);
    } else {
      AwaitedFrameWasSent(players, p, role);
      EnterKeeps(players, p, role, Received(players.Of(role), drive, inbox[0]), inbox[1..], full);
    }
  }

  lemma AwaitedFrameWasSent(players: Players, p: Pair, role: PeerRole)
    requires RoleOk(players, p, role) && p.Inbox(role) != []
    ensures p.Inbox(role)[0].frame <= Newest(p.Drive(Other(role)))
  {
  }

  lemma PutKeepsRoles(players: Players, p: Pair, role: PeerRole, inbox: seq<InputFrame>, next: DriveReaction)
    requires Inv(players, p) && Kept(players, p, role, inbox, next)
    ensures RoleOk(players, p.Put(role, inbox, next), Host) && RoleOk(players, p.Put(role, inbox, next), Guest)
  {
    hide InOrder, Carries;
    assert RoleOk(players, p, role) && RoleOk(players, p, Other(role));
    var p' := p.Put(role, inbox, next);
    assert RoleOk(players, p', role) && RoleOk(players, p', Other(role));
  }

  lemma NextKeepsRoles(players: Players, p: Pair, move: Move)
    requires Inv(players, p) && Enabled(p, move)
    ensures RoleOk(players, Next(players, p, move), Host) && RoleOk(players, Next(players, p, move), Guest)
  {
    hide InOrder, OnRemoteFrame;
    var role := move.role;
    var player, drive, inbox, full := players.Of(role), p.Drive(role), p.Inbox(role), Full(p.Outbox(role));
    assert RoleOk(players, p, role) && RoleOk(players, p, Other(role));
    match move
    case Begin(_) =>
      EnterKeeps(players, p, role, UNSTARTED.(status := Driving), inbox, full);
      PutKeepsRoles(players, p, role, inbox, StartDrive(player, full));
    case Receive(_) =>
      ReceiveKeeps(players, p, role, full);
      PutKeepsRoles(players, p, role, inbox[1..], OnRemoteFrame(player, drive, inbox[0], full));
    case TimeOut(_) =>
      ResendKeeps(players, p, role, drive.framesReceived, inbox, full);
      PutKeepsRoles(players, p, role, inbox, TrySendFrame(player, drive, drive.framesReceived, full));
    case Deadline(_) =>
      PutKeepsRoles(players, p, role, inbox, DriveReaction(drive.(status := Stopped(DeadlineExceeded)), None));
  }

  lemma NextKeepsCount(players: Players, p: Pair, move: Move)
    requires Counted(p) && Enabled(p, move)
    ensures Counted(Next(players, p, move))
  {
    hide Fnv.Fold;
  }

  // ---- checksums ------------------------------------------------------------------------

  predicate Summed(drive: Drive) {
    drive.checksum == ProbeNetwork.CanonicalChecksum(drive.framesReceived)
  }

  lemma ReceivedKeepsSum(players: Players, role: PeerRole, drive: Drive)
    requires Summed(drive)
    ensures Summed(Received(players.Of(role), drive, FrameOf(players.Of(Other(role)), drive.framesReceived)))
  {
    var both := [InputOf(drive.framesReceived, Host), InputOf(drive.framesReceived, Guest)];
    var local := FrameOf(players.Of(role), drive.framesReceived);
    var remote := FrameOf(players.Of(Other(role)), drive.framesReceived);
    assert HostThenGuest(role, local, remote) == both;
    Fnv.FoldAppend(Fnv.FNV_OFFSET_BASIS, ProbeNetwork.Transcript(drive.framesReceived), both);
  }

  lemma NextKeepsSums(players: Players, p: Pair, move: Move)
    requires Inv(players, p) && Enabled(p, move) && Summed(p.host) && Summed(p.guest)
    ensures Summed(Next(players, p, move).host) && Summed(Next(players, p, move).guest)
  {
    hide InOrder, Carries, Fnv.Fold, ProbeNetwork.CanonicalChecksum;
    FreshIsGood(players);
    if move.Receive? {
      var drive := p.Drive(move.role);
      assert RoleOk(players, p, move.role);
      ReceivedKeepsSum(players, move.role, drive);
      CarriedHead(p.Inbox(move.role), players.Of(Other(move.role)), p.Drive(Other(move.role)), drive.framesReceived);
    }
  }

  // ---- whole runs -----------------------------------------------------------------------

  predicate Good(players: Players, p: Pair) {
    Inv(players, p) && Summed(p.host) && Summed(p.guest)
  }

  lemma FreshIsGood(players: Players)
    ensures Good(players, FRESH)
  {
    assert ProbeNetwork.Transcript(0) == [];
  }

  lemma NextKeepsGood(players: Players, p: Pair, move: Move)
    requires Good(players, p) && Enabled(p, move)
    ensures Good(players, Next(players, p, move))
  {
    NextKeepsRoles(players, p, move);
    NextKeepsCount(players, p, move);
    NextKeepsSums(players, p, move);
  }

  lemma {:induction false} RunsKeepGood(players: Players, p: Pair, moves: seq<Move>)
    requires Good(players, p) && EnabledAll(players, p, moves)
    ensures Good(players, After(players, p, moves))
    decreases |moves|
  {
    hide Next, Good;
    if moves != [] {
      NextKeepsGood(players, p, moves[0]);
      RunsKeepGood(players, Next(players, p, moves[0]), moves[1..]);
    }
  }

  /**
   However the sides are scheduled, also while one of them runs on after the other stopped: the
   frames in flight are one for each started side and each retry, less one for each side that
   finished or met a full queue; no side is about to receive a frame from its future; and a
   finished side holds all sixty frames and the canonical checksum.
   */
  lemma LosslessOrder(players: Players, moves: seq<Move>)
    requires EnabledAll(players, FRESH, moves)
    ensures var p := After(players, FRESH, moves);
            && Counted(p)
            && (forall role :: Enabled(p, Receive(role)) ==> p.Inbox(role)[0].frame <= p.Drive(role).framesReceived)
            && (forall role :: p.Drive(role).status == Driven ==> Complete(p.Drive(role)))
  {
    FreshIsGood(players);
    RunsKeepGood(players, FRESH, moves);
    var p := After(players, FRESH, moves);
    forall role
      ensures Enabled(p, Receive(role)) ==> p.Inbox(role)[0].frame <= p.Drive(role).framesReceived
      ensures p.Drive(role).status == Driven ==> Complete(p.Drive(role))
    {
      GoodSides(players, p, role);
    }
  }

  /** A side with all its frames, at least as many sends, and the canonical checksum. */
  predicate Complete(drive: Drive) {
    && drive.status == Driven && drive.framesReceived == PROOF_FRAMES
    && drive.framesSent >= PROOF_FRAMES
    && drive.checksum == ProbeNetwork.CanonicalChecksum(PROOF_FRAMES)
  }

  lemma GoodSides(players: Players, p: Pair, role: PeerRole)
    requires Good(players, p)
    ensures Enabled(p, Receive(role)) ==> p.Inbox(role)[0].frame <= p.Drive(role).framesReceived
    ensures p.Drive(role).status == Driven ==> Complete(p.Drive(role))
  {
    hide InOrder, Carries, ProbeNetwork.CanonicalChecksum;
    assert RoleOk(players, p, role);
    if Enabled(p, Receive(role)) {
      CarriedHead(p.Inbox(role), players.Of(Other(role)), p.Drive(Other(role)), p.Drive(role).framesReceived);
    }
  }

  // ---- backpressure ---------------------------------------------------------------------

  const SAFE_RETRIES: nat := INPUT_QUEUE_CAPACITY - 2

  lemma QueuesHaveRoom(players: Players, p: Pair, move: Move)
    requires Inv(players, p) && Unblocked(p) && Enabled(p, move) && Next(players, p, move).timeouts <= SAFE_RETRIES
    ensures Unblocked(Next(players, p, move))
  {
    hide InOrder, Carries, Fnv.Fold;
    assert RoleOk(players, p, Host) && RoleOk(players, p, Guest);
    assert !move.Deadline? ==> !Full(p.Outbox(move.role));
  }

  lemma {:induction false} TimeoutsOnlyGrow(players: Players, p: Pair, moves: seq<Move>)
    requires EnabledAll(players, p, moves)
    ensures p.timeouts <= After(players, p, moves).timeouts
    decreases |moves|
  {
    if moves != [] {
      TimeoutsOnlyGrow(players, Next(players, p, moves[0]), moves[1..]);
    }
  }

  lemma {:induction false} FewRetriesKeepRoom(players: Players, p: Pair, moves: seq<Move>)
    requires Good(players, p) && Unblocked(p) && EnabledAll(players, p, moves)
    requires After(players, p, moves).timeouts <= SAFE_RETRIES
    ensures Unblocked(After(players, p, moves))
    decreases |moves|
  {
    hide Next, Unblocked;
    if moves != [] {
      TimeoutsOnlyGrow(players, Next(players, p, moves[0]), moves[1..]);
      QueuesHaveRoom(players, p, moves[0]);
      NextKeepsGood(players, p, moves[0]);
      FewRetriesKeepRoom(players, Next(players, p, moves[0]), moves[1..]);
    }
  }

  /** A run with at most 118 retries never meets backpressure. */
  lemma NoBackpressure(players: Players, moves: seq<Move>)
    requires EnabledAll(players, FRESH, moves) && After(players, FRESH, moves).timeouts <= 118
    ensures Unblocked(After(players, FRESH, moves))
  {
    FreshIsGood(players);
    FewRetriesKeepRoom(players, FRESH, moves);
  }

  function Retries(role: PeerRole, count: nat): seq<Move> {
    seq(count, _ => TimeOut(role))
  }

  /** Host retries fill the queue towards the guest. */
  lemma {:induction false} RetriesPileUp(players: Players, p: Pair, count: nat)
    requires p.host.status == Driving && |p.toGuest| + count <= INPUT_QUEUE_CAPACITY
    ensures EnabledAll(players, p, Retries(Host, count))
    ensures var p' := After(players, p, Retries(Host, count));
            && p'.host.status == Driving && p'.host.framesReceived == p.host.framesReceived
            && p'.guest == p.guest && p'.toHost == p.toHost
            && |p'.toGuest| == |p.toGuest| + count && p'.timeouts == p.timeouts + count
    decreases count
  {
    if count > 0 {
      assert Retries(Host, count)[0] == TimeOut(Host);
      assert Retries(Host, count)[1..] == Retries(Host, count - 1);
      RetriesPileUp(players, Next(players, p, TimeOut(Host)), count - 1);
    }
  }

  /** 118 is the exact bound: some run with 119 retries does stop a side with backpressure. */
  lemma OneMoreRetryOverflows(players: Players) returns (moves: seq<Move>)
    ensures EnabledAll(players, FRESH, moves)
    ensures After(players, FRESH, moves).timeouts == 119
    ensures After(players, FRESH, moves).host.status == Stopped(Backpressure)
  {
    var p1 := Next(players, FRESH, Begin(Host));
    var p2 := Next(players, p1, Begin(Guest));
    var retries := Retries(Host, SAFE_RETRIES + 1);
    RetriesPileUp(players, p2, SAFE_RETRIES + 1);
    var p3 := After(players, p2, retries);
    assert p3.toHost == [FrameOf(players.Of(Guest), 0)];
    var p4 := Next(players, p3, Receive(Host));
    assert [Receive(Host)][1..] == [];
    assert EnabledAll(players, p4, []);
    AfterAppend(players, p2, retries, [Receive(Host)]);
    moves := [Begin(Host)] + ([Begin(Guest)] + (retries + [Receive(Host)]));
    assert moves[1..] == [Begin(Guest)] + (retries + [Receive(Host)]);
    assert moves[1..][1..] == retries + [Receive(Host)];
  }

  lemma {:induction false} AfterAppend(players: Players, p: Pair, a: seq<Move>, b: seq<Move>)
    requires EnabledAll(players, p, a) && EnabledAll(players, After(players, p, a), b)
    ensures EnabledAll(players, p, a + b)
    ensures After(players, p, a + b) == After(players, After(players, p, a), b)
    decreases |a|
  {
    hide Next;
    if a == [] {
      assert a + b == b;
    } else {
      assert (a + b)[1..] == a[1..] + b;
      AfterAppend(players, Next(players, p, a[0]), a[1..], b);
    }
  }

  // ---- runs without retries -------------------------------------------------------------

  function SentUpTo(drive: Drive): nat {
    if drive.status == NotStarted then 0 else Min(drive.framesReceived + 1, PROOF_FRAMES)
  }

  /** The queue holds the peer's frames `from`, `from + 1`, ... and nothing else. */
  predicate Exact(queue: seq<InputFrame>, peer: Player, from: nat, upTo: nat) {
    && |queue| == upTo - from
    && forall i :: 0 <= i < |queue| ==> queue[i] == FrameOf(peer, from + i)
  }

  predicate OnTime(drive: Drive) {
    && drive.framesReceived <= PROOF_FRAMES && drive.framesSent == SentUpTo(drive)
    && (drive.status == NotStarted ==> drive.framesReceived == 0)
    && (drive.status == Driving <==> drive.status != NotStarted && drive.framesReceived < PROOF_FRAMES)
    && (drive.status == Driven <==> drive.framesReceived == PROOF_FRAMES)
  }

  predicate Lockstep(players: Players, p: Pair) {
    && OnTime(p.host) && OnTime(p.guest)
    && Exact(p.toHost, players.Of(Guest), p.host.framesReceived, SentUpTo(p.guest))
    && Exact(p.toGuest, players.Of(Host), p.guest.framesReceived, SentUpTo(p.host))
  }

  predicate Punctual(move: Move) {
    move.Begin? || move.Receive?
  }

  function Progress(p: Pair): nat {
    Count(p.host.status != NotStarted) + Count(p.guest.status != NotStarted)
    + p.host.framesReceived + p.guest.framesReceived
  }

  lemma PopExact(queue: seq<InputFrame>, peer: Player, from: nat, upTo: nat)
    requires Exact(queue, peer, from, upTo) && queue != []
    ensures queue[0] == FrameOf(peer, from) && Exact(queue[1..], peer, from + 1, upTo)
  {
    forall i | 0 <= i < |queue| - 1 ensures queue[1..][i] == FrameOf(peer, from + 1 + i) {
      assert queue[1..][i] == queue[i + 1];
    }
  }

  lemma PushExact(queue: seq<InputFrame>, peer: Player, from: nat, upTo: nat)
    requires Exact(queue, peer, from, upTo) && from <= upTo
    ensures Exact(queue + [FrameOf(peer, upTo)], peer, from, upTo + 1)
  {
  }

  lemma BeginKeepsLockstep(players: Players, p: Pair, role: PeerRole)
    requires Lockstep(players, p) && Enabled(p, Begin(role))
    ensures Lockstep(players, Next(players, p, Begin(role)))
    ensures Progress(Next(players, p, Begin(role))) == Progress(p) + 1
  {
    hide Fnv.Fold;
    var drive, outbox := p.Drive(role), p.Outbox(role);
    assert |outbox| <= PROOF_FRAMES;
    PushExact(outbox, players.Of(role), p.Drive(Other(role)).framesReceived, SentUpTo(drive));
    hide Exact;
  }

  lemma ReceiveKeepsLockstep(players: Players, p: Pair, role: PeerRole)
    requires Lockstep(players, p) && Enabled(p, Receive(role))
    ensures Lockstep(players, Next(players, p, Receive(role)))
    ensures Progress(Next(players, p, Receive(role))) == Progress(p) + 1
  {
    hide Fnv.Fold;
    var drive, inbox, outbox := p.Drive(role), p.Inbox(role), p.Outbox(role);
    assert |outbox| <= PROOF_FRAMES;
    PushExact(outbox, players.Of(role), p.Drive(Other(role)).framesReceived, SentUpTo(drive));
    PopExact(inbox, players.Of(Other(role)), drive.framesReceived, SentUpTo(p.Drive(Other(role))));
    hide Exact;
  }

  lemma NextKeepsLockstep(players: Players, p: Pair, move: Move)
    requires Lockstep(players, p) && Enabled(p, move) && Punctual(move)
    ensures Lockstep(players, Next(players, p, move))
    ensures Progress(Next(players, p, move)) == Progress(p) + 1
  {
    hide Next, Lockstep, Enabled, Progress;
    if move.Begin? {
      BeginKeepsLockstep(players, p, move.role);
    } else {
      ReceiveKeepsLockstep(players, p, move.role);
    }
  }

  /**
   Without retries every step makes progress, so a run has at most 122 steps; and whenever no
   step is left, both sides are done after exactly sixty sends each.
   */
  lemma {:induction false} RunsWithoutRetriesFinish(players: Players, p: Pair, moves: seq<Move>)
    requires Lockstep(players, p) && EnabledAll(players, p, moves)
    requires forall move :: move in moves ==> Punctual(move)
    ensures Lockstep(players, After(players, p, moves))
    ensures Progress(After(players, p, moves)) == Progress(p) + |moves| <= 2 + 2 * PROOF_FRAMES
    decreases |moves|
  {
    if moves != [] {
      NextKeepsLockstep(players, p, moves[0]);
      RunsWithoutRetriesFinish(players, Next(players, p, moves[0]), moves[1..]);
    }
  }

  lemma NoStepLeftMeansDone(players: Players, p: Pair)
    requires Lockstep(players, p) && forall move :: Punctual(move) ==> !Enabled(p, move)
    ensures p.host.status == Driven && p.host.framesSent == PROOF_FRAMES
    ensures p.guest.status == Driven && p.guest.framesSent == PROOF_FRAMES
  {
    assert !Enabled(p, Begin(Host)) && !Enabled(p, Begin(Guest));
    assert !Enabled(p, Receive(Host)) && !Enabled(p, Receive(Guest));
  }

  lemma FreshIsInLockstep(players: Players)
    ensures Lockstep(players, FRESH) && Progress(FRESH) == 0
  {
  }

  /** The run has used up the steps that Begin and Receive offer. */
  ghost predicate Exhausted(p: Pair) {
    forall move :: Punctual(move) ==> !Enabled(p, move)
  }

  /**
   Every run without retries, from the start: it has at most 122 steps; it can go on exactly while
   it has fewer; and when it cannot, both sides are done with the canonical checksum, after exactly
   sixty sends each.
   */
  lemma ProofsFinishWithoutRetries(players: Players, moves: seq<Move>)
    requires EnabledAll(players, FRESH, moves) && forall move :: move in moves ==> Punctual(move)
    ensures |moves| <= 122
    ensures var p := After(players, FRESH, moves);
            && (Exhausted(p) <==> |moves| == 122)
            && (Exhausted(p) ==>
                  Complete(p.host) && p.host.framesSent == 60 && Complete(p.guest) && p.guest.framesSent == 60)
  {
    hide Next, Fnv.Fold, ProbeNetwork.CanonicalChecksum, Exact;
    FreshIsInLockstep(players);
    RunsWithoutRetriesFinish(players, FRESH, moves);
    LosslessOrder(players, moves);
    var p := After(players, FRESH, moves);
    if Exhausted(p) {
      NoStepLeftMeansDone(players, p);
      assert p.Drive(Host) == p.host && p.Drive(Guest) == p.guest;
    }
  }

  // ---- the sides of a pair are runs of the loop -----------------------------------------

  lemma {:induction false} EnabledPrefix(players: Players, p: Pair, a: seq<Move>, b: seq<Move>)
    requires EnabledAll(players, p, a + b)
    ensures EnabledAll(players, p, a) && EnabledAll(players, After(players, p, a), b)
    ensures After(players, p, a + b) == After(players, After(players, p, a), b)
    decreases |a|
  {
    hide Next;
    if a == [] {
      assert a + b == b;
    } else {
      assert (a + b)[1..] == a[1..] + b;
      EnabledPrefix(players, Next(players, p, a[0]), a[1..], b);
    }
  }

  lemma LastMove(players: Players, moves: seq<Move>)
    requires EnabledAll(players, FRESH, moves) && moves != []
    ensures var before, last := moves[..|moves| - 1], moves[|moves| - 1];
            && EnabledAll(players, FRESH, before) && Enabled(After(players, FRESH, before), last)
            && After(players, FRESH, moves) == Next(players, After(players, FRESH, before), last)
  {
    hide Next;
    var before, last := moves[..|moves| - 1], moves[|moves| - 1];
    assert moves == before + [last];
    EnabledPrefix(players, FRESH, before, [last]);
    assert [last][1..] == [];
  }

  /** What a move wakes its side with; whether its queue is full is the pair's own queue's answer. */
  function TurnOf(p: Pair, move: Move): DriveTurn
    requires Enabled(p, move) && !move.Begin?
  {
    DriveTurn(match move case Receive(role) => Frame(p.Inbox(role)[0]) case TimeOut(_) => Retry case Deadline(_) => Expired,
              Full(p.Outbox(move.role)))
  }

  /** The turns `role` took in a run, in order. */
  function Turns(players: Players, moves: seq<Move>, role: PeerRole): seq<DriveTurn>
    requires EnabledAll(players, FRESH, moves)
    decreases |moves|
  {
    if moves == [] then []
    else
      var before, last := moves[..|moves| - 1], moves[|moves| - 1];
      LastMove(players, moves);
      Turns(players, before, role)
      + (if last.role == role && !last.Begin? then [TurnOf(After(players, FRESH, before), last)] else [])
  }

  /** Whether the queue was full for the first send of `role`, once it has begun. */
  function FirstFull(players: Players, moves: seq<Move>, role: PeerRole): Option<bool>
    requires EnabledAll(players, FRESH, moves)
    decreases |moves|
  {
    if moves == [] then None
    else
      var before, last := moves[..|moves| - 1], moves[|moves| - 1];
      LastMove(players, moves);
      if last == Begin(role) then Some(Full(After(players, FRESH, before).Outbox(role)))
      else FirstFull(players, before, role)
  }

  /** The frames that woke a side. */
  function Taken(turns: seq<DriveTurn>): seq<InputFrame> {
    if turns == [] then []
    else
      var last := turns[|turns| - 1];
      Taken(turns[..|turns| - 1]) + (if last.wake.Frame? then [last.wake.remote] else [])
  }

  function SentBy(players: Players, moves: seq<Move>, role: PeerRole): seq<InputFrame>
    requires EnabledAll(players, FRESH, moves)
  {
    var turns, first := Turns(players, moves, role), FirstFull(players, moves, role);
    if first.None? then [] else FramesTo(players.Of(role), first.value, turns, |turns|)
  }

  predicate RunsItsTurns(players: Players, moves: seq<Move>, role: PeerRole)
    requires EnabledAll(players, FRESH, moves)
  {
    var drive, turns := After(players, FRESH, moves).Drive(role), Turns(players, moves, role);
    match FirstFull(players, moves, role)
    case None => drive == UNSTARTED && turns == []
    case Some(full) => drive == DriveTo(players.Of(role), full, turns, |turns|)
  }

  lemma {:induction false} DriveToOfPrefix(player: Player, full: bool, turns: seq<DriveTurn>, more: seq<DriveTurn>, count: nat)
    requires count <= |turns|
    ensures DriveTo(player, full, turns + more, count) == DriveTo(player, full, turns, count)
    ensures FramesTo(player, full, turns + more, count) == FramesTo(player, full, turns, count)
    decreases count
  {
    if count > 0 {
      DriveToOfPrefix(player, full, turns, more, count - 1);
      assert (turns + more)[count - 1] == turns[count - 1];
    }
  }

  lemma {:induction false} StartedStaysStarted(player: Player, full: bool, turns: seq<DriveTurn>, count: nat)
    requires count <= |turns|
    ensures DriveTo(player, full, turns, count).status != NotStarted
    decreases count
  {
    if count > 0 {
      StartedStaysStarted(player, full, turns, count - 1);
    }
  }

  /** One move, seen from the side that takes it. */
  lemma MoveIsATurn(players: Players, p: Pair, move: Move)
    requires Enabled(p, move)
    ensures var role, next := move.role, Next(players, p, move);
            var reaction := if move.Begin? then StartDrive(players.Of(role), Full(p.Outbox(role)))
                            else DriveStep(players.Of(role), p.Drive(role), TurnOf(p, move));
            && next.Drive(role) == reaction.drive && next.Outbox(role) == Extended(p.Outbox(role), reaction.out)
            && next.Drive(Other(role)) == p.Drive(Other(role))
            && next.Inbox(role) == if move.Receive? then p.Inbox(role)[1..] else p.Inbox(role)
  {
    hide DriveStep, StartDrive;
  }

  /** Each side of a pair is where `drive_side` is after that side's own turns, its own queue saying when it was full. */
  lemma {:induction false} SidesRunTheLoop(players: Players, moves: seq<Move>, role: PeerRole)
    requires EnabledAll(players, FRESH, moves)
    ensures RunsItsTurns(players, moves, role)
    decreases |moves|
  {
    hide DriveStep, StartDrive, Next;
    if moves != [] {
      var before, last := moves[..|moves| - 1], moves[|moves| - 1];
      LastMove(players, moves);
      SidesRunTheLoop(players, before, role);
      var p, turns := After(players, FRESH, before), Turns(players, before, role);
      MoveIsATurn(players, p, last);
      if last.role != role {
        assert Other(last.role) == role && Turns(players, moves, role) == turns;
      } else if last.Begin? {
        if FirstFull(players, before, role).Some? {
          StartedStaysStarted(players.Of(role), FirstFull(players, before, role).value, turns, |turns|);
        }
      } else if FirstFull(players, before, role).Some? {
        DriveToOfPrefix(players.Of(role), FirstFull(players, before, role).value, turns, [TurnOf(p, last)], |turns|);
      }
    }
  }

  predicate Continues(players: Players, before: seq<Move>, last: Move) {
    && EnabledAll(players, FRESH, before) && Enabled(After(players, FRESH, before), last)
    && EnabledAll(players, FRESH, before + [last])
  }

  lemma TurnsNext(players: Players, before: seq<Move>, last: Move, role: PeerRole)
    requires Continues(players, before, last)
    ensures var p := After(players, FRESH, before);
            && (last.role != role || last.Begin? ==>
                  Turns(players, before + [last], role) == Turns(players, before, role))
            && Taken(Turns(players, before + [last], role))
               == Taken(Turns(players, before, role)) + (if last == Receive(role) then [p.Inbox(role)[0]] else [])
  {
    hide Next;
    assert (before + [last])[..|before|] == before;
    var turns := Turns(players, before, role);
    if last.role == role && !last.Begin? {
      var turn := TurnOf(After(players, FRESH, before), last);
      assert (turns + [turn])[..|turns|] == turns;
    } else {
      assert Turns(players, before + [last], role) == turns;
    }
  }

  lemma SentNext(players: Players, before: seq<Move>, last: Move, role: PeerRole)
    requires Continues(players, before, last)
    ensures var p := After(players, FRESH, before);
            var reaction := if last.Begin? then StartDrive(players.Of(role), Full(p.Outbox(role)))
                            else DriveStep(players.Of(role), p.Drive(role), TurnOf(p, last));
            SentBy(players, before + [last], role)
            == Extended(SentBy(players, before, role), if last.role == role then reaction.out else None)
  {
    hide DriveStep, StartDrive, Next;
    assert (before + [last])[..|before|] == before;
    SidesRunTheLoop(players, before, role);
    var p, turns, first := After(players, FRESH, before), Turns(players, before, role), FirstFull(players, before, role);
    if last.role != role {
      TurnsNext(players, before, last, role);
    } else if last.Begin? {
      TurnsNext(players, before, last, role);
      if first.Some? {
        StartedStaysStarted(players.Of(role), first.value, turns, |turns|);
      }
    } else {
      DriveToOfPrefix(players.Of(role), first.value, turns, [TurnOf(p, last)], |turns|);
    }
  }

  lemma FirstInFirstOut(sent: seq<InputFrame>, taken: seq<InputFrame>, queue: seq<InputFrame>, out: Option<InputFrame>)
    requires sent == taken + queue
    ensures Extended(sent, out) == taken + Extended(queue, out)
    ensures queue != [] ==> sent == (taken + [queue[0]]) + queue[1..]
  {
  }

  lemma QueueAfterMove(players: Players, p: Pair, move: Move, role: PeerRole)
    requires Enabled(p, move)
    ensures var next := Next(players, p, move);
            var reaction := if move.Begin? then StartDrive(players.Of(role), Full(p.Outbox(role)))
                            else DriveStep(players.Of(role), p.Drive(role), TurnOf(p, move));
            && (move.role == role ==> next.Outbox(role) == Extended(p.Outbox(role), reaction.out))
            && (move == Receive(Other(role)) ==> p.Inbox(Other(role)) == p.Outbox(role) != [])
            && (move.role != role ==>
                  next.Outbox(role) == if move.Receive? then p.Outbox(role)[1..] else p.Outbox(role))
  {
    hide DriveStep, StartDrive, Next, Extended;
    MoveIsATurn(players, p, move);
  }

  lemma MoveConserves(players: Players, before: seq<Move>, last: Move, role: PeerRole)
    requires Continues(players, before, last)
    requires SentBy(players, before, role)
             == Taken(Turns(players, before, Other(role))) + After(players, FRESH, before).Outbox(role)
    ensures SentBy(players, before + [last], role)
            == Taken(Turns(players, before + [last], Other(role)))
               + Next(players, After(players, FRESH, before), last).Outbox(role)
  {
    hide DriveStep, StartDrive, Next, Turns, Taken, SentBy, After, EnabledAll, Extended, TurnOf, Full;
    var p := After(players, FRESH, before);
    TurnsNext(players, before, last, Other(role));
    SentNext(players, before, last, role);
    QueueAfterMove(players, p, last, role);
    var reaction := if last.Begin? then StartDrive(players.Of(role), Full(p.Outbox(role)))
                    else DriveStep(players.Of(role), p.Drive(role), TurnOf(p, last));
    FirstInFirstOut(SentBy(players, before, role), Taken(Turns(players, before, Other(role))), p.Outbox(role),
                    if last.role == role then reaction.out else None);
    NothingMore(SentBy(players, before, role));
  }

  /**
   The queues lose, repeat and reorder nothing: what a side sent is what its peer has received so
   far, followed by what is still queued.
   */
  lemma {:induction false} SentIsReceivedOrQueued(players: Players, moves: seq<Move>, role: PeerRole)
    requires EnabledAll(players, FRESH, moves)
    ensures SentBy(players, moves, role)
            == Taken(Turns(players, moves, Other(role))) + After(players, FRESH, moves).Outbox(role)
    decreases |moves|
  {
    if moves != [] {
      hide Next, Turns, Taken, SentBy, After, EnabledAll;
      var before, last := moves[..|moves| - 1], moves[|moves| - 1];
      LastMove(players, moves);
      assert before + [last] == moves;
      SentIsReceivedOrQueued(players, before, role);
      MoveConserves(players, before, last, role);
    }
  }

  lemma NothingMore(sent: seq<InputFrame>)
    ensures Extended(sent, None) == sent
  {
  }
}
