/**
 One side of the deterministic match probe.

 `Step` is the probe's reaction to one thing that happens at its await point, and `Run` folds
 it over a history. `RunMatchProbe` is the loop itself: its `turns` argument lists what each
 await delivered, in order, and what the network answered to the send that followed.
 */
module Probe {
  import opened Words
  import opened Text
  import Fnv

  const MAX_PROBE_FRAMES: nat := 10_000
  const MAX_INPUT_BYTES: nat := 256

  datatype PeerRole = Host | Guest

  datatype TransportKind = InMemory | DirectUdp | HolePunch | Stun | Relay

  datatype InputFrame = InputFrame(frame: nat, playerId: string, input: seq<Byte>)

  datatype ProbePacket =
    | Input(roomId: string, sessionKey: string, frame: InputFrame)
    | Punch(version: nat, roomId: string, sessionKey: string)

  /** Failures that a transport reports by itself. */
  datatype TransportFault = Io | Serialization | RelayFailure

  datatype TransportError =
    | InvalidPlayer
    | FrameTooLarge(bytes: nat)
    | InvalidConfiguration
    | PeerMismatch
    | Timeout(receivedFrames: nat, expectedFrames: nat)
    | Broken(fault: TransportFault)

  // ---- configuration --------------------------------------------------------------------

  datatype MatchDescriptor = MatchDescriptor(
    roomId: string,
    gameId: string,
    localUserId: string,
    peerUserId: string,
    role: PeerRole,
    transport: TransportKind,
    inputDelayFrames: nat
  ) {
    predicate Validate() {
      && !IsBlank(roomId) && !IsBlank(gameId) && !IsBlank(localUserId) && !IsBlank(peerUserId)
      && localUserId != peerUserId
      && inputDelayFrames <= 15
    }
  }

  type FrameCount = n: int | 1 <= n <= MAX_PROBE_FRAMES witness 1

  datatype MatchProbeConfig = MatchProbeConfig(
    descriptor: MatchDescriptor,
    sessionKey: string,
    frameCount: FrameCount,
    timeout: nat
  ) {
    /** What `New` guarantees of the configurations it returns. */
    predicate Valid() {
      && descriptor.Validate()
      && descriptor.transport in {DirectUdp, Relay}
      && !IsBlank(sessionKey) && Utf8Len(sessionKey) <= 128
      && timeout > 0
    }

    static function New(descriptor: MatchDescriptor, sessionKey: string, frameCount: nat, timeout: nat)
      : (r: Result<MatchProbeConfig, TransportError>)
      ensures r.Success? ==>
                && r.value.descriptor == descriptor && r.value.sessionKey == sessionKey
                && r.value.frameCount == frameCount && r.value.timeout == timeout && r.value.Valid()
      ensures 1 <= frameCount <= MAX_PROBE_FRAMES ==>
                (r.Success? <==> MatchProbeConfig(descriptor, sessionKey, frameCount, timeout).Valid())
    {
      if !descriptor.Validate() then Failure(InvalidConfiguration)
      else if descriptor.transport != DirectUdp && descriptor.transport != Relay then Failure(InvalidConfiguration)
      else if IsBlank(sessionKey) || Utf8Len(sessionKey) > 128 then Failure(InvalidConfiguration)
      else if frameCount < 1 || frameCount > MAX_PROBE_FRAMES then Failure(InvalidConfiguration)
      else if timeout == 0 then Failure(InvalidConfiguration)
      else Success(MatchProbeConfig(descriptor, sessionKey, frameCount, timeout))
    }
  }

  /** The bounds in numbers, outside which no configuration is made. */
  lemma ConfigurationsAreMadeExactlyWhen(d: MatchDescriptor, sessionKey: string, frameCount: nat, timeout: nat)
    ensures MatchProbeConfig.New(d, sessionKey, frameCount, timeout).Success? <==>
              && !IsBlank(d.roomId) && !IsBlank(d.gameId) && !IsBlank(d.localUserId) && !IsBlank(d.peerUserId)
              && d.localUserId != d.peerUserId && d.inputDelayFrames <= 15
              && (d.transport == DirectUdp || d.transport == Relay)
              && !IsBlank(sessionKey) && Utf8Len(sessionKey) <= 128
              && 1 <= frameCount <= 10_000 && timeout > 0
    ensures MatchProbeConfig.New(d, sessionKey, frameCount, timeout).Failure? ==>
              MatchProbeConfig.New(d, sessionKey, frameCount, timeout).error == InvalidConfiguration
  {
    hide IsBlank, Utf8Len;
  }

  // ---- frames ---------------------------------------------------------------------------

  function NewInputFrame(frame: nat, playerId: string, input: seq<Byte>): Result<InputFrame, TransportError> {
    if IsBlank(playerId) then Failure(InvalidPlayer)
    else if |input| > MAX_INPUT_BYTES then Failure(FrameTooLarge(|input|))
    else Success(InputFrame(frame, playerId, input))
  }

  function InputOf(frame: nat, role: PeerRole): Byte {
    match role
    case Host => frame % 4
    case Guest => (frame + 2) % 4
  }

  function DeterministicFrame(frame: nat, playerId: string, role: PeerRole): Result<InputFrame, TransportError> {
    NewInputFrame(frame, playerId, [InputOf(frame, role)])
  }

  /** The frame a side sends for `frame`. */
  function LocalFrame(config: MatchProbeConfig, frame: nat): InputFrame {
    InputFrame(frame, config.descriptor.localUserId, [InputOf(frame, config.descriptor.role)])
  }

  /** In a valid configuration every frame can be built, so the probe never fails on its own input. */
  lemma ValidConfigsBuildEveryFrame(config: MatchProbeConfig, frame: nat)
    requires config.Valid()
    ensures DeterministicFrame(frame, config.descriptor.localUserId, config.descriptor.role)
            == Success(LocalFrame(config, frame))
  {
  }

  function PacketFor(config: MatchProbeConfig, frame: nat): ProbePacket
  {
    Input(config.descriptor.roomId, config.sessionKey, LocalFrame(config, frame))
  }

  function ValidatedRemoteFrame(packet: ProbePacket, config: MatchProbeConfig)
    : Result<Option<InputFrame>, TransportError>
  {
    match packet
    case Punch(_, _, _) => Success(None)
    case Input(roomId, sessionKey, frame) =>
      if || roomId != config.descriptor.roomId
         || sessionKey != config.sessionKey
         || frame.playerId != config.descriptor.peerUserId
         || |frame.input| > MAX_INPUT_BYTES
      then Failure(PeerMismatch)
      else Success(Some(frame))
  }

  // ---- transcript checksum --------------------------------------------------------------

  /** Both inputs of a frame in canonical order: the host's bytes, then the guest's. */
  function HostThenGuest(role: PeerRole, local: InputFrame, remote: InputFrame): seq<Byte> {
    match role
    case Host => local.input + remote.input
    case Guest => remote.input + local.input
  }

  method UpdateTranscriptChecksum(checksum: U64, role: PeerRole, local: InputFrame, remote: InputFrame)
    returns (updated: U64)
    ensures updated == Fnv.Fold(checksum, HostThenGuest(role, local, remote))
  {
    var host, guest := local, remote;
    if role == Guest {
      host, guest := remote, local;
    }
    var bytes := host.input + guest.input;
    updated := checksum;
    for i := 0 to |bytes|
      invariant updated == Fnv.Fold(checksum, bytes[..i])
    {
      assert bytes[..i + 1] == bytes[..i] + [bytes[i]];
      Fnv.FoldAppend(checksum, bytes[..i], [bytes[i]]);
      updated := 256 * (updated / 256) + XorByte(updated % 256, bytes[i]);
      updated := Fnv.WrappingMul(updated, Fnv.FNV_PRIME);
    }
    assert bytes[..|bytes|] == bytes;
  }

  // ---- the side as a state machine ------------------------------------------------------

  datatype Status = Idle | Exchanging | Lingering | Finished | Failed(error: TransportError)

  /** `frame` counts the remote frames absorbed so far, which is also the frame being sent. */
  datatype Side = Side(status: Status, frame: nat, checksum: U64, framesSent: nat)

  const IDLE: Side := Side(Idle, 0, Fnv.FNV_OFFSET_BASIS, 0)

  /** What one await of the probe can yield. */
  datatype Event =
    | TimedOut
    | Unavailable
    | Received(packet: ProbePacket)
    | ReceiveFailed(fault: TransportFault)
    | DeadlinePassed

  /** An unavailable peer counts as a datagram that was sent and lost. */
  datatype SendOutcome = Sent | Lost | SendFailed(fault: TransportFault)

  datatype Turn = Turn(event: Event, send: SendOutcome)

  /** A side after one reaction, and the datagram it put on the network, if any. */
  datatype Reaction = Reaction(side: Side, out: Option<ProbePacket>)

  function Transmit(config: MatchProbeConfig, side: Side, frame: nat, send: SendOutcome): Reaction
  {
    match send
    case SendFailed(fault) => Reaction(side.(status := Failed(Broken(fault))), None)
    case Lost => Reaction(side.(framesSent := side.framesSent + 1), None)
    case Sent => Reaction(side.(framesSent := side.framesSent + 1), Some(PacketFor(config, frame)))
  }

  /** Enters frame `side.frame`: its first send, or the linger after the last frame. */
  function Enter(config: MatchProbeConfig, side: Side, send: SendOutcome): Reaction
  {
    if side.frame < config.frameCount then Transmit(config, side, side.frame, send)
    else Reaction(side.(status := Lingering), None)
  }

  function Start(config: MatchProbeConfig, send: SendOutcome): Reaction
  {
    Enter(config, IDLE.(status := Exchanging), send)
  }

  function Min(a: nat, b: nat): nat {
    if a < b then a else b
  }

  function Absorbed(config: MatchProbeConfig, side: Side, remote: InputFrame): Side
  {
    var bytes := HostThenGuest(config.descriptor.role, LocalFrame(config, side.frame), remote);
    side.(checksum := Fnv.Fold(side.checksum, bytes), frame := side.frame + 1)
  }

  function OnExchangePacket(config: MatchProbeConfig, side: Side, packet: ProbePacket, send: SendOutcome): Reaction
  {
    match ValidatedRemoteFrame(packet, config)
    case Failure(error) => Reaction(side.(status := Failed(error)), None)
    case Success(None) => Reaction(side, None)
    case Success(Some(remote)) =>
      if remote.frame < side.frame then Transmit(config, side, remote.frame, send)
      else if remote.frame > side.frame then Transmit(config, side, side.frame, send)
      else Enter(config, Absorbed(config, side, remote), send)
  }

  function OnLingerPacket(config: MatchProbeConfig, side: Side, packet: ProbePacket, send: SendOutcome): Reaction
  {
    match ValidatedRemoteFrame(packet, config)
    case Failure(error) => Reaction(side.(status := Failed(error)), None)
    case Success(None) => Reaction(side, None)
    case Success(Some(remote)) => Transmit(config, side, Min(remote.frame, config.frameCount - 1), send)
  }

  function Step(config: MatchProbeConfig, side: Side, turn: Turn): Reaction
  {
    match side.status
    case Exchanging =>
      (match turn.event
       case DeadlinePassed => Reaction(side.(status := Failed(Timeout(side.frame, config.frameCount))), None)
       case TimedOut => Transmit(config, side, side.frame, turn.send)
       case Unavailable => Transmit(config, side, side.frame, turn.send)
       case ReceiveFailed(fault) => Reaction(side.(status := Failed(Broken(fault))), None)
       case Received(packet) => OnExchangePacket(config, side, packet, turn.send))
    case Lingering =>
      (match turn.event
       case DeadlinePassed => Reaction(side.(status := Finished), None)
       case TimedOut => Transmit(config, side, config.frameCount - 1, turn.send)
       case Unavailable => Transmit(config, side, config.frameCount - 1, turn.send)
       case ReceiveFailed(fault) => Reaction(side.(status := Failed(Broken(fault))), None)
       case Received(packet) => OnLingerPacket(config, side, packet, turn.send))
    case _ => Reaction(side, None)
  }

  /** A datagram of the exchange that the paired peer cannot have sent. */
  predicate FromAStranger(config: MatchProbeConfig, packet: ProbePacket) {
    && packet.Input?
    && (packet.roomId != config.descriptor.roomId || packet.sessionKey != config.sessionKey
        || packet.frame.playerId != config.descriptor.peerUserId || |packet.frame.input| > 256)
  }

  predicate Waits(side: Side) {
    side.status == Exchanging || side.status == Lingering
  }

  /** A waiting probe ends with a mismatch exactly on a stranger's datagram, sending nothing; hole punches pass it by. */
  lemma MismatchExactlyWhen(config: MatchProbeConfig, side: Side, turn: Turn)
    requires Waits(side)
    ensures Step(config, side, turn).side.status == Failed(PeerMismatch)
            <==> turn.event.Received? && FromAStranger(config, turn.event.packet)
    ensures turn.event.Received? && FromAStranger(config, turn.event.packet) ==>
              Step(config, side, turn) == Reaction(side.(status := Failed(PeerMismatch)), None)
    ensures turn.event.Received? && turn.event.packet.Punch? ==> Step(config, side, turn) == Reaction(side, None)
  {
  }

  /** How a waiting probe ends without its peer: out of time it fails before its last frame and reports after it. */
  lemma EndingsAre(config: MatchProbeConfig, side: Side, send: SendOutcome, fault: TransportFault)
    requires Waits(side) && (side.status == Lingering ==> side.frame == config.frameCount)
    ensures var late := Step(config, side, Turn(DeadlinePassed, send));
            && late.out == None && late.side.framesSent == side.framesSent
            && match Observe(config, late.side)
               case Ready(Success(report)) =>
                 && side.status == Lingering
                 && report.roomId == config.descriptor.roomId
                 && report.localUserId == config.descriptor.localUserId
                 && report.peerUserId == config.descriptor.peerUserId
                 && report.role == config.descriptor.role && report.transport == config.descriptor.transport
                 && report.framesSent == side.framesSent && report.framesReceived == config.frameCount
                 && report.transcriptChecksum == Fnv.Hex(side.checksum)
               case Ready(Failure(error)) => side.status == Exchanging && error == Timeout(side.frame, config.frameCount)
               case Pending => false
    ensures var broken := Step(config, side, Turn(ReceiveFailed(fault), send));
            broken.out == None && Observe(config, broken.side) == Ready(Failure(Broken(fault)))
    ensures Observe(config, side) == Pending
  {
  }

  /** The side after the first `count` turns. */
  function RunTo(config: MatchProbeConfig, first: SendOutcome, turns: seq<Turn>, count: nat): Side
    requires count <= |turns|
  {
    if count == 0 then Start(config, first).side
    else Step(config, RunTo(config, first, turns, count - 1), turns[count - 1]).side
  }

  /** Everything sent during the first `count` turns, in order. */
  function SentTo(config: MatchProbeConfig, first: SendOutcome, turns: seq<Turn>, count: nat): seq<ProbePacket>
    requires count <= |turns|
  {
    if count == 0 then Extended([], Start(config, first).out)
    else
      var before := RunTo(config, first, turns, count - 1);
      Extended(SentTo(config, first, turns, count - 1), Step(config, before, turns[count - 1]).out)
  }

  lemma OneTurnMore(config: MatchProbeConfig, first: SendOutcome, turns: seq<Turn>, count: nat)
    requires count < |turns|
    ensures var next := Step(config, RunTo(config, first, turns, count), turns[count]);
            && RunTo(config, first, turns, count + 1) == next.side
            && SentTo(config, first, turns, count + 1) == Extended(SentTo(config, first, turns, count), next.out)
  {
    hide Step, Start, Extended;
  }

  function Extended(sent: seq<ProbePacket>, out: Option<ProbePacket>): seq<ProbePacket> {
    if out.Some? then sent + [out.value] else sent
  }

  function Run(config: MatchProbeConfig, first: SendOutcome, turns: seq<Turn>): Side {
    RunTo(config, first, turns, |turns|)
  }

  predicate Ended(side: Side) {
    side.status.Finished? || side.status.Failed?
  }

  /** A side that has ended ignores every later turn. */
  lemma {:induction false} RunStopsWhenEnded(config: MatchProbeConfig, first: SendOutcome, turns: seq<Turn>,
                                             count: nat, later: nat)
    requires count <= later <= |turns|
    requires count == later || Ended(RunTo(config, first, turns, count))
    ensures RunTo(config, first, turns, later) == RunTo(config, first, turns, count)
    ensures SentTo(config, first, turns, later) == SentTo(config, first, turns, count)
    decreases later
  {
    if count < later {
      RunStopsWhenEnded(config, first, turns, count, later - 1);
    }
  }

  /** Later turns do not change what happened before them. */
  lemma {:induction false} RunToOfPrefix(config: MatchProbeConfig, first: SendOutcome, turns: seq<Turn>,
                                         more: seq<Turn>, count: nat)
    requires count <= |turns|
    ensures RunTo(config, first, turns + more, count) == RunTo(config, first, turns, count)
    decreases count
  {
    if count > 0 {
      RunToOfPrefix(config, first, turns, more, count - 1);
      assert (turns + more)[count - 1] == turns[count - 1];
    }
  }

  // ---- the loop -------------------------------------------------------------------------

  datatype MatchProbeReport = MatchProbeReport(
    roomId: string,
    localUserId: string,
    peerUserId: string,
    role: PeerRole,
    transport: TransportKind,
    framesSent: nat,
    framesReceived: nat,
    transcriptChecksum: string
  )

  /** A task polled with the given turns is ready once it has returned. */
  datatype Poll = Pending | Ready(result: Result<MatchProbeReport, TransportError>)

  function ReportOf(config: MatchProbeConfig, framesSent: nat, checksum: U64): MatchProbeReport {
    MatchProbeReport(
      config.descriptor.roomId,
      config.descriptor.localUserId,
      config.descriptor.peerUserId,
      config.descriptor.role,
      config.descriptor.transport,
      framesSent,
      config.frameCount,
      Fnv.Hex(checksum))
  }

  function Observe(config: MatchProbeConfig, side: Side): Poll {
    match side.status
    case Finished => Ready(Success(ReportOf(config, side.framesSent, side.checksum)))
    case Failed(error) => Ready(Failure(error))
    case _ => Pending
  }

  /** Sends one frame; an unavailable peer is not an error, any other send failure ends the probe. */
  method SendProbeFrame(config: MatchProbeConfig, before: Side, sentBefore: seq<ProbePacket>, frame: nat, send: SendOutcome)
    returns (side: Side, sent: seq<ProbePacket>)
    ensures var next := Transmit(config, before, frame, send);
            side == next.side && sent == Extended(sentBefore, next.out)
  {
    side, sent := before, sentBefore;
    match send {
      case Sent =>
        side, sent := side.(framesSent := side.framesSent + 1), sent + [PacketFor(config, frame)];
      case Lost =>
        side := side.(framesSent := side.framesSent + 1);
      case SendFailed(fault) =>
        side := side.(status := Failed(Broken(fault)));
    }
  }

  /** The frame exchange and linger loops compute exactly the state machine's run. */
  method RunMatchProbe(config: MatchProbeConfig, first: SendOutcome, turns: seq<Turn>)
    returns (poll: Poll, sent: seq<ProbePacket>)
    ensures poll == Observe(config, Run(config, first, turns))
    ensures sent == SentTo(config, first, turns, |turns|)
  {
    var side := IDLE.(status := Exchanging);
    var at: nat, send := 0, first;
    sent := [];
    for frame := 0 to config.frameCount
      invariant at <= |turns| && side.status == Exchanging && side.frame == frame
      invariant RunTo(config, first, turns, at) == Enter(config, side, send).side
      invariant SentTo(config, first, turns, at) == Extended(sent, Enter(config, side, send).out)
    {
      side, sent := SendProbeFrame(config, side, sent, frame, send);
      if side.status == Exchanging {
        at, send, side, sent := AwaitFrame(config, first, turns, at, side, sent);
      }
      if side.frame == frame {
        RunStopsWhenEnded(config, first, turns, at, |turns|);
        return Observe(config, side), sent;
      }
    }
    at, side, sent := LingerForPeer(config, first, turns, at, side.(status := Lingering), sent);
    RunStopsWhenEnded(config, first, turns, at, |turns|);
    return Observe(config, side), sent;
  }

  /** The inner loop: waits for the peer's frame `before.frame`; otherwise it returned or is still waiting. */
  method AwaitFrame(config: MatchProbeConfig, ghost first: SendOutcome, turns: seq<Turn>, from: nat,
                    before: Side, sentBefore: seq<ProbePacket>)
    returns (at: nat, send: SendOutcome, side: Side, sent: seq<ProbePacket>)
    requires from <= |turns| && before.status == Exchanging && before.frame < config.frameCount
    requires RunTo(config, first, turns, from) == before && SentTo(config, first, turns, from) == sentBefore
    ensures at <= |turns|
    ensures side.frame == before.frame ==>
              && (at == |turns| || Ended(side))
              && RunTo(config, first, turns, at) == side && SentTo(config, first, turns, at) == sent
    ensures side.frame != before.frame ==>
              && side.status == Exchanging && side.frame == before.frame + 1
              && RunTo(config, first, turns, at) == Enter(config, side, send).side
              && SentTo(config, first, turns, at) == Extended(sent, Enter(config, side, send).out)
  {
    hide OnExchangePacket, Enter, RunTo, SentTo;
    at, send, side, sent := from, Sent, before, sentBefore;
    var frame := before.frame;
    while at < |turns| && side.status == Exchanging
      invariant at <= |turns| && side.frame == frame && (side.status == Exchanging || Ended(side))
      invariant RunTo(config, first, turns, at) == side && SentTo(config, first, turns, at) == sent
    {
      var turn := turns[at];
      OneTurnMore(config, first, turns, at);
      at, send := at + 1, turn.send;
      match turn.event {
        case DeadlinePassed =>
          side := side.(status := Failed(Timeout(frame, config.frameCount)));
        case ReceiveFailed(fault) =>
          side := side.(status := Failed(Broken(fault)));
        case TimedOut =>
          side, sent := SendProbeFrame(config, side, sent, frame, send);
        case Unavailable =>
          side, sent := SendProbeFrame(config, side, sent, frame, send);
        case Received(packet) =>
          side, sent := TakePacket(config, side, sent, packet, send);
          if side.frame != frame {
            return;
          }
      }
    }
  }

  /** Handles one packet; when it is the awaited frame, the send that follows is left to the next frame. */
  method TakePacket(config: MatchProbeConfig, before: Side, sentBefore: seq<ProbePacket>, packet: ProbePacket,
                    send: SendOutcome)
    returns (side: Side, sent: seq<ProbePacket>)
    requires before.status == Exchanging
    ensures var next := OnExchangePacket(config, before, packet, send);
            if side.frame == before.frame then
              && (side.status == Exchanging || Ended(side))
              && side == next.side && sent == Extended(sentBefore, next.out)
            else
              && side.status == Exchanging && side.frame == before.frame + 1
              && next == Enter(config, side, send) && sent == sentBefore
  {
    side, sent := before, sentBefore;
    match ValidatedRemoteFrame(packet, config) {
      case Failure(error) =>
        side := side.(status := Failed(error));
      case Success(None) =>
      case Success(Some(remote)) =>
        if remote.frame < side.frame {
          side, sent := SendProbeFrame(config, side, sent, remote.frame, send);
        } else if remote.frame > side.frame {
          side, sent := SendProbeFrame(config, side, sent, side.frame, send);
        } else {
          var local := LocalFrame(config, side.frame);
          var checksum := UpdateTranscriptChecksum(side.checksum, config.descriptor.role, local, remote);
          side := side.(checksum := checksum, frame := side.frame + 1);
        }
    }
  }

  /** Answers a lagging peer until the grace period ends. */
  method LingerForPeer(config: MatchProbeConfig, ghost first: SendOutcome, turns: seq<Turn>, from: nat,
                       before: Side, sentBefore: seq<ProbePacket>)
    returns (at: nat, side: Side, sent: seq<ProbePacket>)
    requires from <= |turns| && before.status == Lingering
    requires RunTo(config, first, turns, from) == before && SentTo(config, first, turns, from) == sentBefore
    ensures at <= |turns| && (at == |turns| || Ended(side))
    ensures RunTo(config, first, turns, at) == side && SentTo(config, first, turns, at) == sent
  {
    hide RunTo, SentTo;
    at, side, sent := from, before, sentBefore;
    var final := config.frameCount - 1;
    while at < |turns| && side.status == Lingering
      invariant at <= |turns| && (side.status == Lingering || Ended(side))
      invariant RunTo(config, first, turns, at) == side && SentTo(config, first, turns, at) == sent
    {
      var turn := turns[at];
      OneTurnMore(config, first, turns, at);
      at := at + 1;
      match turn.event {
        case DeadlinePassed =>
          side := side.(status := Finished);
        case ReceiveFailed(fault) =>
          side := side.(status := Failed(Broken(fault)));
        case TimedOut =>
          side, sent := SendProbeFrame(config, side, sent, final, turn.send);
        case Unavailable =>
          side, sent := SendProbeFrame(config, side, sent, final, turn.send);
        case Received(packet) =>
          match ValidatedRemoteFrame(packet, config) {
            case Failure(error) =>
              side := side.(status := Failed(error));
            case Success(None) =>
            case Success(Some(remote)) =>
              side, sent := SendProbeFrame(config, side, sent, Min(remote.frame, final), turn.send);
          }
      }
    }
  }
}
