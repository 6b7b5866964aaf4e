/**
 Two probes joined by a network that loses, duplicates and reorders datagrams.

 The datagrams in flight towards each side are counted, not ordered: delivery takes a copy of
 any of them, and separate steps drop or copy one. Leftover hole-punch datagrams may appear at
 any time. Both sides may start late, time out, meet an unavailable peer, hit a transport
 fault or run out of time at any step.
 */
module ProbeNetwork {
  import opened Words
  import opened Probe
  import Fnv
  import opened Text

  /** The two configurations of one match. */
  datatype Match = Match(host: MatchProbeConfig, guest: MatchProbeConfig) {
    predicate Paired() {
      && host.descriptor.role == Host && guest.descriptor.role == Guest
      && host.descriptor.roomId == guest.descriptor.roomId
      && host.sessionKey == guest.sessionKey
      && host.frameCount == guest.frameCount
      && host.descriptor.localUserId == guest.descriptor.peerUserId
      && guest.descriptor.localUserId == host.descriptor.peerUserId
    }

    function Config(role: PeerRole): MatchProbeConfig {
      match role case Host => host case Guest => guest
    }
  }

  function Other(role: PeerRole): PeerRole {
    match role case Host => Guest case Guest => Host
  }

  /** Datagrams in flight in one direction: how many copies of each. */
  type InFlight = ProbePacket -> nat

  function Plus(packets: InFlight, more: Option<ProbePacket>): InFlight {
    (p: ProbePacket) => if more == Some(p) then packets(p) + 1 else packets(p)
  }

  function Less(packets: InFlight, taken: Option<ProbePacket>): InFlight {
    (p: ProbePacket) => if taken == Some(p) && packets(p) > 0 then packets(p) - 1 else packets(p)
  }

  datatype World = World(host: Side, guest: Side, toHost: InFlight, toGuest: InFlight) {
    function Side(role: PeerRole): Side {
      match role case Host => host case Guest => guest
    }

    function Inbox(role: PeerRole): InFlight {
      match role case Host => toHost case Guest => toGuest
    }

    /** `role` takes `taken` out of its inbox and puts `reaction` into effect. */
    function Put(role: PeerRole, taken: Option<ProbePacket>, reaction: Reaction): World {
      match role
      case Host => World(reaction.side, guest, Less(toHost, taken), Plus(toGuest, reaction.out))
      case Guest => World(host, reaction.side, Plus(toHost, reaction.out), Less(toGuest, taken))
    }

    function WithInbox(role: PeerRole, packets: InFlight): World {
      match role
      case Host => this.(toHost := packets)
      case Guest => this.(toGuest := packets)
    }
  }

  const QUIET: World := World(IDLE, IDLE, _ => 0, _ => 0)

  datatype Action =
    | Begin(role: PeerRole, send: SendOutcome)
    | React(role: PeerRole, turn: Turn)
    | Drop(role: PeerRole, packet: ProbePacket)
    | Copy(role: PeerRole, packet: ProbePacket)
    | StrayPunch(role: PeerRole, version: nat, roomId: string, sessionKey: string)

  /** A side receives only what is in flight towards it. */
  predicate Enabled(w: World, a: Action) {
    match a
    case Begin(role, _) => w.Side(role).status == Idle
    case React(role, turn) =>
      w.Side(role).status != Idle && (turn.event.Received? ==> w.Inbox(role)(turn.event.packet) > 0)
    case Drop(role, packet) => w.Inbox(role)(packet) > 0
    case Copy(role, packet) => w.Inbox(role)(packet) > 0
    case StrayPunch(_, _, _, _) => true
  }

  function Taken(turn: Turn): Option<ProbePacket> {
    if turn.event.Received? then Some(turn.event.packet) else None
  }

  function Next(m: Match, w: World, a: Action): World
    requires m.Paired()
  {
    match a
    case Begin(role, send) => w.Put(role, None, Start(m.Config(role), send))
    case React(role, turn) => w.Put(role, Taken(turn), Step(m.Config(role), w.Side(role), turn))
    case Drop(role, packet) => w.WithInbox(role, Less(w.Inbox(role), Some(packet)))
    case Copy(role, packet) => w.WithInbox(role, Plus(w.Inbox(role), Some(packet)))
    case StrayPunch(role, version, roomId, sessionKey) =>
      w.WithInbox(role, Plus(w.Inbox(role), Some(Punch(version, roomId, sessionKey))))
  }

  predicate EnabledAll(m: Match, w: World, actions: seq<Action>)
    requires m.Paired()
    decreases |actions|
  {
    actions == [] || (Enabled(w, actions[0]) && EnabledAll(m, Next(m, w, actions[0]), actions[1..]))
  }

  function After(m: Match, w: World, actions: seq<Action>): World
    requires m.Paired()
    decreases |actions|
  {
    if actions == [] then w else After(m, Next(m, w, actions[0]), actions[1..])
  }

  lemma {:induction false} AfterAppend(m: Match, w: World, a: seq<Action>, b: seq<Action>)
    requires m.Paired()
    ensures After(m, w, a + b) == After(m, After(m, w, a), b)
    ensures EnabledAll(m, w, a + b) <==> EnabledAll(m, w, a) && EnabledAll(m, After(m, w, a), b)
    decreases |a|
  {
    hide Next;
    if a == [] {
      assert a + b == b;
    } else {
      assert (a + b)[1..] == a[1..] + b;
      AfterAppend(m, Next(m, w, a[0]), a[1..], b);
    }
  }

  // ---- what every reachable world keeps -------------------------------------------------

  /** Packets from `sender`: hole punches, or one of its own frames numbered up to `bound`. */
  predicate Genuine(sender: MatchProbeConfig, bound: nat, packet: ProbePacket)
  {
    packet.Input? ==>
      && packet.frame.frame <= bound
      && packet.frame.frame < sender.frameCount
      && packet == PacketFor(sender, packet.frame.frame)
  }

  predicate SideOk(config: MatchProbeConfig, side: Side) {
    && side.frame <= config.frameCount
    && side.framesSent >= side.frame + (if side.status == Exchanging then 1 else 0)
    && (side.status == Idle ==> side == IDLE)
    && (side.status == Exchanging ==> side.frame < config.frameCount)
    && (side.status in {Lingering, Finished} ==> side.frame == config.frameCount)
    && (side.status.Failed? ==>
          side.status.error.Broken? || side.status.error == Timeout(side.frame, config.frameCount))
  }

  /** `role` is consistent with itself, its own packets in flight, and its peer's progress. */
  ghost predicate RoleOk(m: Match, w: World, role: PeerRole)
    requires m.Paired()
  {
    var side, peer := w.Side(role), w.Side(Other(role));
    && SideOk(m.Config(role), side)
    && side.frame <= peer.frame + 1
    && (peer.status == Idle ==> side.frame == 0)
    && (forall p :: w.Inbox(Other(role))(p) > 0 ==> Genuine(m.Config(role), side.frame, p))
    && (side.status == Idle ==> forall p :: w.Inbox(Other(role))(p) > 0 ==> p.Punch?)
  }

  ghost predicate Inv(m: Match, w: World)
    requires m.Paired()
  {
    RoleOk(m, w, Host) && RoleOk(m, w, Guest)
  }

  /** The paired peer's own packet is never rejected. */
  lemma GenuineIsAccepted(m: Match, role: PeerRole, bound: nat, packet: ProbePacket)
    requires m.Paired() && Genuine(m.Config(Other(role)), bound, packet)
    ensures ValidatedRemoteFrame(packet, m.Config(role))
            == Success(if packet.Punch? then None else Some(packet.frame))
  {
  }

  /** What one reaction keeps: progress stays sound and everything sent is the side's own. */
  predicate Kept(config: MatchProbeConfig, side: Side, next: Reaction)
  {
    && SideOk(config, next.side) && next.side.status != Idle
    && side.frame <= next.side.frame
    && (next.out.Some? ==> Genuine(config, next.side.frame, next.out.value))
  }

  lemma TransmitKeeps(config: MatchProbeConfig, side: Side, frame: nat, send: SendOutcome)
    requires frame <= side.frame && frame < config.frameCount
    requires SideOk(config, side.(framesSent := side.framesSent + 1)) && side.status in {Exchanging, Lingering}
    requires side.framesSent >= side.frame
    ensures Kept(config, side, Transmit(config, side, frame, send))
    ensures Transmit(config, side, frame, send).side.frame == side.frame
  {
  }

  lemma EnterKeeps(config: MatchProbeConfig, side: Side, send: SendOutcome)
    requires side.status == Exchanging && side.frame <= config.frameCount
    requires side.framesSent >= side.frame
    ensures Kept(config, side, Enter(config, side, send))
    ensures Enter(config, side, send).side.frame == side.frame
  {
    if side.frame < config.frameCount {
      TransmitKeeps(config, side, side.frame, send);
    }
  }

  /** Only the peer's frame of the same number advances a side. */
  lemma ExchangePacketKeeps(m: Match, role: PeerRole, side: Side, bound: nat, packet: ProbePacket, send: SendOutcome)
    requires m.Paired() && SideOk(m.Config(role), side) && side.status == Exchanging
    requires Genuine(m.Config(Other(role)), bound, packet)
    ensures var next := OnExchangePacket(m.Config(role), side, packet, send);
            && Kept(m.Config(role), side, next)
            && next.side.frame == (if packet.Input? && packet.frame.frame == side.frame then side.frame + 1
                                   else side.frame)
  {
    var config := m.Config(role);
    GenuineIsAccepted(m, role, bound, packet);
    if packet.Input? {
      if packet.frame.frame == side.frame {
        EnterKeeps(config, Absorbed(config, side, packet.frame), send);
      } else {
        TransmitKeeps(config, side, Min(packet.frame.frame, side.frame), send);
      }
    }
  }

  lemma LingerPacketKeeps(m: Match, role: PeerRole, side: Side, bound: nat, packet: ProbePacket, send: SendOutcome)
    requires m.Paired() && SideOk(m.Config(role), side) && side.status == Lingering
    requires Genuine(m.Config(Other(role)), bound, packet)
    ensures var next := OnLingerPacket(m.Config(role), side, packet, send);
            Kept(m.Config(role), side, next) && next.side.frame == side.frame
  {
    var config := m.Config(role);
    GenuineIsAccepted(m, role, bound, packet);
    if packet.Input? {
      TransmitKeeps(config, side, Min(packet.frame.frame, config.frameCount - 1), send);
    }
  }

  lemma StepKeeps(m: Match, role: PeerRole, side: Side, bound: nat, turn: Turn)
    requires m.Paired() && SideOk(m.Config(role), side) && side.status != Idle
    requires turn.event.Received? ==> Genuine(m.Config(Other(role)), bound, turn.event.packet)
    ensures var next := Step(m.Config(role), side, turn);
            && Kept(m.Config(role), side, next)
            && (next.side.frame > side.frame ==>
                  && next.side.frame == side.frame + 1 <= bound + 1
                  && turn.event.Received? && turn.event.packet.Input?)
  {
    var config := m.Config(role);
    if side.status == Exchanging {
      match turn.event
      case Received(packet) => ExchangePacketKeeps(m, role, side, bound, packet, turn.send);
      case TimedOut => TransmitKeeps(config, side, side.frame, turn.send);
      case Unavailable => TransmitKeeps(config, side, side.frame, turn.send);
      case _ =>
    } else if side.status == Lingering {
      match turn.event
      case Received(packet) => LingerPacketKeeps(m, role, side, bound, packet, turn.send);
      case TimedOut => TransmitKeeps(config, side, config.frameCount - 1, turn.send);
      case Unavailable => TransmitKeeps(config, side, config.frameCount - 1, turn.send);
      case _ =>
    }
  }

  lemma PutKeepsInv(m: Match, w: World, role: PeerRole, taken: Option<ProbePacket>, next: Reaction)
    requires m.Paired() && Inv(m, w)
    requires Kept(m.Config(role), w.Side(role), next)
    requires next.side.frame <= w.Side(Other(role)).frame + 1
    requires next.side.frame > w.Side(role).frame ==> w.Side(Other(role)).status != Idle
    ensures Inv(m, w.Put(role, taken, next))
  {
    var w' := w.Put(role, taken, next);
    forall p | w'.Inbox(Other(role))(p) > 0 ensures Genuine(m.Config(role), next.side.frame, p) {
      if w.Inbox(Other(role))(p) > 0 {
        assert Genuine(m.Config(role), w.Side(role).frame, p);
      }
    }
  }

  lemma NextKeepsInv(m: Match, w: World, a: Action)
    requires m.Paired() && Inv(m, w) && Enabled(w, a)
    ensures Inv(m, Next(m, w, a))
  {
    match a
    case Begin(role, send) =>
      EnterKeeps(m.Config(role), IDLE.(status := Exchanging), send);
      PutKeepsInv(m, w, role, None, Start(m.Config(role), send));
    case React(role, turn) =>
      StepKeeps(m, role, w.Side(role), w.Side(Other(role)).frame, turn);
      PutKeepsInv(m, w, role, Taken(turn), Step(m.Config(role), w.Side(role), turn));
    case Drop(role, packet) =>
      InboxKeepsInv(m, w, role, Less(w.Inbox(role), Some(packet)));
    case Copy(role, packet) =>
      InboxKeepsInv(m, w, role, Plus(w.Inbox(role), Some(packet)));
    case StrayPunch(role, version, roomId, sessionKey) =>
      InboxKeepsInv(m, w, role, Plus(w.Inbox(role), Some(Punch(version, roomId, sessionKey))));
  }

  lemma InboxKeepsInv(m: Match, w: World, role: PeerRole, packets: InFlight)
    requires m.Paired() && Inv(m, w)
    requires forall p :: packets(p) > 0 ==> w.Inbox(role)(p) > 0 || p.Punch?
    ensures Inv(m, w.WithInbox(role, packets))
  {
  }

  // ---- checksums ------------------------------------------------------------------------

  /** The canonical transcript of the first `frames` frames. */
  function Transcript(frames: nat): seq<Byte> {
    if frames == 0 then [] else Transcript(frames - 1) + [InputOf(frames - 1, Host), InputOf(frames - 1, Guest)]
  }

  /** The transcript written out: frame numbers modulo four, the guest's two ahead of the host's. */
  lemma {:induction false} TranscriptIs(frames: nat, i: nat)
    requires i < frames
    ensures |Transcript(frames)| == 2 * frames
    ensures Transcript(frames)[2 * i] == i % 4 && Transcript(frames)[2 * i + 1] == (i + 2) % 4
  {
    if frames == 1 {
      assert Transcript(0) == [];
    } else {
      TranscriptIs(frames - 1, if i == frames - 1 then 0 else i);
    }
  }

  function CanonicalChecksum(frames: nat): U64 {
    Fnv.Fold(Fnv.FNV_OFFSET_BASIS, Transcript(frames))
  }

  predicate Summed(side: Side) {
    side.checksum == CanonicalChecksum(side.frame)
  }

  lemma AbsorbingKeepsSum(m: Match, role: PeerRole, side: Side)
    requires m.Paired() && Summed(side)
    ensures Summed(Absorbed(m.Config(role), side, LocalFrame(m.Config(Other(role)), side.frame)))
  {
    var both := [InputOf(side.frame, Host), InputOf(side.frame, Guest)];
    var local, remote := LocalFrame(m.Config(role), side.frame), LocalFrame(m.Config(Other(role)), side.frame);
    assert HostThenGuest(role, local, remote) == both;
    Fnv.FoldAppend(Fnv.FNV_OFFSET_BASIS, Transcript(side.frame), both);
  }

  /** A reaction leaves frame and checksum alone or absorbs exactly the peer's frame. */
  lemma StepAbsorbsThePeersFrame(m: Match, role: PeerRole, side: Side, bound: nat, turn: Turn)
    requires m.Paired()
    requires turn.event.Received? ==> Genuine(m.Config(Other(role)), bound, turn.event.packet)
    ensures var next := Step(m.Config(role), side, turn).side;
            var absorbed := Absorbed(m.Config(role), side, LocalFrame(m.Config(Other(role)), side.frame));
            || (next.frame == side.frame && next.checksum == side.checksum)
            || (next.frame == absorbed.frame && next.checksum == absorbed.checksum)
  {
    if turn.event.Received? {
      GenuineIsAccepted(m, role, bound, turn.event.packet);
    }
  }

  lemma NextKeepsSums(m: Match, w: World, a: Action)
    requires m.Paired() && Inv(m, w) && Enabled(w, a) && Summed(w.host) && Summed(w.guest)
    ensures Summed(Next(m, w, a).host) && Summed(Next(m, w, a).guest)
  {
    if a.React? {
      StepAbsorbsThePeersFrame(m, a.role, w.Side(a.role), w.Side(Other(a.role)).frame, a.turn);
      AbsorbingKeepsSum(m, a.role, w.Side(a.role));
    }
  }

  lemma {:induction false} RunsKeepInv(m: Match, w: World, actions: seq<Action>)
    requires m.Paired() && EnabledAll(m, w, actions)
    requires Inv(m, w) && Summed(w.host) && Summed(w.guest)
    ensures var end := After(m, w, actions); Inv(m, end) && Summed(end.host) && Summed(end.guest)
    decreases |actions|
  {
    if actions != [] {
      NextKeepsInv(m, w, actions[0]);
      NextKeepsSums(m, w, actions[0]);
      RunsKeepInv(m, Next(m, w, actions[0]), actions[1..]);
    }
  }

  // ---- agreement ------------------------------------------------------------------------

  lemma QuietIsGood(m: Match)
    requires m.Paired()
    ensures Inv(m, QUIET) && Summed(QUIET.host) && Summed(QUIET.guest)
  {
    assert Transcript(0) == [];
  }

  /** A packet in flight carries the sender's deterministic frame, numbered within its progress. */
  ghost predicate OwnFrames(sender: MatchProbeConfig, progress: nat, inFlight: InFlight)
  {
    forall p :: inFlight(p) > 0 && p.Input? ==>
      p.frame.frame <= progress && p == PacketFor(sender, p.frame.frame)
  }

  /** What holds after any schedule from two idle probes. */
  lemma Safety(m: Match, actions: seq<Action>)
    requires m.Paired() && EnabledAll(m, QUIET, actions)
    ensures var w := After(m, QUIET, actions);
            && -1 <= w.host.frame - w.guest.frame <= 1
            && w.host.checksum == CanonicalChecksum(w.host.frame)
            && w.guest.checksum == CanonicalChecksum(w.guest.frame)
            && w.host.status != Failed(PeerMismatch) && w.guest.status != Failed(PeerMismatch)
            && OwnFrames(m.host, w.host.frame, w.toGuest)
            && OwnFrames(m.guest, w.guest.frame, w.toHost)
  {
    QuietIsGood(m);
    RunsKeepInv(m, QUIET, actions);
    InvIsSafe(m, After(m, QUIET, actions));
  }

  lemma InvIsSafe(m: Match, w: World)
    requires m.Paired() && Inv(m, w)
    ensures -1 <= w.host.frame - w.guest.frame <= 1
    ensures w.host.status != Failed(PeerMismatch) && w.guest.status != Failed(PeerMismatch)
    ensures OwnFrames(m.host, w.host.frame, w.toGuest) && OwnFrames(m.guest, w.guest.frame, w.toHost)
  {
    assert RoleOk(m, w, Host) && RoleOk(m, w, Guest);
    forall p | w.toGuest(p) > 0 && p.Input?
      ensures p.frame.frame <= w.host.frame && p == PacketFor(m.host, p.frame.frame)
    {
      assert Genuine(m.host, w.host.frame, p);
    }
    forall p | w.toHost(p) > 0 && p.Input?
      ensures p.frame.frame <= w.guest.frame && p == PacketFor(m.guest, p.frame.frame)
    {
      assert Genuine(m.guest, w.guest.frame, p);
    }
  }

  /**
   A probe that completes reports the same transcript under every schedule: its checksum is a
   function of the frame count alone, so two completed probes always agree, and neither reports
   fewer sends than receives.
   */
  lemma CompletedProbesAgree(m: Match, actions: seq<Action>, role: PeerRole)
    requires m.Paired() && EnabledAll(m, QUIET, actions)
    requires After(m, QUIET, actions).Side(role).status == Finished
    ensures var config, side := m.Config(role), After(m, QUIET, actions).Side(role);
            var report := ReportOf(config, side.framesSent, side.checksum);
            && Observe(config, side) == Ready(Success(report))
            && report.transcriptChecksum == Fnv.Hex(CanonicalChecksum(m.host.frameCount))
            && report.framesSent >= report.framesReceived == m.host.frameCount
            && report.roomId == m.host.descriptor.roomId && report.role == role
            && report.localUserId == m.Config(role).descriptor.localUserId
            && report.peerUserId == m.Config(Other(role)).descriptor.localUserId
  {
    QuietIsGood(m);
    RunsKeepInv(m, QUIET, actions);
    var w := After(m, QUIET, actions);
    assert RoleOk(m, w, role);
  }

  // ---- progress -------------------------------------------------------------------------

  predicate Answering(side: Side) {
    side.status == Exchanging || side.status == Lingering
  }

  function Deliver(to: PeerRole, packet: ProbePacket): Action {
    React(to, Turn(Received(packet), Sent))
  }

  function Retry(role: PeerRole): Action {
    React(role, Turn(TimedOut, Sent))
  }

  /** Delivering the frame a side waits for advances it. */
  lemma DeliveryAdvances(m: Match, w: World, x: PeerRole)
    requires m.Paired() && Inv(m, w)
    requires w.Side(x).status == Exchanging
    requires w.Inbox(x)(PacketFor(m.Config(Other(x)), w.Side(x).frame)) > 0
    ensures var a := Deliver(x, PacketFor(m.Config(Other(x)), w.Side(x).frame));
            && Enabled(w, a)
            && Next(m, w, a).Side(x).frame == w.Side(x).frame + 1
            && Answering(Next(m, w, a).Side(x))
            && Next(m, w, a).Side(Other(x)) == w.Side(Other(x))
  {
  }

  /** What a send of `frame` by `y` does, by its outcome: every datagram handed over is counted, also a lost one. */
  ghost predicate Answered(m: Match, w: World, w': World, y: PeerRole, frame: nat, send: SendOutcome)
    requires m.Paired()
  {
    var answer := PacketFor(m.Config(y), frame);
    var before, after := w.Side(y), w'.Side(y);
    && w'.Side(Other(y)) == w.Side(Other(y))
    && after.frame == before.frame && after.checksum == before.checksum
    && after.framesSent == before.framesSent + (if send.SendFailed? then 0 else 1)
    && after.status == (if send.SendFailed? then Failed(Broken(send.fault)) else before.status)
    && (forall p :: w'.Inbox(Other(y))(p) == w.Inbox(Other(y))(p) + (if send == Sent && p == answer then 1 else 0))
  }

  /**
   A lagging peer is never left without an answer: any frame of `x` that `y` does not wait for, while it
   exchanges or lingers, is answered with y's own frame of that number, or its latest where it is not that far.
   */
  lemma LaggingPeersAreAnswered(m: Match, w: World, x: PeerRole, k: nat, send: SendOutcome)
    requires m.Paired() && Inv(m, w) && Answering(w.Side(Other(x)))
    requires w.Inbox(Other(x))(PacketFor(m.Config(x), k)) > 0
    requires w.Side(Other(x)).status == Exchanging ==> k != w.Side(Other(x)).frame
    ensures var y, packet := Other(x), PacketFor(m.Config(x), k);
            var a := React(y, Turn(Received(packet), send));
            && Enabled(w, a)
            && Answered(m, w, Next(m, w, a), y, Min(k, w.Side(y).frame), send)
            && Min(k, w.Side(y).frame) < m.Config(y).frameCount
            && Next(m, w, a).Inbox(y)(packet) == w.Inbox(y)(packet) - 1
  {
    assert RoleOk(m, w, x) && RoleOk(m, w, Other(x));
    assert Genuine(m.Config(x), w.Side(x).frame, PacketFor(m.Config(x), k));
    GenuineIsAccepted(m, Other(x), w.Side(x).frame, PacketFor(m.Config(x), k));
  }

  /** Silence and an unavailable peer make a side repeat its latest frame, in the exchange and in the grace period. */
  lemma SilenceIsAnswered(m: Match, w: World, y: PeerRole, event: Event, send: SendOutcome)
    requires m.Paired() && Inv(m, w) && Answering(w.Side(y)) && event in {TimedOut, Unavailable}
    ensures var a := React(y, Turn(event, send));
            && Enabled(w, a)
            && Answered(m, w, Next(m, w, a), y, Min(w.Side(y).frame, m.Config(y).frameCount - 1), send)
  {
    assert RoleOk(m, w, y);
  }

  /** A probe begins by sending its frame 0. */
  lemma ProbesBeginWithFrameZero(m: Match, w: World, y: PeerRole, send: SendOutcome)
    requires m.Paired() && Inv(m, w) && Enabled(w, Begin(y, send))
    ensures Answered(m, w.Put(y, None, Reaction(w.Side(y).(status := Exchanging), None)),
                     Next(m, w, Begin(y, send)), y, 0, send)
    ensures Next(m, w, Begin(y, send)).Side(y).frame == 0
  {
    assert RoleOk(m, w, y);
  }

  /** The awaited frame is absorbed, host's byte first, and opens the next frame or the grace period. */
  lemma AwaitedFramesAdvance(m: Match, w: World, x: PeerRole, send: SendOutcome)
    requires m.Paired() && Inv(m, w) && w.Side(x).status == Exchanging
    requires w.Inbox(x)(PacketFor(m.Config(Other(x)), w.Side(x).frame)) > 0
    ensures var packet := PacketFor(m.Config(Other(x)), w.Side(x).frame);
            var a := React(x, Turn(Received(packet), send));
            var before, after := w.Side(x), Next(m, w, a).Side(x);
            && Enabled(w, a)
            && after.frame == before.frame + 1
            && after.checksum == Fnv.Fold(before.checksum, [InputOf(before.frame, Host), InputOf(before.frame, Guest)])
            && (after.frame == m.Config(x).frameCount ==>
                  && after.status == Lingering && after.framesSent == before.framesSent
                  && Next(m, w, a).Inbox(Other(x)) == Plus(w.Inbox(Other(x)), None))
            && (after.frame < m.Config(x).frameCount ==>
                  Answered(m, w.Put(x, None, Reaction(before.(frame := after.frame, checksum := after.checksum), None)),
                           Next(m, w, a), x, after.frame, send))
  {
    assert RoleOk(m, w, x) && RoleOk(m, w, Other(x));
    var local, remote := LocalFrame(m.Config(x), w.Side(x).frame), LocalFrame(m.Config(Other(x)), w.Side(x).frame);
    assert HostThenGuest(x, local, remote) == [InputOf(w.Side(x).frame, Host), InputOf(w.Side(x).frame, Guest)];
  }

  /** A retry puts a fresh copy of the retrying side's frame into the peer's inbox. */
  lemma RetrySends(m: Match, w: World, y: PeerRole)
    requires m.Paired() && Answering(w.Side(y))
    ensures var w' := Next(m, w, Retry(y));
            var frame := Min(w.Side(y).frame, m.Config(y).frameCount - 1);
            && Enabled(w, Retry(y))
            && (Inv(m, w) ==> w'.Inbox(Other(y))(PacketFor(m.Config(y), frame)) > 0)
            && w'.Side(y).status == w.Side(y).status && w'.Side(y).frame == w.Side(y).frame
            && w'.Side(Other(y)) == w.Side(Other(y))
  {
  }

  /** A side that is already one frame further answers a stale frame with its own old one. */
  lemma StaleFrameIsAnswered(m: Match, w: World, x: PeerRole)
    requires m.Paired() && Inv(m, w)
    requires Answering(w.Side(Other(x))) && w.Side(x).frame < w.Side(Other(x)).frame
    requires w.Inbox(Other(x))(PacketFor(m.Config(x), w.Side(x).frame)) > 0
    ensures var a := Deliver(Other(x), PacketFor(m.Config(x), w.Side(x).frame));
            var w' := Next(m, w, a);
            && Enabled(w, a)
            && w'.Inbox(x)(PacketFor(m.Config(Other(x)), w.Side(x).frame)) > 0
            && w'.Side(x) == w.Side(x)
            && w'.Side(Other(x)).status == w.Side(Other(x)).status && w'.Side(Other(x)).frame == w.Side(Other(x)).frame
  {
    LaggingPeersAreAnswered(m, w, x, w.Side(x).frame, Sent);
  }

  /** Both sides are up and neither has failed. */
  ghost predicate Live(m: Match, w: World)
    requires m.Paired()
  {
    Inv(m, w) && Answering(w.host) && Answering(w.guest)
  }

  lemma Prepend(m: Match, w: World, a: Action, rest: seq<Action>)
    requires m.Paired() && Enabled(w, a) && EnabledAll(m, Next(m, w, a), rest)
    ensures EnabledAll(m, w, [a] + rest)
    ensures After(m, w, [a] + rest) == After(m, Next(m, w, a), rest)
  {
    assert ([a] + rest)[1..] == rest;
  }

  /** One more frame for `x`, everything else as it was. */
  ghost predicate Advanced(m: Match, w: World, w': World, x: PeerRole)
    requires m.Paired()
  {
    && Inv(m, w')
    && Answering(w'.Side(x)) && w'.Side(x).frame == w.Side(x).frame + 1
    && w'.Side(Other(x)).status == w.Side(Other(x)).status && w'.Side(Other(x)).frame == w.Side(Other(x)).frame
  }

  lemma AdvanceByDelivery(m: Match, w: World, x: PeerRole) returns (schedule: seq<Action>)
    requires m.Paired() && Inv(m, w)
    requires w.Side(x).status == Exchanging
    requires w.Inbox(x)(PacketFor(m.Config(Other(x)), w.Side(x).frame)) > 0
    ensures |schedule| == 1 && EnabledAll(m, w, schedule) && Advanced(m, w, After(m, w, schedule), x)
  {
    var a := Deliver(x, PacketFor(m.Config(Other(x)), w.Side(x).frame));
    DeliveryAdvances(m, w, x);
    NextKeepsInv(m, w, a);
    Prepend(m, w, a, []);
    schedule := [a] + [];
  }

  /** The peer is at the same frame or lingers on it: its retry is the frame `x` needs. */
  lemma AdvanceByPeerRetry(m: Match, w: World, x: PeerRole) returns (schedule: seq<Action>)
    requires m.Paired() && Inv(m, w)
    requires w.Side(x).status == Exchanging && Answering(w.Side(Other(x)))
    requires Min(w.Side(Other(x)).frame, m.Config(Other(x)).frameCount - 1) == w.Side(x).frame
    ensures |schedule| == 2 && EnabledAll(m, w, schedule) && Advanced(m, w, After(m, w, schedule), x)
  {
    var a := Retry(Other(x));
    RetrySends(m, w, Other(x));
    NextKeepsInv(m, w, a);
    var rest := AdvanceByDelivery(m, Next(m, w, a), x);
    Prepend(m, w, a, rest);
    schedule := [a] + rest;
  }

  /** Nothing in the schedule is a timeout of `y`. */
  predicate WithoutRetriesOf(schedule: seq<Action>, y: PeerRole) {
    forall a :: a in schedule && a.React? && a.role == y ==> a.turn.event.Received?
  }

  /**
   The peer is ahead, still exchanging or already lingering: it answers the retry of `x` with its own old
   frame, so `x` advances within three steps on the peer's answers alone.
   */
  lemma AdvanceByStaleAnswer(m: Match, w: World, x: PeerRole) returns (schedule: seq<Action>)
    requires m.Paired() && Inv(m, w)
    requires w.Side(x).status == Exchanging && Answering(w.Side(Other(x)))
    requires w.Side(x).frame < w.Side(Other(x)).frame
    ensures |schedule| == 3 && EnabledAll(m, w, schedule) && Advanced(m, w, After(m, w, schedule), x)
    ensures WithoutRetriesOf(schedule, Other(x))
  {
    var a, b := Retry(x), Deliver(Other(x), PacketFor(m.Config(x), w.Side(x).frame));
    RetrySends(m, w, x);
    NextKeepsInv(m, w, a);
    var w1 := Next(m, w, a);
    StaleFrameIsAnswered(m, w1, x);
    NextKeepsInv(m, w1, b);
    var rest := AdvanceByDelivery(m, Next(m, w1, b), x);
    Prepend(m, w1, b, rest);
    Prepend(m, w, a, [b] + rest);
    schedule := [a] + ([b] + rest);
  }

  /**
   No loss pattern wedges the exchange: whatever is or is not in flight, at most three retries
   and deliveries advance the side that lags.
   */
  lemma LaggingSideCanAdvance(m: Match, w: World, x: PeerRole) returns (schedule: seq<Action>)
    requires m.Paired() && Live(m, w)
    requires w.Side(x).status == Exchanging && w.Side(x).frame <= w.Side(Other(x)).frame
    ensures |schedule| <= 3 && EnabledAll(m, w, schedule)
    ensures Live(m, After(m, w, schedule)) && Advanced(m, w, After(m, w, schedule), x)
  {
    assert RoleOk(m, w, Host) && RoleOk(m, w, Guest);
    if Min(w.Side(Other(x)).frame, m.Config(Other(x)).frameCount - 1) == w.Side(x).frame {
      schedule := AdvanceByPeerRetry(m, w, x);
    } else {
      schedule := AdvanceByStaleAnswer(m, w, x);
    }
  }

  /** From every live world both probes can still absorb all their frames. */
  lemma {:induction false} ExchangeCanReachTheGracePeriod(m: Match, w: World) returns (schedule: seq<Action>)
    requires m.Paired() && Live(m, w)
    ensures EnabledAll(m, w, schedule) && |schedule| <= 3 * (2 * m.host.frameCount - w.host.frame - w.guest.frame)
    ensures var w' := After(m, w, schedule);
            Inv(m, w') && w'.host.status == Lingering && w'.guest.status == Lingering
    decreases 2 * m.host.frameCount - w.host.frame - w.guest.frame
  {
    assert RoleOk(m, w, Host) && RoleOk(m, w, Guest);
    if w.host.status == Lingering && w.guest.status == Lingering {
      return [];
    }
    var x := if w.host.status == Exchanging && w.host.frame <= w.guest.frame then Host else Guest;
    var first := LaggingSideCanAdvance(m, w, x);
    var rest := ExchangeCanReachTheGracePeriod(m, After(m, w, first));
    AfterAppend(m, w, first, rest);
    return first + rest;
  }

  /** The grace period of both sides runs out. */
  lemma GracePeriodsEnd(m: Match, w: World) returns (schedule: seq<Action>)
    requires m.Paired() && Inv(m, w) && w.host.status == Lingering && w.guest.status == Lingering
    ensures |schedule| == 2 && EnabledAll(m, w, schedule)
    ensures var w' := After(m, w, schedule);
            Inv(m, w') && w'.host.status == Finished && w'.guest.status == Finished
  {
    var a, b := React(Host, Turn(DeadlinePassed, Lost)), React(Guest, Turn(DeadlinePassed, Lost));
    var w1 := Next(m, w, a);
    NextKeepsInv(m, w, a);
    NextKeepsInv(m, w1, b);
    assert EnabledAll(m, Next(m, w1, b), []);
    Prepend(m, w1, b, []);
    Prepend(m, w, a, [b]);
    assert [b] + [] == [b];
    return [a] + [b];
  }

  /** From every live world some schedule completes both probes, grace periods included. */
  lemma ExchangeCanComplete(m: Match, w: World) returns (schedule: seq<Action>)
    requires m.Paired() && Live(m, w)
    ensures EnabledAll(m, w, schedule) && |schedule| <= 3 * (2 * m.host.frameCount - w.host.frame - w.guest.frame) + 2
    ensures var w' := After(m, w, schedule);
            && Inv(m, w') && w'.host.status == Finished && w'.guest.status == Finished
            && w'.host.frame == w'.guest.frame == m.host.frameCount
  {
    var exchange := ExchangeCanReachTheGracePeriod(m, w);
    var ending := GracePeriodsEnd(m, After(m, w, exchange));
    AfterAppend(m, w, exchange, ending);
    schedule := exchange + ending;
    var w' := After(m, w, schedule);
    assert RoleOk(m, w', Host) && RoleOk(m, w', Guest);
  }

  ghost predicate CanAdvance(m: Match, w: World, x: PeerRole)
    requires m.Paired()
  {
    exists schedule :: EnabledAll(m, w, schedule) && After(m, w, schedule).Side(x).frame > w.Side(x).frame
  }

  /** The peer has stopped and the frame that `x` waits for is not in flight. */
  predicate Orphaned(m: Match, w: World, x: PeerRole, frame: nat)
    requires m.Paired()
  {
    && Ended(w.Side(Other(x)))
    && w.Side(x).frame == frame
    && w.Inbox(x)(PacketFor(m.Config(Other(x)), frame)) == 0
  }

  lemma OrphanReactionKeepsFrame(m: Match, w: World, x: PeerRole, turn: Turn)
    requires m.Paired() && Inv(m, w) && Enabled(w, React(x, turn)) && Orphaned(m, w, x, w.Side(x).frame)
    ensures Step(m.Config(x), w.Side(x), turn).side.frame == w.Side(x).frame
  {
    StepKeeps(m, x, w.Side(x), w.Side(Other(x)).frame, turn);
    if w.Side(x).status == Exchanging && turn.event.Received? {
      assert Genuine(m.Config(Other(x)), w.Side(Other(x)).frame, turn.event.packet);
      ExchangePacketKeeps(m, x, w.Side(x), w.Side(Other(x)).frame, turn.event.packet, turn.send);
    }
  }

  lemma OrphanStaysOrphan(m: Match, w: World, x: PeerRole, a: Action)
    requires m.Paired() && Inv(m, w) && Enabled(w, a) && Orphaned(m, w, x, w.Side(x).frame)
    ensures Orphaned(m, Next(m, w, a), x, w.Side(x).frame)
  {
    if a.React? && a.role == x {
      OrphanReactionKeepsFrame(m, w, x, a.turn);
    }
  }

  lemma {:induction false} OrphanNeverAdvances(m: Match, w: World, x: PeerRole, schedule: seq<Action>)
    requires m.Paired() && Inv(m, w) && EnabledAll(m, w, schedule) && Orphaned(m, w, x, w.Side(x).frame)
    ensures After(m, w, schedule).Side(x).frame == w.Side(x).frame
    decreases |schedule|
  {
    if schedule != [] {
      OrphanStaysOrphan(m, w, x, schedule[0]);
      NextKeepsInv(m, w, schedule[0]);
      OrphanNeverAdvances(m, Next(m, w, schedule[0]), x, schedule[1..]);
    }
  }

  /**
   Exactly when a waiting probe can still make progress: its peer has not stopped, or the frame
   it waits for is already in flight. This is what the completion grace period is for.
   */
  lemma ProgressIsPossibleExactlyWhen(m: Match, w: World, x: PeerRole)
    requires m.Paired() && Inv(m, w) && w.Side(x).status == Exchanging
    ensures CanAdvance(m, w, x) <==>
              !Ended(w.Side(Other(x))) || w.Inbox(x)(PacketFor(m.Config(Other(x)), w.Side(x).frame)) > 0
  {
    var y := Other(x);
    var needed := PacketFor(m.Config(y), w.Side(x).frame);
    assert RoleOk(m, w, x) && RoleOk(m, w, y);
    if w.Inbox(x)(needed) > 0 {
      var schedule := AdvanceByDelivery(m, w, x);
    } else if Ended(w.Side(y)) {
      forall schedule | EnabledAll(m, w, schedule)
        ensures After(m, w, schedule).Side(x).frame == w.Side(x).frame
      {
        OrphanNeverAdvances(m, w, x, schedule);
      }
    } else {
      RunningPeerMeansProgress(m, w, x);
    }
  }

  lemma RunningPeerMeansProgress(m: Match, w: World, x: PeerRole)
    requires m.Paired() && Inv(m, w) && w.Side(x).status == Exchanging && !Ended(w.Side(Other(x)))
    ensures CanAdvance(m, w, x)
  {
    var y := Other(x);
    assert RoleOk(m, w, x) && RoleOk(m, w, y);
    if w.Side(y).status == Idle {
      var begin := Begin(y, Sent);
      NextKeepsInv(m, w, begin);
      var rest := AdvanceByDelivery(m, Next(m, w, begin), x);
      Prepend(m, w, begin, rest);
    } else if w.Side(x).frame <= w.Side(y).frame {
      var schedule := LaggingSideCanAdvance(m, w, x);
    } else {
      var first := LaggingSideCanAdvance(m, w, y);
      var w1 := After(m, w, first);
      assert RoleOk(m, w1, x);
      var second := LaggingSideCanAdvance(m, w1, x);
      AfterAppend(m, w, first, second);
    }
  }

  // ---- the sides of a world are runs of the probe loop ----------------------------------

  /** The turns that `role` took in a schedule, in order. */
  function Turns(actions: seq<Action>, role: PeerRole): seq<Turn>
    decreases |actions|
  {
    if actions == [] then []
    else
      var last := actions[|actions| - 1];
      Turns(actions[..|actions| - 1], role) + (if last.React? && last.role == role then [last.turn] else [])
  }

  /** What became of the first send of `role`, once it has begun. */
  function FirstSend(actions: seq<Action>, role: PeerRole): Option<SendOutcome>
    decreases |actions|
  {
    if actions == [] then None
    else
      var last := actions[|actions| - 1];
      if last.Begin? && last.role == role then Some(last.send)
      else FirstSend(actions[..|actions| - 1], role)
  }

  predicate RunsItsTurns(m: Match, w: World, actions: seq<Action>, role: PeerRole)
    requires m.Paired()
  {
    match FirstSend(actions, role)
    case None => w.Side(role) == IDLE && Turns(actions, role) == []
    case Some(first) => w.Side(role) == Run(m.Config(role), first, Turns(actions, role))
  }

  lemma {:induction false} BegunIsNotIdle(config: MatchProbeConfig, first: SendOutcome, turns: seq<Turn>, count: nat)
    requires count <= |turns|
    ensures RunTo(config, first, turns, count).status != Idle
    decreases count
  {
    if count > 0 {
      BegunIsNotIdle(config, first, turns, count - 1);
    }
  }

  /** Each side of a world is where the probe loop is after that side's own turns. */
  lemma {:induction false} SidesRunTheLoop(m: Match, actions: seq<Action>, role: PeerRole)
    requires m.Paired() && EnabledAll(m, QUIET, actions)
    ensures RunsItsTurns(m, After(m, QUIET, actions), actions, role)
    decreases |actions|
  {
    if actions != [] {
      var before, last := actions[..|actions| - 1], actions[|actions| - 1];
      assert before + [last] == actions;
      AfterAppend(m, QUIET, before, [last]);
      SidesRunTheLoop(m, before, role);
      var w := After(m, QUIET, before);
      assert Enabled(w, last);
      assert [last][1..] == [];
      assert After(m, w, [last]) == After(m, Next(m, w, last), []);
      SideAfterAction(m, w, before, last, role);
    }
  }

  lemma SideAfterAction(m: Match, w: World, before: seq<Action>, last: Action, role: PeerRole)
    requires m.Paired() && Enabled(w, last) && RunsItsTurns(m, w, before, role)
    ensures RunsItsTurns(m, Next(m, w, last), before + [last], role)
  {
    assert (before + [last])[..|before|] == before;
    var turns := Turns(before, role);
    if last.React? && last.role == role {
      var first := FirstSend(before, role).value;
      RunToOfPrefix(m.Config(role), first, turns, [last.turn], |turns|);
    } else if last.Begin? && last.role == role {
      if FirstSend(before, role).Some? {
        BegunIsNotIdle(m.Config(role), FirstSend(before, role).value, turns, |turns|);
      }
      assert Turns(before + [last], role) == [];
    } else {
      assert Turns(before + [last], role) == turns;
      OthersLeaveTheSide(m, w, last, role);
    }
  }

  lemma OthersLeaveTheSide(m: Match, w: World, a: Action, role: PeerRole)
    requires m.Paired()
    requires (a.React? || a.Begin?) ==> a.role != role
    ensures Next(m, w, a).Side(role) == w.Side(role)
  {
  }
}
