/**
 Match reports and their pairwise verification, up to the end-to-end statement: probes and
 proof tasks that complete always produce evidence the verifier accepts.
 */
module Reports {
  import opened Words
  import opened Text
  import Fnv
  import P = Probe
  import ProbeNetwork
  import InMemoryProof
  import RoomStates

  const MATCH_REPORT_SCHEMA_VERSION: nat := 1
  const ALPHA_MATCH_FRAMES: nat := 60

  datatype ReportTransport = DirectUdp | Relay

  datatype NatMappingState = OpenNat | Mapped | UnknownNat

  datatype CandidateKind = HostCandidate | Reflexive

  datatype NativeRoute = DirectLan | TcpTunnel

  datatype Compatibility = Compatibility(
    adapter: string,
    emulatorVersion: Option<string>,
    executableSha256: string,
    coreSha256: string,
    contentSha256: string)

  datatype MatchReport = MatchReport(
    schemaVersion: nat,
    roomId: string,
    gameId: string,
    roomState: RoomStates.RoomState,
    role: P.PeerRole,
    transport: ReportTransport,
    framesSent: nat,
    framesReceived: nat,
    transcriptChecksum: string,
    natState: Option<NatMappingState>,
    candidate: Option<CandidateKind>,
    platform: string,
    compatibility: Option<Compatibility>,
    nativeRoute: Option<NativeRoute>)

  datatype Position = First | Second

  datatype VerificationError =
    | UnsupportedSchema(report: Position, version: nat)
    | RoomNotFinished(report: Position)
    | EmptyCorrelation(report: Position)
    | IncompleteTranscript(report: Position)
    | InvalidFrameCounts(report: Position)
    | InvalidChecksum(report: Position)
    | InvalidCompatibility(report: Position)
    | CompatibilityMissing(report: Position)
    | RoomMismatch
    | GameMismatch
    | RoleMismatch
    | ChecksumMismatch
    | TransportMismatch
    | CompatibilityMismatch

  datatype MatchVerification = MatchVerification(
    schemaVersion: nat,
    roomId: string,
    gameId: string,
    transport: ReportTransport,
    framesReceived: nat,
    transcriptChecksum: string)

  predicate LowerHexOfLength(text: string, length: nat) {
    |text| == length && forall c :: c in text ==> Fnv.IsLowerHex(c)
  }

  predicate ValidCompatibility(c: Compatibility) {
    && !IsBlank(c.adapter)
    && (c.emulatorVersion.Some? ==> !IsBlank(c.emulatorVersion.value))
    && LowerHexOfLength(c.executableSha256, 64)
    && LowerHexOfLength(c.coreSha256, 64)
    && LowerHexOfLength(c.contentSha256, 64)
  }

  function ValidateReport(which: Position, report: MatchReport): Result<(), VerificationError> {
    if report.schemaVersion != MATCH_REPORT_SCHEMA_VERSION then Failure(UnsupportedSchema(which, report.schemaVersion))
    else if report.roomState != RoomStates.Finished then Failure(RoomNotFinished(which))
    else if IsBlank(report.roomId) || IsBlank(report.gameId) then Failure(EmptyCorrelation(which))
    else if report.framesReceived != ALPHA_MATCH_FRAMES then Failure(IncompleteTranscript(which))
    else if report.framesSent < report.framesReceived then Failure(InvalidFrameCounts(which))
    else if !LowerHexOfLength(report.transcriptChecksum, 16) then Failure(InvalidChecksum(which))
    else if report.compatibility.Some? && !ValidCompatibility(report.compatibility.value) then
      Failure(InvalidCompatibility(which))
    else Success(())
  }

  function VerifyMatchReports(first: MatchReport, second: MatchReport): Result<MatchVerification, VerificationError> {
    var v1 := ValidateReport(First, first);
    var v2 := ValidateReport(Second, second);
    if v1.Failure? then Failure(v1.error)
    else if v2.Failure? then Failure(v2.error)
    else if first.roomId != second.roomId then Failure(RoomMismatch)
    else if first.gameId != second.gameId then Failure(GameMismatch)
    else if first.role == second.role then Failure(RoleMismatch)
    else if first.transcriptChecksum != second.transcriptChecksum then Failure(ChecksumMismatch)
    else if first.transport != second.transport then Failure(TransportMismatch)
    else if first.compatibility != second.compatibility then Failure(CompatibilityMismatch)
    else Success(MatchVerification(MATCH_REPORT_SCHEMA_VERSION, first.roomId, first.gameId, first.transport,
                                   ALPHA_MATCH_FRAMES, first.transcriptChecksum))
  }

  function VerifyPlayableMatchReports(first: MatchReport, second: MatchReport)
    : Result<MatchVerification, VerificationError>
  {
    if first.compatibility.None? then Failure(CompatibilityMissing(First))
    else if second.compatibility.None? then Failure(CompatibilityMissing(Second))
    else VerifyMatchReports(first, second)
  }

  /** A report that stands on its own: what validation checks, as one condition. */
  predicate Wellformed(report: MatchReport) {
    && report.schemaVersion == MATCH_REPORT_SCHEMA_VERSION
    && report.roomState == RoomStates.Finished
    && !IsBlank(report.roomId) && !IsBlank(report.gameId)
    && report.framesSent >= report.framesReceived == ALPHA_MATCH_FRAMES
    && LowerHexOfLength(report.transcriptChecksum, 16)
    && (report.compatibility.Some? ==> ValidCompatibility(report.compatibility.value))
  }

  predicate Agree(first: MatchReport, second: MatchReport) {
    && first.roomId == second.roomId && first.gameId == second.gameId
    && first.transcriptChecksum == second.transcriptChecksum
    && first.transport == second.transport && first.compatibility == second.compatibility
  }

  /** The verdict and the verified facts do not depend on which report comes first. */
  lemma VerificationIsSymmetric(first: MatchReport, second: MatchReport)
    ensures VerifyMatchReports(first, second).Success? <==>
              Wellformed(first) && Wellformed(second) && Agree(first, second) && first.role != second.role
    ensures VerifyMatchReports(first, second).Success? <==> VerifyMatchReports(second, first).Success?
    ensures VerifyMatchReports(first, second).Success? ==>
              VerifyMatchReports(first, second) == VerifyMatchReports(second, first)
  {
  }

  /** Playable reports carry compatibility evidence, the first one's absence being noticed first. */
  lemma PlayableExactlyWhen(first: MatchReport, second: MatchReport)
    ensures var playable := VerifyPlayableMatchReports(first, second);
            && (playable == Failure(CompatibilityMissing(First)) <==> first.compatibility == None)
            && (playable == Failure(CompatibilityMissing(Second)) <==>
                  first.compatibility != None && second.compatibility == None)
            && (playable.Success? <==>
                  && first.compatibility != None && second.compatibility != None
                  && Wellformed(first) && Wellformed(second) && Agree(first, second) && first.role != second.role)
  {
    VerificationIsSymmetric(first, second);
    hide Wellformed, Agree, LowerHexOfLength, ValidCompatibility, IsBlank;
  }

  /** Two accepted reports never come from one side, so three mutually accepted reports cannot exist. */
  lemma NoThreeWayVerification(a: MatchReport, b: MatchReport, c: MatchReport)
    requires VerifyMatchReports(a, b).Success? && VerifyMatchReports(b, c).Success?
    ensures VerifyMatchReports(a, c) == Failure(RoleMismatch)
  {
    VerificationIsSymmetric(a, b);
    VerificationIsSymmetric(b, c);
  }

  // ---- evidence from the in-process proof -----------------------------------------------

  datatype ProofConfig = ProofConfig(
    roomId: string,
    gameId: string,
    hostUserId: string,
    guestUserId: string,
    inputDelayFrames: nat,
    platform: string
  ) {
    function HostDescriptor(): P.MatchDescriptor {
      P.MatchDescriptor(roomId, gameId, hostUserId, guestUserId, P.Host, P.DirectUdp, inputDelayFrames)
    }

    function GuestDescriptor(): P.MatchDescriptor {
      P.MatchDescriptor(roomId, gameId, guestUserId, hostUserId, P.Guest, P.DirectUdp, inputDelayFrames)
    }
  }

  const EXECUTABLE_SHA256: string :=
    "2a7066c2ccd88471" + "c389b60fd5a86843" + "0edf65605448c42f" + "86a9ca60dcbc8f55"
  const CORE_SHA256: string :=
    "a3b9dddd4ff1ac77" + "db085cfff1c83027" + "92506f7960ac8926" + "d3f281d8fd16b5c6"
  const CONTENT_SHA256: string :=
    "5691c5aaff35e13a" + "2fb2e863685b6d2f" + "4c4a519656f67904" + "f5271e4ba5804994"

  /** The fixed fingerprint that proof reports carry. */
  function ProofCompatibility(): Compatibility {
    Compatibility("retroarch_test", Some("1.0.0"), EXECUTABLE_SHA256, CORE_SHA256, CONTENT_SHA256)
  }

  lemma SixteenByFour(a: string, b: string, c: string, d: string)
    requires LowerHexOfLength(a, 16) && LowerHexOfLength(b, 16)
    requires LowerHexOfLength(c, 16) && LowerHexOfLength(d, 16)
    ensures LowerHexOfLength(a + b + c + d, 64)
  {
  }

  lemma ExecutableHashIsHex()
    ensures LowerHexOfLength(EXECUTABLE_SHA256, 64)
  {
    SixteenByFour("2a7066c2ccd88471", "c389b60fd5a86843", "0edf65605448c42f", "86a9ca60dcbc8f55");
  }

  lemma CoreHashIsHex()
    ensures LowerHexOfLength(CORE_SHA256, 64)
  {
    SixteenByFour("a3b9dddd4ff1ac77", "db085cfff1c83027", "92506f7960ac8926", "d3f281d8fd16b5c6");
  }

  lemma ContentHashIsHex()
    ensures LowerHexOfLength(CONTENT_SHA256, 64)
  {
    SixteenByFour("5691c5aaff35e13a", "2fb2e863685b6d2f", "4c4a519656f67904", "f5271e4ba5804994");
  }

  lemma ProofCompatibilityIsValid()
    ensures ValidCompatibility(ProofCompatibility())
  {
    hide LowerHexOfLength, EXECUTABLE_SHA256, CORE_SHA256, CONTENT_SHA256;
    ExecutableHashIsHex();
    CoreHashIsHex();
    ContentHashIsHex();
    var adapter, version := "retroarch_test", "1.0.0";
    assert adapter[0] == 'r' && !IsWhitespace('r');
    assert version[0] == '1' && !IsWhitespace('1');
  }

  function BuildReport(config: ProofConfig, role: P.PeerRole, outcome: InMemoryProof.Drive): MatchReport {
    MatchReport(
      MATCH_REPORT_SCHEMA_VERSION, config.roomId, config.gameId, RoomStates.Finished,
      role, DirectUdp, outcome.framesSent, outcome.framesReceived, Fnv.Hex(outcome.checksum),
      Some(UnknownNat), Some(HostCandidate), config.platform, Some(ProofCompatibility()), Some(DirectLan))
  }

  datatype ProofError = Preparation | Transport | Verification(error: VerificationError)

  /** What `run_proof` returns once both tasks have ended as `host` and `guest`. */
  function RunProof(config: ProofConfig, host: InMemoryProof.Drive, guest: InMemoryProof.Drive)
    : Result<MatchVerification, ProofError>
  {
    if !config.HostDescriptor().Validate() || !config.GuestDescriptor().Validate() then Failure(Preparation)
    else if host.status != InMemoryProof.Driven || guest.status != InMemoryProof.Driven then Failure(Transport)
    else
      match VerifyMatchReports(BuildReport(config, P.Host, host), BuildReport(config, P.Guest, guest))
      case Success(verification) => Success(verification)
      case Failure(error) => Failure(Verification(error))
  }

  /**
   End to end: whatever the schedule of the two tasks, a prepared proof either loses its transport
   (a deadline or a full queue) or is verified. The verifier never rejects its evidence.
   */
  lemma ProofIsNeverRejected(config: ProofConfig, moves: seq<InMemoryProof.Move>)
    requires var players := InMemoryProof.Players(config.hostUserId, config.guestUserId);
             InMemoryProof.EnabledAll(players, InMemoryProof.FRESH, moves)
    ensures var players := InMemoryProof.Players(config.hostUserId, config.guestUserId);
            var end := InMemoryProof.After(players, InMemoryProof.FRESH, moves);
            var result := RunProof(config, end.host, end.guest);
            && (result.Failure? ==> !result.error.Verification?)
            && (config.HostDescriptor().Validate() && config.GuestDescriptor().Validate()
                && end.host.status == end.guest.status == InMemoryProof.Driven ==>
                  result == Success(MatchVerification(
                    MATCH_REPORT_SCHEMA_VERSION, config.roomId, config.gameId, DirectUdp, ALPHA_MATCH_FRAMES,
                    Fnv.Hex(ProbeNetwork.CanonicalChecksum(ALPHA_MATCH_FRAMES)))))
  {
    hide BuildReport, VerifyMatchReports, ProbeNetwork.CanonicalChecksum, Fnv.Hex;
    var players := InMemoryProof.Players(config.hostUserId, config.guestUserId);
    var end := InMemoryProof.After(players, InMemoryProof.FRESH, moves);
    if end.host.status == end.guest.status == InMemoryProof.Driven {
      InMemoryProof.LosslessOrder(players, moves);
      assert end.Drive(P.Host) == end.host && end.Drive(P.Guest) == end.guest;
      if config.HostDescriptor().Validate() && config.GuestDescriptor().Validate() {
        CompleteDrivesVerify(config, end.host, end.guest);
      }
    }
  }

  lemma CompleteDrivesVerify(config: ProofConfig, host: InMemoryProof.Drive, guest: InMemoryProof.Drive)
    requires InMemoryProof.Complete(host) && InMemoryProof.Complete(guest)
    requires config.HostDescriptor().Validate() && config.GuestDescriptor().Validate()
    ensures RunProof(config, host, guest) == Success(MatchVerification(
              MATCH_REPORT_SCHEMA_VERSION, config.roomId, config.gameId, DirectUdp, ALPHA_MATCH_FRAMES,
              Fnv.Hex(ProbeNetwork.CanonicalChecksum(ALPHA_MATCH_FRAMES))))
  {
    hide ProbeNetwork.CanonicalChecksum, Fnv.Hex, ProofCompatibility;
    Fnv.HexIsCanonical(ProbeNetwork.CanonicalChecksum(ALPHA_MATCH_FRAMES));
    ProofCompatibilityIsValid();
  }

  // ---- evidence from two UDP or relay probes --------------------------------------------

  /** The client's report about a completed probe in a finished room. */
  function ProbeEvidence(gameId: string, report: P.MatchProbeReport, compatibility: Option<Compatibility>,
                         platform: string): MatchReport {
    MatchReport(
      MATCH_REPORT_SCHEMA_VERSION, report.roomId, gameId, RoomStates.Finished, report.role,
      if report.transport == P.Relay then Relay else DirectUdp,
      report.framesSent, report.framesReceived, report.transcriptChecksum,
      Some(UnknownNat), Some(HostCandidate), platform, compatibility, None)
  }

  predicate WellMatched(m: ProbeNetwork.Match) {
    && m.Paired() && m.host.Valid() && m.guest.Valid()
    && m.host.frameCount == ALPHA_MATCH_FRAMES
    && m.host.descriptor.gameId == m.guest.descriptor.gameId
    && m.host.descriptor.transport == m.guest.descriptor.transport
  }

  /** End to end over the network: two completed sixty-frame probes always verify as a pair. */
  lemma CompletedProbesVerify(m: ProbeNetwork.Match, actions: seq<ProbeNetwork.Action>,
                              compatibility: Option<Compatibility>, hostPlatform: string, guestPlatform: string)
    requires WellMatched(m) && ProbeNetwork.EnabledAll(m, ProbeNetwork.QUIET, actions)
    requires ProbeNetwork.After(m, ProbeNetwork.QUIET, actions).host.status == P.Finished
    requires ProbeNetwork.After(m, ProbeNetwork.QUIET, actions).guest.status == P.Finished
    requires compatibility.Some? ==> ValidCompatibility(compatibility.value)
    ensures var w := ProbeNetwork.After(m, ProbeNetwork.QUIET, actions);
            var host := P.ReportOf(m.host, w.host.framesSent, w.host.checksum);
            var guest := P.ReportOf(m.guest, w.guest.framesSent, w.guest.checksum);
            var game := m.host.descriptor.gameId;
            VerifyMatchReports(ProbeEvidence(game, host, compatibility, hostPlatform),
                               ProbeEvidence(game, guest, compatibility, guestPlatform)).Success?
  {
    hide ProbeNetwork.CanonicalChecksum, Fnv.Hex;
    ProbeNetwork.CompletedProbesAgree(m, actions, P.Host);
    ProbeNetwork.CompletedProbesAgree(m, actions, P.Guest);
    Fnv.HexIsCanonical(ProbeNetwork.CanonicalChecksum(m.host.frameCount));
  }
}
