/**
 The alpha campaign summary: match and failure reports grouped by room and counted.
 */
module Campaign {
  import opened Text
  import opened Reports
  import RoomStates

  const FAILURE_REPORT_SCHEMA_VERSION: nat := 1

  datatype FailureReport = FailureReport(
    schemaVersion: nat,
    roomId: string,
    gameId: string,
    errorCode: string,
    transport: Option<ReportTransport>,
    platform: string)

  datatype TransportLabel = UdpLabel | RelayLabel | NotSelected

  datatype NatLabel = OpenLabel | MappedLabel | UnknownNatLabel

  datatype CandidateLabel = HostLabel | ReflexiveLabel | UnknownCandidate

  datatype Key = Key(gameId: string, platform: string, transport: TransportLabel, nat: NatLabel, candidate: CandidateLabel)

  datatype Counts = Counts(attempts: nat, verified: nat)

  datatype Summary = Summary(
    reports: nat,
    attempts: nat,
    verified: nat,
    failed: nat,
    successRate: real,
    gatePassed: bool,
    failures: map<string, string>,
    compatibility: map<Key, Counts>)

  // ---- one room ---------------------------------------------------------------------------------

  function Label(transport: ReportTransport): TransportLabel {
    if transport == DirectUdp then UdpLabel else RelayLabel
  }

  function KeyOfMatch(r: MatchReport): Key {
    Key(r.gameId, r.platform, Label(r.transport),
        match r.natState
          case Some(OpenNat) => OpenLabel
          case Some(Mapped) => MappedLabel
          case _ => UnknownNatLabel,
        match r.candidate
          case Some(HostCandidate) => HostLabel
          case Some(Reflexive) => ReflexiveLabel
          case None => UnknownCandidate)
  }

  function KeyOfFailure(r: FailureReport): Key {
    Key(r.gameId, r.platform, if r.transport.Some? then Label(r.transport.value) else NotSelected,
        UnknownNatLabel, UnknownCandidate)
  }

  predicate IsCodeChar(c: char) {
    'a' <= c <= 'z' || '0' <= c <= '9' || c == '_'
  }

  function ValidateFailure(r: FailureReport): Result<(), string> {
    if r.schemaVersion != FAILURE_REPORT_SCHEMA_VERSION then Failure("schema_unsupported")
    else if IsBlank(r.roomId) || IsBlank(r.gameId) then Failure("correlation_missing")
    else if 3 <= Utf8Len(r.errorCode) <= 64 && (forall c :: c in r.errorCode ==> IsCodeChar(c)) then Success(())
    else Failure("failure_code_invalid")
  }

  /** Strings in byte order, which for UTF-8 is character order. */
  predicate NoLater(a: string, b: string) {
    a == "" || (b != "" && (a[0] < b[0] || (a[0] == b[0] && NoLater(a[1..], b[1..]))))
  }

  function LeastCode(failures: seq<FailureReport>): string
    requires failures != []
  {
    if |failures| == 1 then failures[0].errorCode
    else
      var least := LeastCode(failures[1..]);
      if NoLater(failures[0].errorCode, least) then failures[0].errorCode else least
  }

  function FirstInvalid(failures: seq<FailureReport>): Option<string> {
    if failures == [] then None
    else if ValidateFailure(failures[0]).Failure? then Some(ValidateFailure(failures[0]).error)
    else FirstInvalid(failures[1..])
  }

  /** A room with failure reports fails, whatever else it holds. */
  function FailureCode(matches: seq<MatchReport>, failures: seq<FailureReport>): string
    requires failures != []
  {
    if matches != [] then "evidence_conflict"
    else if FirstInvalid(failures).Some? then FirstInvalid(failures).value
    else if |set f | f in failures :: f.gameId| != 1 then "evidence_conflict"
    else LeastCode(failures)
  }

  function ErrorCode(error: VerificationError): string {
    match error
    case UnsupportedSchema(_, _) => "schema_unsupported"
    case RoomNotFinished(_) => "room_not_finished"
    case EmptyCorrelation(_) => "correlation_missing"
    case IncompleteTranscript(_) => "transcript_incomplete"
    case InvalidFrameCounts(_) => "frame_counts_invalid"
    case InvalidChecksum(_) => "checksum_invalid"
    case InvalidCompatibility(_) => "compatibility_invalid"
    case CompatibilityMissing(_) => "compatibility_missing"
    case RoomMismatch => "room_mismatch"
    case GameMismatch => "game_mismatch"
    case RoleMismatch => "role_mismatch"
    case ChecksumMismatch => "checksum_mismatch"
    case TransportMismatch => "transport_mismatch"
    case CompatibilityMismatch => "compatibility_mismatch"
  }

  function RoomResult(matches: seq<MatchReport>, failures: seq<FailureReport>): Result<(), string> {
    if failures != [] then Failure(FailureCode(matches, failures))
    else if |matches| == 2 then
      var verification := VerifyMatchReports(matches[0], matches[1]);
      if verification.Success? then Success(()) else Failure(ErrorCode(verification.error))
    else Failure("report_pair_invalid")
  }

  function KeysOf(matches: seq<MatchReport>, failures: seq<FailureReport>): set<Key> {
    (set r | r in matches :: KeyOfMatch(r)) + (set f | f in failures :: KeyOfFailure(f))
  }

  // ---- the campaign -------------------------------------------------------------------------------

  function MatchesOf(reports: seq<MatchReport>, room: string): seq<MatchReport> {
    if reports == [] then []
    else MatchesOf(reports[..|reports| - 1], room)
         + (if reports[|reports| - 1].roomId == room then [reports[|reports| - 1]] else [])
  }

  function FailuresOf(reports: seq<FailureReport>, room: string): seq<FailureReport> {
    if reports == [] then []
    else FailuresOf(reports[..|reports| - 1], room)
         + (if reports[|reports| - 1].roomId == room then [reports[|reports| - 1]] else [])
  }

  datatype Evidence = Evidence(matches: seq<MatchReport>, failures: seq<FailureReport>) {
    function Rooms(): set<string> {
      RoomsOfMatches(matches) + RoomsOfFailures(failures)
    }

    function Result(room: string): Result<(), string> {
      RoomResult(MatchesOf(matches, room), FailuresOf(failures, room))
    }

    function Keys(room: string): set<Key> {
      KeysOf(MatchesOf(matches, room), FailuresOf(failures, room))
    }
  }

  function Verified(e: Evidence, rooms: set<string>): set<string> {
    set room | room in rooms && e.Result(room).Success?
  }

  function With(e: Evidence, rooms: set<string>, key: Key): set<string> {
    set room | room in rooms && key in e.Keys(room)
  }

  function FailureCodes(e: Evidence, rooms: set<string>): map<string, string> {
    map room | room in rooms && e.Result(room).Failure? :: e.Result(room).error
  }

  function KeysIn(e: Evidence, rooms: set<string>): set<Key> {
    set room, key | room in rooms && key in e.Keys(room) :: key
  }

  function Row(e: Evidence, rooms: set<string>, key: Key): Counts {
    Counts(|With(e, rooms, key)|, |With(e, Verified(e, rooms), key)|)
  }

  function Rows(e: Evidence, rooms: set<string>): map<Key, Counts> {
    map key | key in KeysIn(e, rooms) :: Row(e, rooms, key)
  }

  function SuccessRate(attempts: nat, verified: nat): real {
    if attempts == 0 then 0.0 else verified as real / attempts as real
  }

  predicate Gate(attempts: nat, verified: nat) {
    attempts >= 10 && SuccessRate(attempts, verified) >= 0.8
  }

  /** The gate is at least ten rooms and four in five of them verified. */
  lemma GateIsFourInFive(attempts: nat, verified: nat)
    ensures Gate(attempts, verified) <==> attempts >= 10 && 5 * verified >= 4 * attempts
  {
    if attempts > 0 {
      var a, v := attempts as real, verified as real;
      assert v == SuccessRate(attempts, verified) * a;
      if SuccessRate(attempts, verified) >= 0.8 {
        TimesGrows(0.8, SuccessRate(attempts, verified), a);
      } else {
        TimesGrows(SuccessRate(attempts, verified), 0.8, a);
      }
    }
  }

  lemma TimesGrows(x: real, y: real, a: real)
    requires x <= y && a > 0.0
    ensures x * a <= y * a && (x < y ==> x * a < y * a)
  {
    assert (y - x) * a == y * a - x * a;
  }

  function Summarize(e: Evidence): Summary {
    var rooms := e.Rooms();
    var verified := |Verified(e, rooms)|;
    Summary(|e.matches| + |e.failures|, |rooms|, verified, |FailureCodes(e, rooms)|,
            SuccessRate(|rooms|, verified), Gate(|rooms|, verified), FailureCodes(e, rooms), Rows(e, rooms))
  }

  // ---- the loops ------------------------------------------------------------------------------------

  lemma MatchesOfNext(reports: seq<MatchReport>, i: nat, room: string)
    requires i < |reports|
    ensures MatchesOf(reports[..i + 1], room)
            == MatchesOf(reports[..i], room) + (if reports[i].roomId == room then [reports[i]] else [])
  {
    assert reports[..i + 1][..i] == reports[..i];
  }

  lemma FailuresOfNext(reports: seq<FailureReport>, i: nat, room: string)
    requires i < |reports|
    ensures FailuresOf(reports[..i + 1], room)
            == FailuresOf(reports[..i], room) + (if reports[i].roomId == room then [reports[i]] else [])
  {
    assert reports[..i + 1][..i] == reports[..i];
  }

  function RoomsOfMatches(reports: seq<MatchReport>): set<string> {
    set r | r in reports :: r.roomId
  }

  predicate GroupsMatches(rooms: map<string, seq<MatchReport>>, reports: seq<MatchReport>) {
    && rooms.Keys == RoomsOfMatches(reports)
    && (forall room :: room in rooms ==> rooms[room] == MatchesOf(reports, room))
  }

  function RoomsOfFailures(reports: seq<FailureReport>): set<string> {
    set r | r in reports :: r.roomId
  }

  predicate GroupsFailures(rooms: map<string, seq<FailureReport>>, reports: seq<FailureReport>) {
    && rooms.Keys == RoomsOfFailures(reports)
    && (forall room :: room in rooms ==> rooms[room] == FailuresOf(reports, room))
  }

  lemma GroupsMatchesNext(rooms: map<string, seq<MatchReport>>, reports: seq<MatchReport>, i: nat)
    requires i < |reports| && GroupsMatches(rooms, reports[..i])
    ensures var room := reports[i].roomId;
            GroupsMatches(rooms[room := (if room in rooms then rooms[room] else []) + [reports[i]]], reports[..i + 1])
  {
    var room, before, after := reports[i].roomId, reports[..i], reports[..i + 1];
    NoMatches(before, room);
    RoomsOfMatchesNext(reports, i);
    hide MatchesOf, RoomsOfMatches;
    forall other ensures MatchesOf(after, other) == MatchesOf(before, other) + (if room == other then [reports[i]] else []) {
      MatchesOfNext(reports, i, other);
    }
  }

  lemma RoomsOfMatchesNext(reports: seq<MatchReport>, i: nat)
    requires i < |reports|
    ensures RoomsOfMatches(reports[..i + 1]) == RoomsOfMatches(reports[..i]) + {reports[i].roomId}
  {
    assert reports[..i + 1] == reports[..i] + [reports[i]];
  }

  method GroupMatches(reports: seq<MatchReport>) returns (rooms: map<string, seq<MatchReport>>)
    ensures GroupsMatches(rooms, reports)
  {
    rooms := map[];
    assert GroupsMatches(rooms, reports[..0]);
    hide GroupsMatches;
    for i := 0 to |reports|
      invariant GroupsMatches(rooms, reports[..i])
    {
      var report := reports[i];
      GroupsMatchesNext(rooms, reports, i);
      if report.roomId !in rooms {
        assert rooms[report.roomId := []][report.roomId := [report]] == rooms[report.roomId := [report]];
        rooms := rooms[report.roomId := []];
      }
      rooms := rooms[report.roomId := rooms[report.roomId] + [report]];
    }
    assert reports[..|reports|] == reports;
  }

  lemma GroupsFailuresNext(rooms: map<string, seq<FailureReport>>, reports: seq<FailureReport>, i: nat)
    requires i < |reports| && GroupsFailures(rooms, reports[..i])
    ensures var room := reports[i].roomId;
            GroupsFailures(rooms[room := (if room in rooms then rooms[room] else []) + [reports[i]]], reports[..i + 1])
  {
    var room, before, after := reports[i].roomId, reports[..i], reports[..i + 1];
    NoFailures(before, room);
    RoomsOfFailuresNext(reports, i);
    hide FailuresOf, RoomsOfFailures;
    forall other ensures FailuresOf(after, other) == FailuresOf(before, other) + (if room == other then [reports[i]] else []) {
      FailuresOfNext(reports, i, other);
    }
  }

  lemma RoomsOfFailuresNext(reports: seq<FailureReport>, i: nat)
    requires i < |reports|
    ensures RoomsOfFailures(reports[..i + 1]) == RoomsOfFailures(reports[..i]) + {reports[i].roomId}
  {
    assert reports[..i + 1] == reports[..i] + [reports[i]];
  }

  method GroupFailures(reports: seq<FailureReport>) returns (rooms: map<string, seq<FailureReport>>)
    ensures GroupsFailures(rooms, reports)
  {
    rooms := map[];
    assert GroupsFailures(rooms, reports[..0]);
    hide GroupsFailures;
    for i := 0 to |reports|
      invariant GroupsFailures(rooms, reports[..i])
    {
      var report := reports[i];
      GroupsFailuresNext(rooms, reports, i);
      if report.roomId !in rooms {
        assert rooms[report.roomId := []][report.roomId := [report]] == rooms[report.roomId := [report]];
        rooms := rooms[report.roomId := []];
      }
      rooms := rooms[report.roomId := rooms[report.roomId] + [report]];
    }
    assert reports[..|reports|] == reports;
  }

  lemma {:induction false} NoMatches(reports: seq<MatchReport>, room: string)
    ensures MatchesOf(reports, room) == [] <==> room !in RoomsOfMatches(reports)
  {
    if reports != [] {
      var n := |reports| - 1;
      NoMatches(reports[..n], room);
      RoomsOfMatchesNext(reports, n);
      assert reports[..n + 1] == reports;
      hide RoomsOfMatches;
    }
  }

  lemma {:induction false} NoFailures(reports: seq<FailureReport>, room: string)
    ensures FailuresOf(reports, room) == [] <==> room !in RoomsOfFailures(reports)
  {
    if reports != [] {
      var n := |reports| - 1;
      NoFailures(reports[..n], room);
      RoomsOfFailuresNext(reports, n);
      assert reports[..n + 1] == reports;
      hide RoomsOfFailures;
    }
  }

  function CountsOf(rows: map<Key, Counts>, key: Key): Counts {
    if key in rows then rows[key] else Counts(0, 0)
  }

  function Bump(counts: Counts, verified: bool): Counts {
    Counts(counts.attempts + 1, counts.verified + (if verified then 1 else 0))
  }

  /** The rows after one room counted under these keys, once under each. */
  function Bumped(rows: map<Key, Counts>, keys: set<Key>, verified: bool): map<Key, Counts> {
    map key | key in rows.Keys + keys :: if key in keys then Bump(CountsOf(rows, key), verified) else rows[key]
  }

  lemma BumpOne(rows: map<Key, Counts>, keys: set<Key>, key: Key, verified: bool)
    requires key !in keys
    ensures Bumped(rows, keys + {key}, verified)
            == Bumped(rows, keys, verified)[key := Bump(CountsOf(Bumped(rows, keys, verified), key), verified)]
  {
  }

  method CountMatches(rows: map<Key, Counts>, matches: seq<MatchReport>, verified: bool)
    returns (seen: set<Key>, after: map<Key, Counts>)
    ensures seen == (set r | r in matches :: KeyOfMatch(r)) && after == Bumped(rows, seen, verified)
  {
    seen, after := {}, rows;
    assert after == Bumped(rows, seen, verified);
    hide KeyOfMatch, Bumped;
    for i := 0 to |matches|
      invariant seen == (set r | r in matches[..i] :: KeyOfMatch(r)) && after == Bumped(rows, seen, verified)
    {
      var key := KeyOfMatch(matches[i]);
      assert matches[..i + 1] == matches[..i] + [matches[i]];
      if key !in seen {
        BumpOne(rows, seen, key, verified);
        seen := seen + {key};
        after := after[key := Bump(CountsOf(after, key), verified)];
      }
    }
    assert matches[..|matches|] == matches;
  }

  method CountRoom(rows: map<Key, Counts>, matches: seq<MatchReport>, failures: seq<FailureReport>, verified: bool)
    returns (after: map<Key, Counts>)
    requires failures != [] ==> !verified
    ensures after == Bumped(rows, KeysOf(matches, failures), verified)
  {
    var seen;
    seen, after := CountMatches(rows, matches, verified);
    hide KeyOfMatch, KeyOfFailure, Bumped;
    for i := 0 to |failures|
      invariant seen == KeysOf(matches, failures[..i]) && after == Bumped(rows, seen, verified)
    {
      var key := KeyOfFailure(failures[i]);
      assert failures[..i + 1] == failures[..i] + [failures[i]];
      if key !in seen {
        BumpOne(rows, seen, key, verified);
        seen := seen + {key};
        after := after[key := CountsOf(after, key).(attempts := CountsOf(after, key).attempts + 1)];
      }
    }
    assert failures[..|failures|] == failures;
  }

  lemma VerifiedNext(e: Evidence, done: set<string>, room: string)
    requires room !in done
    ensures Verified(e, done + {room}) == Verified(e, done) + (if e.Result(room).Success? then {room} else {})
    ensures room !in Verified(e, done)
    ensures FailureCodes(e, done + {room})
            == if e.Result(room).Success? then FailureCodes(e, done)
               else FailureCodes(e, done)[room := e.Result(room).error]
  {
    hide Evidence.Result;
  }

  lemma WithNext(e: Evidence, done: set<string>, room: string, key: Key)
    requires room !in done
    ensures |With(e, done + {room}, key)| == |With(e, done, key)| + (if key in e.Keys(room) then 1 else 0)
  {
    hide Evidence.Keys;
    assert With(e, done + {room}, key) == With(e, done, key) + (if key in e.Keys(room) then {room} else {});
  }

  lemma RowNext(e: Evidence, done: set<string>, room: string, key: Key)
    requires room !in done
    ensures Row(e, done + {room}, key)
            == if key in e.Keys(room) then Bump(Row(e, done, key), e.Result(room).Success?) else Row(e, done, key)
  {
    hide Evidence.Keys, Evidence.Result, With;
    VerifiedNext(e, done, room);
    WithNext(e, done, room, key);
    if e.Result(room).Success? {
      WithNext(e, Verified(e, done), room, key);
    } else {
      assert Verified(e, done + {room}) == Verified(e, done);
    }
  }

  lemma NoRow(e: Evidence, done: set<string>, key: Key)
    requires key !in KeysIn(e, done)
    ensures Row(e, done, key) == Counts(0, 0)
  {
    assert With(e, done, key) == {} && With(e, Verified(e, done), key) == {};
  }

  lemma RowsNext(e: Evidence, done: set<string>, room: string)
    requires room !in done
    ensures Rows(e, done + {room}) == Bumped(Rows(e, done), e.Keys(room), e.Result(room).Success?)
  {
    hide Evidence.Keys, Evidence.Result, Row, Verified, With;
    assert KeysIn(e, done + {room}) == KeysIn(e, done) + e.Keys(room);
    var before, keys, ok := Rows(e, done), e.Keys(room), e.Result(room).Success?;
    forall key | key in KeysIn(e, done + {room})
      ensures Row(e, done + {room}, key) == Bumped(before, keys, ok)[key]
    {
      RowNext(e, done, room, key);
      if key !in KeysIn(e, done) {
        NoRow(e, done, key);
      }
    }
  }

  lemma NothingSummarized(e: Evidence)
    ensures Verified(e, {}) == {} && FailureCodes(e, {}) == map[] && Rows(e, {}) == map[]
  {
  }

  lemma GroupedMatches(rooms: map<string, seq<MatchReport>>, reports: seq<MatchReport>, room: string)
    requires GroupsMatches(rooms, reports)
    ensures MatchesOf(reports, room) == if room in rooms then rooms[room] else []
  {
    NoMatches(reports, room);
  }

  lemma GroupedFailures(rooms: map<string, seq<FailureReport>>, reports: seq<FailureReport>, room: string)
    requires GroupsFailures(rooms, reports)
    ensures FailuresOf(reports, room) == if room in rooms then rooms[room] else []
  {
    NoFailures(reports, room);
  }

  /** The loop over the rooms. */
  method CountRooms(e: Evidence, rooms: set<string>, matches: map<string, seq<MatchReport>>,
                    failureReports: map<string, seq<FailureReport>>)
    returns (verified: nat, failures: map<string, string>, compatibility: map<Key, Counts>)
    requires GroupsMatches(matches, e.matches) && GroupsFailures(failureReports, e.failures)
    ensures verified == |Verified(e, rooms)| && failures == FailureCodes(e, rooms) && compatibility == Rows(e, rooms)
  {
    hide Rows, Bumped, RoomResult, KeysOf, MatchesOf, FailuresOf, Verified, FailureCodes, GroupsMatches, GroupsFailures;
    verified, failures, compatibility := 0, map[], map[];
    var rest := rooms;
    ghost var done: set<string> := {};
    NothingSummarized(e);
    while rest != {}
      invariant done == rooms - rest && rest <= rooms
      invariant verified == |Verified(e, done)| && failures == FailureCodes(e, done) && compatibility == Rows(e, done)
      decreases |rest|
    {
      var room :| room in rest;
      var pair := if room in matches then matches[room] else [];
      var abandoned := if room in failureReports then failureReports[room] else [];
      GroupedMatches(matches, e.matches, room);
      GroupedFailures(failureReports, e.failures, room);
      var result := RoomResult(pair, abandoned);
      if result.Success? {
        verified := verified + 1;
      } else {
        failures := failures[room := result.error];
      }
      FailedRoomsFail(pair, abandoned);
      compatibility := CountRoom(compatibility, pair, abandoned, result.Success?);
      RowsNext(e, done, room);
      VerifiedNext(e, done, room);
      rest := rest - {room};
      done := done + {room};
    }
    assert done == rooms;
  }

  method Rate(attempts: nat, verified: nat) returns (successRate: real, gatePassed: bool)
    ensures successRate == SuccessRate(attempts, verified) && gatePassed == Gate(attempts, verified)
  {
    successRate := if attempts == 0 then 0.0 else verified as real / attempts as real;
    gatePassed := attempts >= 10 && successRate >= 0.8;
  }

  method SummarizeCampaignEvidence(e: Evidence) returns (summary: Summary)
    ensures summary == Summarize(e)
  {
    var matches := GroupMatches(e.matches);
    var failureReports := GroupFailures(e.failures);
    var rooms := matches.Keys + failureReports.Keys;
    assert rooms == e.Rooms();
    hide Rows, Verified, FailureCodes, GroupsMatches, GroupsFailures, Evidence.Rooms, SuccessRate, Gate;
    var verified, failures, compatibility := CountRooms(e, rooms, matches, failureReports);
    VerifiedPlusFailed(e, rooms);
    var attempts := |rooms|;
    var successRate, gatePassed := Rate(attempts, verified);
    return Summary(|e.matches| + |e.failures|, attempts, verified, attempts - verified, successRate, gatePassed, failures,
                   compatibility);
  }

  lemma FailedRoomsFail(matches: seq<MatchReport>, failures: seq<FailureReport>)
    ensures failures != [] ==> RoomResult(matches, failures).Failure?
  {
  }

  /** Every distinct room is verified or failed, and not both. */
  lemma VerifiedPlusFailed(e: Evidence, rooms: set<string>)
    ensures |Verified(e, rooms)| + |FailureCodes(e, rooms)| == |rooms|
    ensures Verified(e, rooms) !! FailureCodes(e, rooms).Keys
  {
    assert rooms == Verified(e, rooms) + FailureCodes(e, rooms).Keys;
  }

  // ---- the order of the reports does not matter -------------------------------------------------------

  lemma {:induction false} MatchesOfCounts(reports: seq<MatchReport>, room: string, r: MatchReport)
    ensures multiset(MatchesOf(reports, room))[r] == if r.roomId == room then multiset(reports)[r] else 0
  {
    if reports != [] {
      var n := |reports| - 1;
      MatchesOfCounts(reports[..n], room, r);
      assert reports == reports[..n] + [reports[n]];
    }
  }

  lemma {:induction false} FailuresOfCounts(reports: seq<FailureReport>, room: string, r: FailureReport)
    ensures multiset(FailuresOf(reports, room))[r] == if r.roomId == room then multiset(reports)[r] else 0
  {
    if reports != [] {
      var n := |reports| - 1;
      FailuresOfCounts(reports[..n], room, r);
      assert reports == reports[..n] + [reports[n]];
    }
  }

  ghost predicate SameReports(a: Evidence, b: Evidence) {
    multiset(a.matches) == multiset(b.matches) && multiset(a.failures) == multiset(b.failures)
  }

  lemma SameReportsPerRoom(a: Evidence, b: Evidence, room: string)
    requires SameReports(a, b)
    ensures multiset(MatchesOf(a.matches, room)) == multiset(MatchesOf(b.matches, room))
    ensures multiset(FailuresOf(a.failures, room)) == multiset(FailuresOf(b.failures, room))
  {
    forall r
      ensures multiset(MatchesOf(a.matches, room))[r] == multiset(MatchesOf(b.matches, room))[r]
    {
      MatchesOfCounts(a.matches, room, r);
      MatchesOfCounts(b.matches, room, r);
    }
    forall r
      ensures multiset(FailuresOf(a.failures, room))[r] == multiset(FailuresOf(b.failures, room))[r]
    {
      FailuresOfCounts(a.failures, room, r);
      FailuresOfCounts(b.failures, room, r);
    }
  }

  lemma SameElements<T>(a: seq<T>, b: seq<T>)
    requires multiset(a) == multiset(b)
    ensures |a| == |b| && forall x :: x in a <==> x in b
  {
    assert |multiset(a)| == |a| && |multiset(b)| == |b|;
    forall x ensures x in a <==> x in b {
      assert x in a <==> x in multiset(a);
      assert x in b <==> x in multiset(b);
    }
  }

  lemma PairsSwap<T>(a: seq<T>, b: seq<T>)
    requires multiset(a) == multiset(b) && |a| == 2
    ensures |b| == 2 && (a == b || a == [b[1], b[0]])
  {
    SameElements(a, b);
    assert a == [a[0], a[1]] && b == [b[0], b[1]];
    assert multiset(a)[a[0]] == multiset(b)[a[0]];
    assert multiset(a)[b[0]] == multiset(b)[b[0]];
  }

  lemma SameKeys(x: seq<MatchReport>, y: seq<MatchReport>, f: seq<FailureReport>, g: seq<FailureReport>)
    requires forall r :: r in x <==> r in y
    requires forall r :: r in f <==> r in g
    ensures KeysOf(x, f) == KeysOf(y, g)
  {
    hide KeyOfMatch, KeyOfFailure;
  }

  lemma RoomsAgree(a: Evidence, b: Evidence, room: string)
    requires SameReports(a, b)
    ensures a.Result(room).Success? <==> b.Result(room).Success?
    ensures a.Keys(room) == b.Keys(room)
  {
    SameReportsPerRoom(a, b, room);
    hide MatchesOf, FailuresOf;
    var x, y := MatchesOf(a.matches, room), MatchesOf(b.matches, room);
    SameElements(x, y);
    var f, g := FailuresOf(a.failures, room), FailuresOf(b.failures, room);
    SameElements(f, g);
    hide Reports.VerifyMatchReports, ErrorCode, FailureCode;
    SameKeys(x, y, f, g);
    hide KeysOf;
    if |x| == 2 {
      PairsSwap(x, y);
      VerificationIsSymmetric(x[0], x[1]);
    }
  }

  /**
   Any order of the same reports gives the same attempts, verified and failed counts, gate,
   compatibility rows and failed rooms; only which code a failed room shows may differ.
   */
  lemma OrderDoesNotMatter(a: Evidence, b: Evidence)
    requires SameReports(a, b)
    ensures Summarize(a) == Summarize(b).(failures := Summarize(a).failures)
    ensures Summarize(a).failures.Keys == Summarize(b).failures.Keys
  {
    SameElements(a.matches, b.matches);
    SameElements(a.failures, b.failures);
    assert a.Rooms() == b.Rooms();
    var rooms := a.Rooms();
    forall room ensures (a.Result(room).Success? <==> b.Result(room).Success?) && a.Keys(room) == b.Keys(room) {
      RoomsAgree(a, b, room);
    }
    hide Evidence.Result, Evidence.Keys, Evidence.Rooms;
    assert Verified(a, rooms) == Verified(b, rooms);
    assert FailureCodes(a, rooms).Keys == FailureCodes(b, rooms).Keys;
    assert KeysIn(a, rooms) == KeysIn(b, rooms);
    forall key ensures Row(a, rooms, key) == Row(b, rooms, key) {
      assert With(a, rooms, key) == With(b, rooms, key);
      assert With(a, Verified(a, rooms), key) == With(b, Verified(b, rooms), key);
    }
    assert Rows(a, rooms) == Rows(b, rooms);
  }

  // ---- what the rows say -----------------------------------------------------------------------------

  lemma {:induction false} MatchesOfAre(reports: seq<MatchReport>, room: string, r: MatchReport)
    ensures r in MatchesOf(reports, room) <==> r in reports && r.roomId == room
  {
    if reports != [] {
      var n := |reports| - 1;
      MatchesOfAre(reports[..n], room, r);
      assert reports == reports[..n] + [reports[n]];
    }
  }

  lemma {:induction false} FailuresOfAre(reports: seq<FailureReport>, room: string, r: FailureReport)
    ensures r in FailuresOf(reports, room) <==> r in reports && r.roomId == room
  {
    if reports != [] {
      var n := |reports| - 1;
      FailuresOfAre(reports[..n], room, r);
      assert reports == reports[..n] + [reports[n]];
    }
  }

  /** Some report about the room bears the key. */
  predicate ReportedUnder(e: Evidence, room: string, key: Key) {
    || (exists r :: r in e.matches && r.roomId == room && KeyOfMatch(r) == key)
    || (exists f :: f in e.failures && f.roomId == room && KeyOfFailure(f) == key)
  }

  lemma KeysAre(e: Evidence, room: string, key: Key)
    ensures key in e.Keys(room) <==> ReportedUnder(e, room, key)
  {
    hide KeyOfMatch, KeyOfFailure, MatchesOf, FailuresOf;
    var matches, failures := MatchesOf(e.matches, room), FailuresOf(e.failures, room);
    forall r ensures r in matches <==> r in e.matches && r.roomId == room {
      MatchesOfAre(e.matches, room, r);
    }
    forall f ensures f in failures <==> f in e.failures && f.roomId == room {
      FailuresOfAre(e.failures, room, f);
    }
  }

  /** Each row counts the rooms reported under its key, and those of them that verified; every reported key has a row. */
  lemma RowsAre(e: Evidence, key: Key)
    ensures var rows := Summarize(e).compatibility;
            && (key in rows <==> exists room :: room in e.Rooms() && ReportedUnder(e, room, key))
            && (key in rows ==>
                  && rows[key].attempts == |set room | room in e.Rooms() && ReportedUnder(e, room, key)|
                  && rows[key].verified
                     == |set room | room in e.Rooms() && ReportedUnder(e, room, key) && e.Result(room).Success?|)
  {
    hide Evidence.Rooms, Evidence.Keys, Evidence.Result, ReportedUnder;
    var rooms := e.Rooms();
    forall room ensures key in e.Keys(room) <==> ReportedUnder(e, room, key) {
      KeysAre(e, room, key);
    }
    assert With(e, rooms, key) == set room | room in rooms && ReportedUnder(e, room, key);
    assert With(e, Verified(e, rooms), key)
        == set room | room in rooms && ReportedUnder(e, room, key) && e.Result(room).Success?;
  }

  /** An unreported mapping state counts as an unknown one. */
  function KnownNat(state: Option<NatMappingState>): NatMappingState {
    if state.Some? then state.value else UnknownNat
  }

  /** Reports share a row exactly when they agree on game, platform, transport, mapping state and candidate. */
  lemma RowsTellReportsApart(a: MatchReport, b: MatchReport, f: FailureReport, g: FailureReport)
    ensures KeyOfMatch(a) == KeyOfMatch(b) <==>
              && a.gameId == b.gameId && a.platform == b.platform && a.transport == b.transport
              && KnownNat(a.natState) == KnownNat(b.natState) && a.candidate == b.candidate
    ensures KeyOfFailure(f) == KeyOfFailure(g) <==>
              f.gameId == g.gameId && f.platform == g.platform && f.transport == g.transport
    ensures KeyOfFailure(f) == KeyOfMatch(a) <==>
              && f.gameId == a.gameId && f.platform == a.platform && f.transport == Some(a.transport)
              && KnownNat(a.natState) == UnknownNat && a.candidate == None
  {
  }

  // ---- which code a failed room shows ------------------------------------------------------------------

  lemma {:induction false} EitherIsNoLater(a: string, b: string)
    ensures NoLater(a, b) || NoLater(b, a)
    ensures NoLater(a, a)
  {
    if a != "" {
      EitherIsNoLater(a[1..], if b == "" then "" else b[1..]);
    }
  }

  lemma {:induction false} NoLaterChains(a: string, b: string, c: string)
    requires NoLater(a, b) && NoLater(b, c)
    ensures NoLater(a, c)
  {
    if a != "" && a[0] == b[0] && b[0] == c[0] {
      NoLaterChains(a[1..], b[1..], c[1..]);
    }
  }

  lemma {:induction false} LeastCodeIs(failures: seq<FailureReport>)
    requires failures != []
    ensures exists f :: f in failures && f.errorCode == LeastCode(failures)
    ensures forall f :: f in failures ==> NoLater(LeastCode(failures), f.errorCode)
  {
    EitherIsNoLater(failures[0].errorCode, failures[0].errorCode);
    if |failures| == 1 {
      assert failures[0] in failures;
    } else {
      hide NoLater;
      var rest := failures[1..];
      LeastCodeIs(rest);
      var least, first, code := LeastCode(rest), failures[0].errorCode, LeastCode(failures);
      EitherIsNoLater(first, least);
      EitherIsNoLater(least, least);
      forall f | f in failures ensures NoLater(code, f.errorCode) {
        if f in rest && code == first {
          NoLaterChains(first, least, f.errorCode);
        }
      }
      var f :| f in rest && f.errorCode == least;
      assert f in failures && failures[0] in failures;
    }
  }

  /** What a failure report must be. */
  predicate Usable(r: FailureReport) {
    && r.schemaVersion == 1 && !IsBlank(r.roomId) && !IsBlank(r.gameId)
    && 3 <= Utf8Len(r.errorCode) <= 64
    && forall c :: c in r.errorCode ==> 'a' <= c <= 'z' || '0' <= c <= '9' || c == '_'
  }

  function FaultOfFailure(r: FailureReport): string {
    if r.schemaVersion != 1 then "schema_unsupported"
    else if IsBlank(r.roomId) || IsBlank(r.gameId) then "correlation_missing"
    else "failure_code_invalid"
  }

  lemma ValidExactlyWhen(r: FailureReport)
    ensures ValidateFailure(r).Success? <==> Usable(r)
    ensures !Usable(r) ==> ValidateFailure(r) == Failure(FaultOfFailure(r))
  {
    hide IsBlank, Utf8Len;
  }

  lemma {:induction false} FirstInvalidIs(failures: seq<FailureReport>)
    ensures FirstInvalid(failures).None? <==> forall f :: f in failures ==> Usable(f)
    ensures forall i :: 0 <= i < |failures| && !Usable(failures[i]) && (forall j :: 0 <= j < i ==> Usable(failures[j])) ==>
              FirstInvalid(failures) == Some(FaultOfFailure(failures[i]))
  {
    if failures != [] {
      ValidExactlyWhen(failures[0]);
      hide Usable, ValidateFailure, FaultOfFailure;
      FirstInvalidIs(failures[1..]);
      assert forall i :: 0 < i < |failures| ==> failures[i] == failures[1..][i - 1];
      assert failures[0] in failures;
    }
  }

  lemma GamesOfOne(failures: seq<FailureReport>)
    requires failures != []
    ensures |set f | f in failures :: f.gameId| == 1 <==>
              forall f, g :: f in failures && g in failures ==> f.gameId == g.gameId
  {
    var games := set f | f in failures :: f.gameId;
    assert failures[0] in failures && failures[0].gameId in games;
    if |games| == 1 {
      assert |games - {failures[0].gameId}| == 0;
      assert games == {failures[0].gameId};
      forall f | f in failures ensures f.gameId == failures[0].gameId {
        assert f.gameId in games;
      }
    }
    if forall f, g :: f in failures && g in failures ==> f.gameId == g.gameId {
      assert games == {failures[0].gameId};
    }
  }

  /**
   A room with failure reports: mixed evidence is a conflict, the first unusable report shows, reports of
   different games conflict, and otherwise the first of their codes in the alphabet stands for all.
   */
  lemma FailedRoomsShow(matches: seq<MatchReport>, failures: seq<FailureReport>)
    requires failures != []
    ensures RoomResult(matches, failures).Failure?
    ensures var code := RoomResult(matches, failures).error;
            var usable := forall f :: f in failures ==> Usable(f);
            var oneGame := forall f, g :: f in failures && g in failures ==> f.gameId == g.gameId;
            && (matches != [] || (usable && !oneGame) ==> code == "evidence_conflict")
            && (matches == [] ==> forall i ::
                  0 <= i < |failures| && !Usable(failures[i]) && (forall j :: 0 <= j < i ==> Usable(failures[j])) ==>
                    code == FaultOfFailure(failures[i]))
            && (matches == [] && usable && oneGame ==>
                  && (exists f :: f in failures && f.errorCode == code)
                  && (forall f :: f in failures ==> NoLater(code, f.errorCode)))
  {
    FirstInvalidIs(failures);
    GamesOfOne(failures);
    LeastCodeIs(failures);
    hide FirstInvalid, LeastCode, NoLater, Usable, FaultOfFailure;
    assert failures[0] in failures;
    if i :| 0 <= i < |failures| && !Usable(failures[i]) {
      assert failures[i] in failures;
    }
  }

  predicate IsHex(text: string, length: nat) {
    |text| == length && forall c :: c in text ==> '0' <= c <= '9' || 'a' <= c <= 'f'
  }

  predicate Complete(c: Compatibility) {
    && !IsBlank(c.adapter) && (c.emulatorVersion == None || !IsBlank(c.emulatorVersion.value))
    && IsHex(c.executableSha256, 64) && IsHex(c.coreSha256, 64) && IsHex(c.contentSha256, 64)
  }

  /** What is wrong with a report on its own. */
  function FaultOfReport(r: MatchReport): Option<string> {
    if r.schemaVersion != 1 then Some("schema_unsupported")
    else if r.roomState != RoomStates.Finished then Some("room_not_finished")
    else if IsBlank(r.roomId) || IsBlank(r.gameId) then Some("correlation_missing")
    else if r.framesReceived != 60 then Some("transcript_incomplete")
    else if r.framesSent < 60 then Some("frame_counts_invalid")
    else if !IsHex(r.transcriptChecksum, 16) then Some("checksum_invalid")
    else if r.compatibility.Some? && !Complete(r.compatibility.value) then Some("compatibility_invalid")
    else None
  }

  lemma HexIs(text: string, length: nat)
    ensures LowerHexOfLength(text, length) <==> IsHex(text, length)
  {
  }

  lemma CompleteIsValid(c: Compatibility)
    ensures ValidCompatibility(c) <==> Complete(c)
  {
    HexIs(c.executableSha256, 64);
    HexIs(c.coreSha256, 64);
    HexIs(c.contentSha256, 64);
    hide IsBlank, LowerHexOfLength, IsHex;
  }

  /** A faultless report is a well-formed one, and a fault is shown by its code. */
  lemma FaultsAre(which: Position, r: MatchReport)
    ensures Wellformed(r) <==> FaultOfReport(r).None?
    ensures ValidateReport(which, r).Success? <==> FaultOfReport(r).None?
    ensures ValidateReport(which, r).Failure? ==> Some(ErrorCode(ValidateReport(which, r).error)) == FaultOfReport(r)
  {
    HexIs(r.transcriptChecksum, 16);
    if r.compatibility.Some? {
      CompleteIsValid(r.compatibility.value);
    }
    hide IsBlank, LowerHexOfLength, IsHex, ValidCompatibility, Complete;
  }

  /** A room with two reports and no failure: its first fault shows, report by report and then between them. */
  lemma PairsShow(a: MatchReport, b: MatchReport)
    requires a.roomId == b.roomId
    ensures var result := RoomResult([a, b], []);
            result == if FaultOfReport(a).Some? then Failure(FaultOfReport(a).value)
                      else if FaultOfReport(b).Some? then Failure(FaultOfReport(b).value)
                      else if a.gameId != b.gameId then Failure("game_mismatch")
                      else if a.role == b.role then Failure("role_mismatch")
                      else if a.transcriptChecksum != b.transcriptChecksum then Failure("checksum_mismatch")
                      else if a.transport != b.transport then Failure("transport_mismatch")
                      else if a.compatibility != b.compatibility then Failure("compatibility_mismatch")
                      else Success(())
  {
    FaultsAre(First, a);
    FaultsAre(Second, b);
    hide ValidateReport, FaultOfReport, Wellformed;
  }

  lemma OtherCountsShow(matches: seq<MatchReport>)
    ensures |matches| != 2 ==> RoomResult(matches, []) == Failure("report_pair_invalid")
  {
  }

  // ---- what verified means --------------------------------------------------------------------------

  /** A room counts as verified exactly when it has two reports, they verify each other, and nobody reported failure. */
  lemma VerifiedRoomsAre(e: Evidence, room: string)
    ensures room in Verified(e, e.Rooms()) <==>
              var pair := MatchesOf(e.matches, room);
              && FailuresOf(e.failures, room) == [] && |pair| == 2
              && Wellformed(pair[0]) && Wellformed(pair[1]) && Agree(pair[0], pair[1]) && pair[0].role != pair[1].role
  {
    NoMatches(e.matches, room);
    var pair := MatchesOf(e.matches, room);
    if |pair| == 2 {
      VerificationIsSymmetric(pair[0], pair[1]);
    }
  }

  lemma OneMoreFailure(e: Evidence, f: FailureReport, room: string)
    ensures e.(failures := e.failures + [f]).Result(room).Success? <==> e.Result(room).Success? && room != f.roomId
    ensures room !in e.Rooms() ==> e.Result(room).Failure?
  {
    hide Reports.VerifyMatchReports, FailureCode;
    var after, n := e.(failures := e.failures + [f]), |e.failures|;
    assert after.failures[..n] == e.failures && after.failures[..n + 1] == after.failures;
    FailuresOfNext(after.failures, n, room);
    NoMatches(e.matches, room);
    NoFailures(e.failures, room);
    hide MatchesOf, FailuresOf;
  }

  lemma OneMoreFailureInAll(e: Evidence, f: FailureReport)
    ensures var after := e.(failures := e.failures + [f]);
            && after.Rooms() == e.Rooms() + {f.roomId}
            && Verified(after, after.Rooms()) == Verified(e, e.Rooms()) - {f.roomId}
  {
    var after := e.(failures := e.failures + [f]);
    assert after.Rooms() == e.Rooms() + {f.roomId};
    hide Evidence.Rooms, Evidence.Result;
    forall room
      ensures after.Result(room).Success? <==> e.Result(room).Success? && room != f.roomId
      ensures room !in e.Rooms() ==> e.Result(room).Failure?
    {
      OneMoreFailure(e, f, room);
    }
  }

  /** The summary's numbers: reports, distinct rooms, verified and failed ones, their ratio and the gate. */
  lemma SummaryIs(e: Evidence)
    ensures var s := Summarize(e);
            var rooms := (set r | r in e.matches :: r.roomId) + (set f | f in e.failures :: f.roomId);
            var verified := set room | room in rooms && e.Result(room).Success?;
            && s.reports == |e.matches| + |e.failures| && s.attempts == |rooms|
            && s.verified == |verified| && s.failed == s.attempts - s.verified
            && s.successRate == (if s.attempts == 0 then 0.0 else s.verified as real / s.attempts as real)
            && (s.gatePassed <==> s.attempts >= 10 && 5 * s.verified >= 4 * s.attempts)
            && s.failures.Keys == rooms - verified
            && forall room :: room in s.failures ==> e.Result(room) == Failure(s.failures[room])
  {
    hide Evidence.Result, Rows, Gate, SuccessRate;
    var rooms := e.Rooms();
    var verified := set room | room in rooms && e.Result(room).Success?;
    SettledRooms(e, rooms);
    hide Verified, FailureCodes;
    GateIsFourInFive(|rooms|, |verified|);
    RateIs(|rooms|, |verified|);
  }

  lemma SettledRooms(e: Evidence, rooms: set<string>)
    ensures var verified := set room | room in rooms && e.Result(room).Success?;
            && Verified(e, rooms) == verified && FailureCodes(e, rooms).Keys == rooms - verified
            && |verified| + |FailureCodes(e, rooms)| == |rooms|
            && forall room :: room in FailureCodes(e, rooms) ==> e.Result(room) == Failure(FailureCodes(e, rooms)[room])
  {
    hide Evidence.Result;
    VerifiedPlusFailed(e, rooms);
  }

  lemma RateIs(attempts: nat, verified: nat)
    ensures SuccessRate(attempts, verified) == (if attempts == 0 then 0.0 else verified as real / attempts as real)
  {
  }

  /** A failure report takes exactly its own room off the verified ones; in a room already counted it never opens the gate. */
  lemma FailureReportsNeverHelp(e: Evidence, f: FailureReport)
    ensures var after := e.(failures := e.failures + [f]);
            && Verified(after, after.Rooms()) == Verified(e, e.Rooms()) - {f.roomId}
            && Summarize(after).verified <= Summarize(e).verified
            && (f.roomId in e.Rooms() && Summarize(after).gatePassed ==> Summarize(e).gatePassed)
  {
    hide Evidence.Rooms, Gate, SuccessRate, Rows, FailureCodes, Verified;
    var after := e.(failures := e.failures + [f]);
    OneMoreFailureInAll(e, f);
    FewerVerified(Verified(e, e.Rooms()), f.roomId);
    if f.roomId in e.Rooms() {
      assert after.Rooms() == e.Rooms();
      GateIsFourInFive(|e.Rooms()|, Summarize(e).verified);
      GateIsFourInFive(|e.Rooms()|, Summarize(after).verified);
    }
  }

  lemma FewerVerified(rooms: set<string>, room: string)
    ensures |rooms - {room}| <= |rooms|
  {
    assert rooms - {room} <= rooms;
    assert rooms == (rooms - {room}) + (rooms * {room});
  }
}
