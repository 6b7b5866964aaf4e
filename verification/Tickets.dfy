/**
 Relay tickets: the signed claims, their issue and their verification.
 */
module Tickets {
  import opened Text
  import opened Words
  import opened Utf8
  import Fnv

  const MAX_LIFETIME_SECONDS: int := 300

  type I64 = n: int | -0x8000_0000_0000_0000 <= n < 0x8000_0000_0000_0000

  /** The keyed hash, of which only its being a function of key and message is used. */
  type Mac = (seq<Byte>, seq<Byte>) -> seq<Byte>

  datatype Capability = ProbeCapability | NativeTcpTunnel {
    function Name(): string {
      if this == ProbeCapability then "probe" else "native_" + "tcp_" + "tunnel"
    }
  }

  datatype Uuid = Uuid(high: U64, low: U64) {
    function Name(): string {
      var h, l := Fnv.Hex(high), Fnv.Hex(low);
      Fnv.HexIsCanonical(high);
      Fnv.HexIsCanonical(low);
      h[..8] + "-" + h[8..12] + "-" + h[12..] + "-" + l[..4] + "-" + l[4..]
    }
  }

  datatype Claims = Claims(room: string, user: string, expiresAt: I64, capability: Capability, nonce: Uuid)

  datatype Ticket = Ticket(claims: Claims, signature: string)

  datatype TicketError = EmptyIdentifier | WeakSecret | Expired | ExcessiveLifetime | InvalidSignature

  // ---- the signed bytes -----------------------------------------------------------------------

  /** Two length-prefixed identifiers, then the fields that hold no colon. */
  function CanonicalClaims(c: Claims): seq<Byte> {
    Decimal(|Encode(c.room)|) + [COLON] + (Encode(c.room) + [COLON] +
    (Decimal(|Encode(c.user)|) + [COLON] + (Encode(c.user) + [COLON] +
    (DecimalInt(c.expiresAt) + [COLON] + (Encode(c.capability.Name()) + [COLON] + Encode(c.nonce.Name()))))))
  }

  /** The bytes before and after the first colon. */
  function Split(bytes: seq<Byte>): Option<(seq<Byte>, seq<Byte>)> {
    if bytes == [] then None
    else if bytes[0] == COLON then Some(([], bytes[1..]))
    else
      var rest := Split(bytes[1..]);
      if rest.None? then None else Some(([bytes[0]] + rest.value.0, rest.value.1))
  }

  /** A number, a colon, and that many bytes followed by a colon. */
  function TakePrefixed(bytes: seq<Byte>): Option<(seq<Byte>, seq<Byte>)> {
    var length := Split(bytes);
    if length.None? then None
    else
      var n, rest := Value(length.value.0), length.value.1;
      if 0 <= n < |rest| && rest[n] == COLON then Some((rest[..n], rest[n + 1..])) else None
  }

  /** What a reader of the bytes recovers: identifiers and nonce as their UTF-8. */
  datatype RawClaims = RawClaims(room: seq<Byte>, user: seq<Byte>, expiresAt: int, capability: seq<Byte>, nonce: seq<Byte>)

  function Parse(bytes: seq<Byte>): Option<RawClaims> {
    var room := TakePrefixed(bytes);
    if room.None? then None
    else
      var user := TakePrefixed(room.value.1);
      if user.None? then None
      else
        var expiry := Split(user.value.1);
        if expiry.None? then None
        else
          var capability := Split(expiry.value.1);
          if capability.None? then None
          else Some(RawClaims(room.value.0, user.value.0, ValueInt(expiry.value.0), capability.value.0, capability.value.1))
  }

  lemma {:induction false} SplitAtColon(head: seq<Byte>, tail: seq<Byte>)
    requires COLON !in head
    ensures Split(head + [COLON] + tail) == Some((head, tail))
  {
    var bytes := head + [COLON] + tail;
    if head == [] {
      assert bytes[1..] == tail;
    } else {
      assert bytes[1..] == head[1..] + [COLON] + tail;
      SplitAtColon(head[1..], tail);
      assert [head[0]] + head[1..] == head;
    }
  }

  lemma TakePrefixedRoundTrip(field: seq<Byte>, tail: seq<Byte>)
    ensures TakePrefixed(Decimal(|field|) + [COLON] + (field + [COLON] + tail)) == Some((field, tail))
  {
    SplitAtColon(Decimal(|field|), field + [COLON] + tail);
    DecimalRoundTrip(|field|);
    var rest := field + [COLON] + tail;
    assert rest[|field|] == COLON && rest[..|field|] == field && rest[|field| + 1..] == tail;
  }

  lemma CapabilityNamesHoldNoColon(c: Capability)
    ensures COLON !in Encode(c.Name())
  {
    if c == ProbeCapability {
      NoColonNoColonByte("probe");
    } else {
      NoColonNoColonByte("native_");
      NoColonNoColonByte("tcp_");
      NoColonNoColonByte("tunnel");
      hide Encode;
      EncodeAppend("native_" + "tcp_", "tunnel");
      EncodeAppend("native_", "tcp_");
    }
  }

  lemma {:induction false} NoColonNoColonByte(text: string)
    requires forall i :: 0 <= i < |text| ==> text[i] != ':'
    ensures COLON !in Encode(text)
  {
    if text != "" {
      NoColonNoColonByte(text[1..]);
      assert text[0] as int != 58;
      assert COLON !in EncodeChar(text[0]);
    }
  }

  /** A reader recovers every field, whatever colons, digits or signs the identifiers hold. */
  lemma ClaimsAreRead(c: Claims)
    ensures Parse(CanonicalClaims(c))
            == Some(RawClaims(Encode(c.room), Encode(c.user), c.expiresAt, Encode(c.capability.Name()),
                              Encode(c.nonce.Name())))
  {
    hide Decimal, DecimalInt, Encode, TakePrefixed, Split, Value, ValueInt;
    var ending := Encode(c.capability.Name()) + [COLON] + Encode(c.nonce.Name());
    var fields := DecimalInt(c.expiresAt) + [COLON] + ending;
    TakePrefixedRoundTrip(Encode(c.room), Decimal(|Encode(c.user)|) + [COLON] + (Encode(c.user) + [COLON] + fields));
    TakePrefixedRoundTrip(Encode(c.user), fields);
    DecimalIntRoundTrip(c.expiresAt);
    SplitAtColon(DecimalInt(c.expiresAt), ending);
    CapabilityNamesHoldNoColon(c.capability);
    SplitAtColon(Encode(c.capability.Name()), Encode(c.nonce.Name()));
  }

  /** The five groups of a printed identifier are its two halves, cut at fixed places. */
  lemma NameGroups(u: Uuid)
    ensures var name, h, l := u.Name(), Fnv.Hex(u.high), Fnv.Hex(u.low);
            && |h| == 16 && |l| == 16 && |name| == 36
            && name[..8] == h[..8] && name[9..13] == h[8..12] && name[14..18] == h[12..]
            && name[19..23] == l[..4] && name[24..] == l[4..]
  {
    Fnv.HexIsCanonical(u.high);
    Fnv.HexIsCanonical(u.low);
    hide Fnv.Hex;
    var name, h, l := u.Name(), Fnv.Hex(u.high), Fnv.Hex(u.low);
    assert |h| == 16 && |l| == 16;
    assert name[..8] == h[..8];
    assert name[9..13] == h[8..12];
    assert name[14..18] == h[12..];
    assert name[19..23] == l[..4];
    assert name[24..] == l[4..];
  }

  lemma GroupsRejoin(digits: string)
    requires |digits| == 16
    ensures digits == digits[..8] + digits[8..12] + digits[12..]
    ensures digits == digits[..4] + digits[4..]
  {
  }

  lemma UuidNamesAreInjective(a: Uuid, b: Uuid)
    requires a.Name() == b.Name()
    ensures a == b
  {
    NameGroups(a);
    NameGroups(b);
    hide Uuid.Name, Fnv.Hex;
    GroupsRejoin(Fnv.Hex(a.high));
    GroupsRejoin(Fnv.Hex(b.high));
    GroupsRejoin(Fnv.Hex(a.low));
    GroupsRejoin(Fnv.Hex(b.low));
    Fnv.HexIsInjective(a.high, b.high);
    Fnv.HexIsInjective(a.low, b.low);
  }

  /** Different claims never sign the same bytes. */
  lemma ClaimsAreInjective(a: Claims, b: Claims)
    ensures CanonicalClaims(a) == CanonicalClaims(b) <==> a == b
  {
    if CanonicalClaims(a) == CanonicalClaims(b) {
      hide CanonicalClaims, Parse, Encode;
      ClaimsAreRead(a);
      ClaimsAreRead(b);
      EncodeIsInjective(a.room, b.room);
      EncodeIsInjective(a.user, b.user);
      EncodeIsInjective(a.capability.Name(), b.capability.Name());
      EncodeIsInjective(a.nonce.Name(), b.nonce.Name());
      UuidNamesAreInjective(a.nonce, b.nonce);
      assert |ProbeCapability.Name()| == 5 && |NativeTcpTunnel.Name()| == 17;
    }
  }

  // ---- issue and verify -------------------------------------------------------------------------

  function ValidateInputs(secret: seq<Byte>, room: string, user: string): Result<(), TicketError> {
    if |secret| < 32 then Failure(WeakSecret)
    else if IsBlank(room) || IsBlank(user) then Failure(EmptyIdentifier)
    else Success(())
  }

  /** Issue with a drawn nonce. */
  function IssueScoped(mac: Mac, secret: seq<Byte>, claims: Claims): Result<Ticket, TicketError> {
    var valid := ValidateInputs(secret, claims.room, claims.user);
    if valid.Failure? then Failure(valid.error)
    else Success(Ticket(claims, HexEncode(mac(secret, CanonicalClaims(claims)))))
  }

  /** Subtraction of 64-bit integers, which wraps around. */
  function Minus(a: I64, b: I64): I64 {
    if a - b >= 0x8000_0000_0000_0000 then a - b - TWO_64
    else if a - b < -0x8000_0000_0000_0000 then a - b + TWO_64
    else a - b
  }

  function Verify(mac: Mac, secret: seq<Byte>, ticket: Ticket, now: I64): Result<(), TicketError> {
    var claims := ticket.claims;
    var valid := ValidateInputs(secret, claims.room, claims.user);
    if valid.Failure? then Failure(valid.error)
    else if claims.expiresAt < now then Failure(Expired)
    else if Minus(claims.expiresAt, now) > MAX_LIFETIME_SECONDS then Failure(ExcessiveLifetime)
    else
      var provided := HexDecode(ticket.signature);
      if provided.None? then Failure(InvalidSignature)
      else if provided.value != mac(secret, CanonicalClaims(claims)) then Failure(InvalidSignature)
      else Success(())
  }

  /** Issue needs a secret of 32 bytes and two identifiers, keeps the claims and signs them, in hexadecimal. */
  lemma IssuesExactlyWhen(mac: Mac, secret: seq<Byte>, claims: Claims)
    ensures var issued := IssueScoped(mac, secret, claims);
            && (issued == Failure(WeakSecret) <==> |secret| < 32)
            && (issued == Failure(EmptyIdentifier) <==> |secret| >= 32 && (IsBlank(claims.room) || IsBlank(claims.user)))
            && (issued.Success? <==> |secret| >= 32 && !IsBlank(claims.room) && !IsBlank(claims.user))
            && (issued.Success? ==>
                  && issued.value.claims == claims
                  && HexDecode(issued.value.signature) == Some(mac(secret, CanonicalClaims(claims))))
  {
    hide CanonicalClaims, HexDecode, IsBlank;
    HexRoundTrip(mac(secret, CanonicalClaims(claims)));
  }

  /** For any ticket, secret and clock: it verifies, or is refused for the first of five faults. */
  lemma VerifiesExactlyWhen(mac: Mac, secret: seq<Byte>, ticket: Ticket, now: I64)
    ensures var claims := ticket.claims;
            var signed := HexDecode(ticket.signature) == Some(mac(secret, CanonicalClaims(claims)));
            Verify(mac, secret, ticket, now)
            == if |secret| < 32 then Failure(WeakSecret)
               else if IsBlank(claims.room) || IsBlank(claims.user) then Failure(EmptyIdentifier)
               else if claims.expiresAt < now then Failure(Expired)
               else if Minus(claims.expiresAt, now) > 300 then Failure(ExcessiveLifetime)
               else if !signed then Failure(InvalidSignature)
               else Success(())
  {
    hide CanonicalClaims, HexDecode, IsBlank, Minus;
  }

  /** A clock that counts from the epoch: an issued ticket verifies from 300 seconds before it expires until then. */
  lemma IssuedTicketsVerifyExactlyWhen(mac: Mac, secret: seq<Byte>, claims: Claims, now: I64)
    requires now >= 0 && ValidateInputs(secret, claims.room, claims.user).Success?
    ensures var issued := IssueScoped(mac, secret, claims);
            && issued.Success?
            && Verify(mac, secret, issued.value, now)
               == if claims.expiresAt < now then Failure(Expired)
                  else if claims.expiresAt > now + 300 then Failure(ExcessiveLifetime)
                  else Success(())
  {
    HexRoundTrip(mac(secret, CanonicalClaims(claims)));
  }

  /** For any clock value, the lifetime test is exact just when the subtraction does not wrap. */
  lemma LifetimeIsExactExactlyWhen(expiresAt: I64, now: I64)
    requires now <= expiresAt
    ensures (Minus(expiresAt, now) <= MAX_LIFETIME_SECONDS <==> expiresAt <= now + MAX_LIFETIME_SECONDS)
            <==> expiresAt - now < 0x8000_0000_0000_0000
  {
  }

  /**
   With a collision-free keyed hash: a ticket that carries an issued signature, in any spelling, verifies
   exactly when its claims are the issued ones and the clock is in their window.
   */
  lemma TamperingIsRejected(mac: Mac, secret: seq<Byte>, claims: Claims, presented: Ticket, now: I64)
    requires forall x, y :: mac(secret, x) == mac(secret, y) ==> x == y
    requires IssueScoped(mac, secret, claims).Success?
    requires HexDecode(presented.signature) == HexDecode(IssueScoped(mac, secret, claims).value.signature)
    ensures Verify(mac, secret, presented, now).Success?
            <==> && presented.claims == claims
                 && now <= claims.expiresAt && Minus(claims.expiresAt, now) <= MAX_LIFETIME_SECONDS
  {
    hide CanonicalClaims, HexDecode;
    HexRoundTrip(mac(secret, CanonicalClaims(claims)));
    ClaimsAreInjective(claims, presented.claims);
  }
}
