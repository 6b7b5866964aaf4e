/**
 STUN binding messages (RFC 8489): the request, and the parser that walks a response's
 attributes to the mapped address. Sections 5 and 14 of the RFC give the header and the
 attribute layout, 14.1 and 14.2 the two address attributes.
 */
module Stun {
  import opened Text
  import opened Words

  const BINDING_REQUEST: U16 := 0x0001
  const BINDING_SUCCESS: U16 := 0x0101
  const MAPPED_ADDRESS: U16 := 0x0001
  const XOR_MAPPED_ADDRESS: U16 := 0x0020
  const HEADER_BYTES: nat := 20
  const COOKIE: seq<Byte> := [0x21, 0x12, 0xA4, 0x42]
  const COOKIE_HIGH: U16 := 0x2112

  type TransactionId = id: seq<Byte> | |id| == 12 witness [0, 0, 0, 0, 0, 0, 0, 0, 0, 0, 0, 0]

  datatype IpAddr = V4(octets: seq<Byte>) | V6(octets: seq<Byte>) {
    predicate Valid() {
      |octets| == if V4? then 4 else 16
    }
  }

  datatype SocketAddr = SocketAddr(ip: IpAddr, port: U16)

  datatype InvalidResponse =
    | ShorterThanHeader
    | NotASuccessResponse
    | WrongCookie
    | WrongTransaction
    | LengthNotAligned
    | LengthInvalid
    | AttributeLengthInvalid
    | NoMappedAddress
    | MalformedAddress
    | UnsupportedFamily

  type Parsed = Result<SocketAddr, InvalidResponse>

  function BigEndian(word: U16): (bytes: seq<Byte>)
    ensures |bytes| == 2
  {
    [word / 256, word % 256]
  }

  function FromBigEndian(high: Byte, low: Byte): U16 {
    256 * high + low
  }

  lemma BigEndianRoundTrip(high: Byte, low: Byte)
    ensures BigEndian(FromBigEndian(high, low)) == [high, low]
  {
  }

  function XorBytes(bytes: seq<Byte>, mask: seq<Byte>): (masked: seq<Byte>)
    requires |bytes| <= |mask|
    ensures |masked| == |bytes|
  {
    seq(|bytes|, i requires 0 <= i < |bytes| => XorByte(bytes[i], mask[i]))
  }

  lemma XorBytesTwice(bytes: seq<Byte>, mask: seq<Byte>)
    requires |bytes| <= |mask|
    ensures XorBytes(XorBytes(bytes, mask), mask) == bytes
  {
    forall i | 0 <= i < |bytes| ensures XorByte(XorByte(bytes[i], mask[i]), mask[i]) == bytes[i] {
      XorTwice(bytes[i], mask[i]);
    }
  }

  // ---- addresses ----------------------------------------------------------------------------------

  /** The octets and port as the two attributes write them, masked when a transaction id is given. */
  function MaskedPort(port: U16, tid: Option<TransactionId>): U16 {
    if tid.Some? then XorWord(port, COOKIE_HIGH) else port
  }

  function MaskedOctets(octets: seq<Byte>, tid: Option<TransactionId>): seq<Byte>
    requires |octets| <= 16
  {
    if tid.Some? then XorBytes(octets, COOKIE + tid.value) else octets
  }

  function ParseAddress(value: seq<Byte>, tid: Option<TransactionId>): Parsed {
    if |value| < 8 || value[0] != 0 then Failure(MalformedAddress)
    else
      var port := MaskedPort(FromBigEndian(value[2], value[3]), tid);
      if value[1] == 0x01 && |value| == 8 then Success(SocketAddr(V4(MaskedOctets(value[4..8], tid)), port))
      else if value[1] == 0x02 && |value| == 20 then Success(SocketAddr(V6(MaskedOctets(value[4..20], tid)), port))
      else Failure(UnsupportedFamily)
  }

  /** The octets are masked where they lie. */
  method XorInPlace(octets: array<Byte>, mask: seq<Byte>)
    requires octets.Length <= |mask|
    modifies octets
    ensures octets[..] == XorBytes(old(octets[..]), mask)
  {
    var i := 0;
    while i < octets.Length
      invariant 0 <= i <= octets.Length
      invariant forall k :: 0 <= k < i ==> octets[k] == XorByte(old(octets[k]), mask[k])
      invariant forall k :: i <= k < octets.Length ==> octets[k] == old(octets[k])
    {
      octets[i] := XorByte(octets[i], mask[i]);
      i := i + 1;
    }
  }

  method ReadOctets(value: seq<Byte>, tid: Option<TransactionId>) returns (octets: seq<Byte>)
    requires 4 <= |value| <= 20
    ensures octets == MaskedOctets(value[4..], tid)
  {
    var buffer := new Byte[|value| - 4](i requires 0 <= i < |value| - 4 => value[4 + i]);
    assert buffer[..] == value[4..];
    if tid.Some? {
      XorInPlace(buffer, COOKIE + tid.value);
    }
    octets := buffer[..];
  }

  method ReadAddress(value: seq<Byte>, tid: Option<TransactionId>) returns (parsed: Parsed)
    ensures parsed == ParseAddress(value, tid)
  {
    if |value| < 8 || value[0] != 0 {
      return Failure(MalformedAddress);
    }
    var encodedPort := FromBigEndian(value[2], value[3]);
    var port := if tid.Some? then XorWord(encodedPort, COOKIE_HIGH) else encodedPort;
    if value[1] == 0x01 && |value| == 8 {
      assert value[4..] == value[4..8];
      var octets := ReadOctets(value, tid);
      return Success(SocketAddr(V4(octets), port));
    }
    if value[1] == 0x02 && |value| == 20 {
      assert value[4..] == value[4..20];
      var octets := ReadOctets(value, tid);
      return Success(SocketAddr(V6(octets), port));
    }
    return Failure(UnsupportedFamily);
  }

  function EncodeAddress(address: SocketAddr, tid: Option<TransactionId>): seq<Byte>
    requires address.ip.Valid()
  {
    [0, if address.ip.V4? then 0x01 else 0x02]
    + BigEndian(MaskedPort(address.port, tid)) + MaskedOctets(address.ip.octets, tid)
  }

  lemma AddressRoundTrip(address: SocketAddr, tid: Option<TransactionId>)
    requires address.ip.Valid()
    ensures ParseAddress(EncodeAddress(address, tid), tid) == Success(address)
  {
    var value := EncodeAddress(address, tid);
    var octets := MaskedOctets(address.ip.octets, tid);
    assert value[4..] == octets && value[..4] == value[..2] + BigEndian(MaskedPort(address.port, tid));
    assert value[4..|value|] == octets;
    assert FromBigEndian(value[2], value[3]) == MaskedPort(address.port, tid);
    if tid.Some? {
      XorTwice(address.port, COOKIE_HIGH);
      XorBytesTwice(address.ip.octets, COOKIE + tid.value);
    }
  }

  lemma FieldsOfAValue(value: seq<Byte>, address: SocketAddr, tid: Option<TransactionId>)
    requires |value| >= 8 && address.ip.Valid()
    ensures EncodeAddress(address, tid) == value <==>
              && value[0] == 0 && value[1] == (if address.ip.V4? then 0x01 else 0x02)
              && FromBigEndian(value[2], value[3]) == MaskedPort(address.port, tid)
              && value[4..] == MaskedOctets(address.ip.octets, tid)
  {
    hide MaskedOctets, MaskedPort;
    var bytes, port := EncodeAddress(address, tid), MaskedPort(address.port, tid);
    assert bytes[..4] == [0, if address.ip.V4? then 0x01 else 0x02] + BigEndian(port);
    assert bytes[4..] == MaskedOctets(address.ip.octets, tid);
    assert value == value[..4] + value[4..] && bytes == bytes[..4] + bytes[4..];
    BigEndianRoundTrip(value[2], value[3]);
    assert value[..4] == [value[0], value[1], value[2], value[3]];
    assert bytes[..4] == [bytes[0], bytes[1], bytes[2], bytes[3]];
  }

  /** Values and addresses determine each other: a value is read as an address exactly when it is that address's encoding. */
  lemma AddressesAreReadExactlyWhen(value: seq<Byte>, address: SocketAddr, tid: Option<TransactionId>)
    ensures ParseAddress(value, tid) == Success(address) <==> address.ip.Valid() && EncodeAddress(address, tid) == value
  {
    if address.ip.Valid() && EncodeAddress(address, tid) == value {
      AddressRoundTrip(address, tid);
    } else if ParseAddress(value, tid) == Success(address) {
      assert value[4..] == value[4..|value|];
      if tid.Some? {
        XorTwice(FromBigEndian(value[2], value[3]), COOKIE_HIGH);
        XorBytesTwice(value[4..], COOKIE + tid.value);
      }
      hide XorBytes;
      FieldsOfAValue(value, address, tid);
      assert false;
    }
  }

  /** What a value that is no address is refused with. */
  lemma AddressRefusalsAre(value: seq<Byte>, tid: Option<TransactionId>)
    ensures ParseAddress(value, tid) == Failure(MalformedAddress) <==> |value| < 8 || value[0] != 0
    ensures ParseAddress(value, tid) == Failure(UnsupportedFamily) <==>
              |value| >= 8 && value[0] == 0 && !(value[1] == 0x01 && |value| == 8) && !(value[1] == 0x02 && |value| == 20)
  {
  }

  /** The masks of section 14.2: the cookie's high half for the port, the cookie and the transaction id for the octets. */
  lemma MasksAre(address: SocketAddr, tid: TransactionId, i: nat)
    requires address.ip.Valid() && i < |address.ip.octets|
    ensures var value, plain := EncodeAddress(address, Some(tid)), EncodeAddress(address, None);
            && |value| == |plain| == 4 + |address.ip.octets|
            && FromBigEndian(plain[2], plain[3]) == address.port
            && FromBigEndian(value[2], value[3]) == XorWord(address.port, 0x2112)
            && plain[4 + i] == address.ip.octets[i]
            && value[4 + i] == XorByte(address.ip.octets[i],
                                       if i < 4 then [0x21, 0x12, 0xA4, 0x42][i] else tid[i - 4])
  {
    hide XorByte, XorWord;
  }

  // ---- attributes ---------------------------------------------------------------------------------

  /** Attributes are padded to four bytes. */
  function Padding(length: nat): nat {
    (4 - length % 4) % 4
  }

  predicate Aligned(n: int) {
    n % 4 == 0
  }

  lemma PaddingAligns(length: nat)
    ensures Aligned(4 + length + Padding(length))
  {
    var q := if length % 4 == 0 then length / 4 + 1 else length / 4 + 2;
    assert 4 + length + Padding(length) == 4 * q;
  }

  lemma PaddingFits(total: nat, length: nat)
    requires Aligned(total) && 4 + length <= total
    ensures 4 + length + Padding(length) <= total
    ensures Aligned(4 + length + Padding(length)) && Aligned(total - (4 + length + Padding(length)))
  {
    var whole := 4 + length + Padding(length);
    var q := if length % 4 == 0 then length / 4 + 1 else length / 4 + 2;
    assert whole == 4 * q && total == 4 * (total / 4);
    assert total - whole == 4 * (total / 4 - q);
  }

  lemma AlignedSums(a: int, b: int)
    requires Aligned(a)
    ensures Aligned(b) <==> Aligned(a + b)
  {
  }

  /** The walk over the attributes that are left, having met `mapped`. */
  function Walk(rest: seq<Byte>, mapped: Option<SocketAddr>, tid: TransactionId): Parsed
    requires Aligned(|rest|)
    decreases |rest|
  {
    if |rest| < 4 then (if mapped.Some? then Success(mapped.value) else Failure(NoMappedAddress))
    else
      var kind, length := FromBigEndian(rest[0], rest[1]), FromBigEndian(rest[2], rest[3]);
      if 4 + length > |rest| then Failure(AttributeLengthInvalid)
      else if kind == XOR_MAPPED_ADDRESS then ParseAddress(rest[4..4 + length], Some(tid))
      else
        PaddingFits(|rest|, length);
        hide Padding, Aligned;
        var next := 4 + length + Padding(length);
        if kind == MAPPED_ADDRESS then
          var address := ParseAddress(rest[4..4 + length], None);
          if address.Failure? then address else Walk(rest[next..], Some(address.value), tid)
        else Walk(rest[next..], mapped, tid)
  }

  function ParseBindingResponse(response: seq<Byte>, tid: TransactionId): Parsed {
    if |response| < HEADER_BYTES then Failure(ShorterThanHeader)
    else if FromBigEndian(response[0], response[1]) != BINDING_SUCCESS then Failure(NotASuccessResponse)
    else if response[4..8] != COOKIE then Failure(WrongCookie)
    else if response[8..20] != tid then Failure(WrongTransaction)
    else
      var length := FromBigEndian(response[2], response[3]);
      if !Aligned(length) then Failure(LengthNotAligned)
      else if HEADER_BYTES + length > |response| then Failure(LengthInvalid)
      else Walk(response[HEADER_BYTES..HEADER_BYTES + length], None, tid)
  }

  /** One turn of the walk: skip an unknown attribute, note or refuse a plain address, stop at a masked one. */
  lemma WalkStep(rest: seq<Byte>, mapped: Option<SocketAddr>, tid: TransactionId, kind: U16, length: nat)
    requires Aligned(|rest|) && |rest| >= 4
    requires kind == FromBigEndian(rest[0], rest[1]) && length == FromBigEndian(rest[2], rest[3])
    ensures 4 + length > |rest| ==> Walk(rest, mapped, tid) == Failure(AttributeLengthInvalid)
    ensures 4 + length <= |rest| ==>
      (PaddingFits(|rest|, length);
       var address, next := ParseAddress(rest[4..4 + length], None), rest[4 + length + Padding(length)..];
       Walk(rest, mapped, tid)
       == if kind == XOR_MAPPED_ADDRESS then ParseAddress(rest[4..4 + length], Some(tid))
          else if kind != MAPPED_ADDRESS then Walk(next, mapped, tid)
          else if address.Failure? then address
          else Walk(next, Some(address.value), tid))
  {
    hide Padding, FromBigEndian, ParseAddress, Aligned;
  }

  lemma WalkEnds(mapped: Option<SocketAddr>, tid: TransactionId)
    ensures Walk([], mapped, tid) == if mapped.Some? then Success(mapped.value) else Failure(NoMappedAddress)
  {
  }

  lemma SmallAndAligned(n: nat)
    requires n < 4 && Aligned(n)
    ensures n == 0
  {
  }

  lemma SliceOfSlice(bytes: seq<Byte>, a: nat, b: nat, c: nat, d: nat)
    requires a <= b <= |bytes| && c <= d <= b - a
    ensures bytes[a..b][c..d] == bytes[a + c..a + d]
  {
    var whole, part := bytes[a..b], bytes[a + c..a + d];
    forall i | 0 <= i < d - c ensures whole[c..d][i] == part[i] {
      assert whole[c..d][i] == whole[c + i] == bytes[a + (c + i)] == part[i];
    }
  }

  /** The walk from a cursor in the response. */
  ghost function WalkFrom(response: seq<Byte>, offset: nat, end: nat, mapped: Option<SocketAddr>, tid: TransactionId)
    : Parsed
    requires offset <= end <= |response| && Aligned(end - offset)
  {
    Walk(response[offset..end], mapped, tid)
  }

  lemma WalkFromStep(response: seq<Byte>, offset: nat, end: nat, mapped: Option<SocketAddr>, tid: TransactionId,
                     kind: U16, length: nat)
    requires offset + 4 <= end <= |response| && Aligned(end - offset)
    requires kind == FromBigEndian(response[offset], response[offset + 1])
    requires length == FromBigEndian(response[offset + 2], response[offset + 3])
    ensures offset + 4 + length > end ==> WalkFrom(response, offset, end, mapped, tid) == Failure(AttributeLengthInvalid)
    ensures offset + 4 + length <= end ==>
      var next := offset + 4 + length + Padding(length);
      var address := ParseAddress(response[offset + 4..offset + 4 + length], None);
      && next <= end && Aligned(end - next)
      && WalkFrom(response, offset, end, mapped, tid)
         == if kind == XOR_MAPPED_ADDRESS then ParseAddress(response[offset + 4..offset + 4 + length], Some(tid))
            else if kind != MAPPED_ADDRESS then WalkFrom(response, next, end, mapped, tid)
            else if address.Failure? then address
            else WalkFrom(response, next, end, Some(address.value), tid)
  {
    hide Walk, ParseAddress, Padding, FromBigEndian, Aligned;
    var rest := response[offset..end];
    assert |rest| == end - offset;
    assert rest[0] == response[offset] && rest[1] == response[offset + 1];
    assert rest[2] == response[offset + 2] && rest[3] == response[offset + 3];
    WalkStep(rest, mapped, tid, kind, length);
    if offset + 4 + length <= end {
      PaddingFits(|rest|, length);
      var next := 4 + length + Padding(length);
      SliceOfSlice(response, offset, end, 4, 4 + length);
      SliceOfSlice(response, offset, end, next, |rest|);
      assert rest[next..|rest|] == rest[next..];
    }
  }

  /** The attribute at the cursor ends the walk: it overruns the message, decides the address or is a bad plain one. */
  predicate StopsAt(response: seq<Byte>, offset: nat, end: nat)
    requires end <= |response|
  {
    offset + 4 <= end &&
    var kind := FromBigEndian(response[offset], response[offset + 1]);
    var length := FromBigEndian(response[offset + 2], response[offset + 3]);
    || offset + 4 + length > end
    || kind == XOR_MAPPED_ADDRESS
    || (kind == MAPPED_ADDRESS && ParseAddress(response[offset + 4..offset + 4 + length], None).Failure?)
  }

  lemma StopsWhen(response: seq<Byte>, offset: nat, end: nat, kind: U16, length: nat)
    requires offset + 4 <= end <= |response|
    requires kind == FromBigEndian(response[offset], response[offset + 1])
    requires length == FromBigEndian(response[offset + 2], response[offset + 3])
    ensures offset + 4 + length > end ==> StopsAt(response, offset, end)
    ensures offset + 4 + length <= end ==>
      (StopsAt(response, offset, end) <==>
         || kind == XOR_MAPPED_ADDRESS
         || (kind == MAPPED_ADDRESS && ParseAddress(response[offset + 4..offset + 4 + length], None).Failure?))
  {
    hide FromBigEndian, ParseAddress;
  }

  /**
   Cursor positions that start after the header, stay aligned and inside the message, strictly grow,
   and none but the last of which is at an attribute that ends the walk.
   */
  ghost predicate Cursors(response: seq<Byte>, offsets: seq<nat>, end: nat)
    requires end <= |response|
  {
    && offsets != [] && offsets[0] == HEADER_BYTES
    && (forall i :: 0 <= i < |offsets| ==> HEADER_BYTES <= offsets[i] <= end && Aligned(end - offsets[i]))
    && (forall i, j :: 0 <= i < j < |offsets| ==> offsets[i] < offsets[j])
    && (forall i :: 0 <= i < |offsets| - 1 ==> !StopsAt(response, offsets[i], end))
  }

  /** The cursor's whole way: to the declared end exactly, or to the attribute that ends the walk. */
  ghost predicate Visits(response: seq<Byte>, offsets: seq<nat>, end: nat)
    requires end <= |response|
  {
    && Cursors(response, offsets, end)
    && (offsets[|offsets| - 1] == end || StopsAt(response, offsets[|offsets| - 1], end))
  }

  lemma NextCursor(response: seq<Byte>, offsets: seq<nat>, end: nat, offset: nat, next: nat)
    requires end <= |response| && Cursors(response, offsets, end)
    requires offsets[|offsets| - 1] == offset < next <= end && Aligned(end - next) && !StopsAt(response, offset, end)
    ensures Cursors(response, offsets + [next], end)
  {
    hide Aligned, StopsAt;
  }

  /** What the loop knows on each turn: where the cursor has been, and that the rest of the walk gives the answer. */
  ghost predicate Walking(response: seq<Byte>, offsets: seq<nat>, offset: nat, end: nat, mapped: Option<SocketAddr>,
                          tid: TransactionId, answer: Parsed)
    requires offset <= end <= |response| && Aligned(end - offset)
  {
    && Cursors(response, offsets, end) && offsets[|offsets| - 1] == offset
    && WalkFrom(response, offset, end, mapped, tid) == answer
  }

  lemma WalkingStops(response: seq<Byte>, offsets: seq<nat>, offset: nat, end: nat, mapped: Option<SocketAddr>,
                     tid: TransactionId, answer: Parsed, kind: U16, length: nat)
    requires offset + 4 <= end <= |response| && Aligned(end - offset)
    requires Walking(response, offsets, offset, end, mapped, tid, answer)
    requires kind == FromBigEndian(response[offset], response[offset + 1])
    requires length == FromBigEndian(response[offset + 2], response[offset + 3])
    ensures offset + 4 + length > end ==> answer == Failure(AttributeLengthInvalid) && Visits(response, offsets, end)
    ensures offset + 4 + length <= end && kind == XOR_MAPPED_ADDRESS ==>
              answer == ParseAddress(response[offset + 4..offset + 4 + length], Some(tid)) && Visits(response, offsets, end)
    ensures offset + 4 + length <= end && kind == MAPPED_ADDRESS ==>
              var address := ParseAddress(response[offset + 4..offset + 4 + length], None);
              address.Failure? ==> answer == address && Visits(response, offsets, end)
  {
    hide WalkFrom, ParseAddress, Padding, FromBigEndian, Aligned, Cursors, StopsAt;
    WalkFromStep(response, offset, end, mapped, tid, kind, length);
    StopsWhen(response, offset, end, kind, length);
  }

  lemma WalkingGoesOn(response: seq<Byte>, offsets: seq<nat>, offset: nat, end: nat, mapped: Option<SocketAddr>,
                      tid: TransactionId, answer: Parsed, kind: U16, length: nat, found: Option<SocketAddr>, next: nat)
    requires offset + 4 <= end <= |response| && Aligned(end - offset)
    requires Walking(response, offsets, offset, end, mapped, tid, answer)
    requires kind == FromBigEndian(response[offset], response[offset + 1])
    requires length == FromBigEndian(response[offset + 2], response[offset + 3])
    requires offset + 4 + length <= end && kind != XOR_MAPPED_ADDRESS
    requires if kind != MAPPED_ADDRESS then found == mapped
             else found.Some? && ParseAddress(response[offset + 4..offset + 4 + length], None) == Success(found.value)
    requires next == offset + 4 + length + Padding(length)
    ensures next <= end && Aligned(end - next) && Walking(response, offsets + [next], next, end, found, tid, answer)
  {
    hide WalkFrom, ParseAddress, Padding, FromBigEndian, Aligned, Cursors, StopsAt;
    WalkFromStep(response, offset, end, mapped, tid, kind, length);
    StopsWhen(response, offset, end, kind, length);
    NextCursor(response, offsets, end, offset, next);
  }

  lemma WalkingEnds(response: seq<Byte>, offsets: seq<nat>, offset: nat, end: nat, mapped: Option<SocketAddr>,
                    tid: TransactionId, answer: Parsed)
    requires offset <= end < offset + 4 && end <= |response| && Aligned(end - offset)
    requires Walking(response, offsets, offset, end, mapped, tid, answer)
    ensures offset == end && Visits(response, offsets, end)
    ensures answer == if mapped.Some? then Success(mapped.value) else Failure(NoMappedAddress)
  {
    SmallAndAligned(end - offset);
    hide Walk, Cursors;
    assert response[offset..end] == [];
    WalkEnds(mapped, tid);
  }

  lemma WalkingStarts(response: seq<Byte>, end: nat, tid: TransactionId)
    requires HEADER_BYTES <= end <= |response| && Aligned(end - HEADER_BYTES)
    ensures Walking(response, [HEADER_BYTES], HEADER_BYTES, end, None, tid, Walk(response[HEADER_BYTES..end], None, tid))
  {
    hide Walk, StopsAt, Aligned;
  }

  /**
   The parser's loop. `offsets` are the cursor's positions: aligned, in bounds, growing, and ending
   exactly at the declared end unless, and then just where, an attribute ends the walk.
   */
  method WalkAttributes(response: seq<Byte>, messageEnd: nat, tid: TransactionId)
    returns (parsed: Parsed, ghost offsets: seq<nat>)
    requires HEADER_BYTES <= messageEnd <= |response| && Aligned(messageEnd - HEADER_BYTES)
    ensures parsed == Walk(response[HEADER_BYTES..messageEnd], None, tid)
    ensures Visits(response, offsets, messageEnd)
  {
    ghost var answer := Walk(response[HEADER_BYTES..messageEnd], None, tid);
    WalkingStarts(response, messageEnd, tid);
    hide *;
    var offset: nat := HEADER_BYTES;
    var mapped: Option<SocketAddr> := None;
    offsets := [offset];
    while offset + 4 <= messageEnd
      invariant HEADER_BYTES <= offset <= messageEnd && Aligned(messageEnd - offset)
      invariant Walking(response, offsets, offset, messageEnd, mapped, tid, answer)
      decreases messageEnd - offset
    {
      var attributeType := FromBigEndian(response[offset], response[offset + 1]);
      var attributeLength := FromBigEndian(response[offset + 2], response[offset + 3]);
      var valueStart := offset + 4;
      var valueEnd := valueStart + attributeLength;
      WalkingStops(response, offsets, offset, messageEnd, mapped, tid, answer, attributeType, attributeLength);
      if valueEnd > messageEnd {
        return Failure(AttributeLengthInvalid), offsets;
      }
      if attributeType == XOR_MAPPED_ADDRESS {
        parsed := ReadAddress(response[valueStart..valueEnd], Some(tid));
        return;
      }
      var found := mapped;
      if attributeType == MAPPED_ADDRESS {
        var address := ReadAddress(response[valueStart..valueEnd], None);
        if address.Failure? {
          return address, offsets;
        }
        found := Some(address.value);
      }
      var next := valueEnd + Padding(attributeLength);
      WalkingGoesOn(response, offsets, offset, messageEnd, mapped, tid, answer,
                    attributeType, attributeLength, found, next);
      offsets := offsets + [next];
      mapped, offset := found, next;
    }
    WalkingEnds(response, offsets, offset, messageEnd, mapped, tid, answer);
    if mapped.None? {
      return Failure(NoMappedAddress), offsets;
    }
    return Success(mapped.value), offsets;
  }

  method ReadBindingResponse(response: seq<Byte>, tid: TransactionId) returns (parsed: Parsed)
    ensures parsed == ParseBindingResponse(response, tid)
  {
    hide Walk, FromBigEndian;
    if |response| < HEADER_BYTES {
      return Failure(ShorterThanHeader);
    }
    if FromBigEndian(response[0], response[1]) != BINDING_SUCCESS {
      return Failure(NotASuccessResponse);
    }
    if response[4..8] != COOKIE {
      return Failure(WrongCookie);
    }
    if response[8..20] != tid {
      return Failure(WrongTransaction);
    }
    var messageLength := FromBigEndian(response[2], response[3]);
    if !Aligned(messageLength) {
      return Failure(LengthNotAligned);
    }
    var messageEnd := HEADER_BYTES + messageLength;
    if messageEnd > |response| {
      return Failure(LengthInvalid);
    }
    ghost var offsets;
    parsed, offsets := WalkAttributes(response, messageEnd, tid);
  }

  /** The fixed buffer is filled slice by slice. */
  method BindingRequest(tid: TransactionId) returns (request: array<Byte>)
    ensures fresh(request) && request[..] == [0x00, 0x01, 0x00, 0x00, 0x21, 0x12, 0xA4, 0x42] + tid
  {
    request := new Byte[HEADER_BYTES](_ => 0);
    ghost var zeros := request[..];
    Copy(request, 0, BigEndian(BINDING_REQUEST));
    assert request[..] == BigEndian(BINDING_REQUEST) + zeros[2..];
    Copy(request, 4, COOKIE);
    assert request[..] == BigEndian(BINDING_REQUEST) + BigEndian(0) + COOKIE + zeros[8..];
    Copy(request, 8, tid);
    assert request[..] == BigEndian(BINDING_REQUEST) + BigEndian(0) + COOKIE + tid;
    RequestHeaderIs(tid);
  }

  lemma RequestHeaderIs(tid: TransactionId)
    ensures BigEndian(BINDING_REQUEST) + BigEndian(0) + COOKIE + tid
            == [0x00, 0x01, 0x00, 0x00, 0x21, 0x12, 0xA4, 0x42] + tid
  {
    assert BigEndian(BINDING_REQUEST) + BigEndian(0) + COOKIE == [0x00, 0x01, 0x00, 0x00, 0x21, 0x12, 0xA4, 0x42];
  }

  method Copy(buffer: array<Byte>, start: nat, bytes: seq<Byte>)
    requires start + |bytes| <= buffer.Length
    modifies buffer
    ensures buffer[..] == old(buffer[..start]) + bytes + old(buffer[start + |bytes|..])
  {
    forall i | 0 <= i < |bytes| {
      buffer[start + i] := bytes[i];
    }
  }

  // ---- what the parser means on a message made of attributes ----------------------------------------

  datatype Attribute = Attribute(kind: U16, value: seq<Byte>, padding: seq<Byte>) {
    predicate Valid() {
      |value| < 0x1_0000 && |padding| == Padding(|value|)
    }

    function Encode(): seq<Byte>
      requires Valid()
    {
      BigEndian(kind) + BigEndian(|value|) + value + padding
    }
  }

  predicate AllValid(attributes: seq<Attribute>) {
    forall i :: 0 <= i < |attributes| ==> attributes[i].Valid()
  }

  function EncodeAll(attributes: seq<Attribute>): (bytes: seq<Byte>)
    requires AllValid(attributes)
    ensures Aligned(|bytes|)
  {
    if attributes == [] then []
    else
      var first := attributes[0];
      PaddingAligns(|first.value|);
      AlignedSums(4 + |first.value| + Padding(|first.value|), |EncodeAll(attributes[1..])|);
      hide Padding, Aligned;
      first.Encode() + EncodeAll(attributes[1..])
  }

  /**
   The first XOR-MAPPED-ADDRESS decides; before it, every MAPPED-ADDRESS must parse; without it, the
   last one counts, unless what follows the attributes is broken.
   */
  function Meaning(attributes: seq<Attribute>, whole: bool, mapped: Option<SocketAddr>, tid: TransactionId): Parsed {
    if attributes == [] then
      if !whole then Failure(AttributeLengthInvalid)
      else if mapped.Some? then Success(mapped.value)
      else Failure(NoMappedAddress)
    else if attributes[0].kind == XOR_MAPPED_ADDRESS then ParseAddress(attributes[0].value, Some(tid))
    else if attributes[0].kind == MAPPED_ADDRESS then
      var address := ParseAddress(attributes[0].value, None);
      if address.Failure? then address else Meaning(attributes[1..], whole, Some(address.value), tid)
    else Meaning(attributes[1..], whole, mapped, tid)
  }

  /** Nothing, or bytes that announce an attribute longer than they are. */
  predicate IsTail(bytes: seq<Byte>) {
    bytes != [] ==>
      && Aligned(|bytes|) && |bytes| >= 4
      && 4 + FromBigEndian(bytes[2], bytes[3]) > |bytes|
  }

  lemma FirstAttribute(first: Attribute, rest: seq<Byte>)
    requires first.Valid()
    ensures var bytes := first.Encode() + rest;
            && |bytes| >= 4 && FromBigEndian(bytes[0], bytes[1]) == first.kind
            && FromBigEndian(bytes[2], bytes[3]) == |first.value|
            && 4 + |first.value| + Padding(|first.value|) <= |bytes|
            && bytes[4..4 + |first.value|] == first.value
            && bytes[4 + |first.value| + Padding(|first.value|)..] == rest
            && bytes[4 + |first.value|..4 + |first.value| + Padding(|first.value|)] == first.padding
  {
    hide Padding;
    var bytes := first.Encode() + rest;
    var header := BigEndian(first.kind) + BigEndian(|first.value|);
    assert bytes[..4] == header;
    assert bytes == header + (first.value + (first.padding + rest));
    assert bytes[4..] == first.value + (first.padding + rest);
    assert bytes[4 + |first.value|..] == first.padding + rest;
  }

  lemma TailsAreAligned(attributes: seq<Attribute>, tail: seq<Byte>)
    requires AllValid(attributes) && IsTail(tail)
    ensures Aligned(|EncodeAll(attributes) + tail|)
  {
    AlignedSums(|EncodeAll(attributes)|, |tail|);
  }

  lemma Associates(a: seq<Byte>, b: seq<Byte>, c: seq<Byte>)
    ensures (a + b) + c == a + (b + c)
  {
  }

  lemma MeaningStep(first: Attribute, rest: seq<Attribute>, bytes: seq<Byte>, whole: bool, mapped: Option<SocketAddr>,
                    tid: TransactionId)
    requires first.Valid() && Aligned(|bytes|) && Aligned(|first.Encode() + bytes|)
    requires Walk(bytes, mapped, tid) == Meaning(rest, whole, mapped, tid)
    requires var address := ParseAddress(first.value, None);
             address.Success? ==>
               Walk(bytes, Some(address.value), tid) == Meaning(rest, whole, Some(address.value), tid)
    ensures Walk(first.Encode() + bytes, mapped, tid) == Meaning([first] + rest, whole, mapped, tid)
  {
    hide Walk, ParseAddress, Padding, FromBigEndian, Aligned, Attribute.Encode;
    FirstAttribute(first, bytes);
    WalkStep(first.Encode() + bytes, mapped, tid, first.kind, |first.value|);
    assert ([first] + rest)[1..] == rest;
  }

  lemma {:induction false} WalkReadsAttributes(attributes: seq<Attribute>, tail: seq<Byte>, mapped: Option<SocketAddr>,
                                               tid: TransactionId)
    requires AllValid(attributes) && IsTail(tail) && Aligned(|EncodeAll(attributes) + tail|)
    ensures Walk(EncodeAll(attributes) + tail, mapped, tid) == Meaning(attributes, tail == [], mapped, tid)
    decreases |attributes|
  {
    hide Padding, Aligned, FromBigEndian, ParseAddress, Attribute.Encode;
    if attributes == [] {
      assert EncodeAll(attributes) + tail == tail;
    } else {
      hide Walk, Meaning, IsTail, Attribute.Valid;
      var first, rest := attributes[0], attributes[1..];
      var bytes := EncodeAll(rest) + tail;
      TailsAreAligned(rest, tail);
      assert EncodeAll(attributes) + tail == first.Encode() + bytes by {
        Associates(first.Encode(), EncodeAll(rest), tail);
      }
      hide EncodeAll;
      WalkReadsAttributes(rest, tail, mapped, tid);
      var address := ParseAddress(first.value, None);
      if address.Success? {
        WalkReadsAttributes(rest, tail, Some(address.value), tid);
      }
      MeaningStep(first, rest, bytes, tail == [], mapped, tid);
      assert attributes == [first] + rest;
    }
  }

  function EncodeResponse(attributes: seq<Attribute>, tid: TransactionId, trailing: seq<Byte>): seq<Byte>
    requires AllValid(attributes) && |EncodeAll(attributes)| < 0x1_0000
  {
    Header(|EncodeAll(attributes)|, tid) + EncodeAll(attributes) + trailing
  }

  function Header(length: U16, tid: TransactionId): (header: seq<Byte>)
    ensures |header| == HEADER_BYTES
  {
    BigEndian(BINDING_SUCCESS) + BigEndian(length) + COOKIE + tid
  }

  lemma HeaderIsRead(length: U16, tid: TransactionId, body: seq<Byte>, trailing: seq<Byte>)
    requires |body| == length && Aligned(length)
    ensures ParseBindingResponse(Header(length, tid) + body + trailing, tid) == Walk(body, None, tid)
  {
    var response := Header(length, tid) + body + trailing;
    HeaderFields(length, tid);
    assert response[..HEADER_BYTES] == Header(length, tid);
    assert response[4..8] == response[..HEADER_BYTES][4..8];
    assert response[8..20] == response[..HEADER_BYTES][8..20];
    assert response[HEADER_BYTES..HEADER_BYTES + length] == body;
    hide Walk, Aligned;
  }

  lemma HeaderFields(length: U16, tid: TransactionId)
    ensures var header := Header(length, tid);
            && FromBigEndian(header[0], header[1]) == BINDING_SUCCESS
            && FromBigEndian(header[2], header[3]) == length
            && header[4..8] == COOKIE && header[8..20] == tid
  {
    var header := Header(length, tid);
    assert header[..2] == BigEndian(BINDING_SUCCESS);
    assert header[2..4] == BigEndian(length);
  }

  /** Every well-formed response, of any attributes and with anything after it, parses to its meaning. */
  lemma ResponsesParseToTheirMeaning(attributes: seq<Attribute>, tid: TransactionId, trailing: seq<Byte>)
    requires AllValid(attributes) && |EncodeAll(attributes)| < 0x1_0000
    ensures ParseBindingResponse(EncodeResponse(attributes, tid, trailing), tid) == Meaning(attributes, true, None, tid)
  {
    hide Walk, Meaning, Header, ParseBindingResponse, EncodeAll;
    var body := EncodeAll(attributes);
    HeaderIsRead(|body|, tid, body, trailing);
    assert body + [] == body;
    WalkReadsAttributes(attributes, [], None, tid);
  }

  /** A body as the attributes whose lengths fit, and the bytes left when one does not. */
  datatype Body = Body(attributes: seq<Attribute>, tail: seq<Byte>)

  function Decode(body: seq<Byte>): Body
    requires Aligned(|body|)
    decreases |body|
  {
    if |body| < 4 then Body([], [])
    else
      var length := FromBigEndian(body[2], body[3]);
      if 4 + length > |body| then Body([], body)
      else
        PaddingFits(|body|, length);
        hide Padding, Aligned;
        var next := 4 + length + Padding(length);
        var rest := Decode(body[next..]);
        Body([Attribute(FromBigEndian(body[0], body[1]), body[4..4 + length], body[4 + length..next])] + rest.attributes,
             rest.tail)
  }

  lemma AttributeEncodesBack(body: seq<Byte>, length: nat, next: nat)
    requires 4 <= |body| && length == FromBigEndian(body[2], body[3]) && 4 + length <= next <= |body|
    requires next == 4 + length + Padding(length)
    ensures var first := Attribute(FromBigEndian(body[0], body[1]), body[4..4 + length], body[4 + length..next]);
            first.Valid() && first.Encode() == body[..next]
  {
    BigEndianRoundTrip(body[0], body[1]);
    BigEndianRoundTrip(body[2], body[3]);
    hide FromBigEndian, Padding, BigEndian;
    assert body[..next] == [body[0], body[1]] + [body[2], body[3]] + body[4..4 + length] + body[4 + length..next];
  }

  lemma EncodeCons(first: Attribute, rest: seq<Attribute>)
    requires first.Valid() && AllValid(rest)
    ensures AllValid([first] + rest) && EncodeAll([first] + rest) == first.Encode() + EncodeAll(rest)
  {
    assert ([first] + rest)[1..] == rest;
  }

  lemma DecodeStep(body: seq<Byte>, length: nat, next: nat)
    requires Aligned(|body|) && |body| >= 4 && length == FromBigEndian(body[2], body[3]) && 4 + length <= |body|
    requires next == 4 + length + Padding(length)
    ensures 4 + length <= next <= |body| && Aligned(|body[next..]|)
    ensures Decode(body)
            == Body([Attribute(FromBigEndian(body[0], body[1]), body[4..4 + length], body[4 + length..next])]
                    + Decode(body[next..]).attributes, Decode(body[next..]).tail)
  {
    hide Padding, FromBigEndian, Aligned;
    PaddingFits(|body|, length);
  }

  predicate Overruns(body: seq<Byte>) {
    |body| < 4 || 4 + FromBigEndian(body[2], body[3]) > |body|
  }

  lemma DecodeEnds(body: seq<Byte>)
    requires Aligned(|body|) && Overruns(body)
    ensures AllValid(Decode(body).attributes) && IsTail(Decode(body).tail)
    ensures EncodeAll(Decode(body).attributes) + Decode(body).tail == body
  {
    hide Padding, FromBigEndian;
    if |body| < 4 {
      SmallAndAligned(|body|);
    }
    assert EncodeAll([]) + body == body;
  }

  lemma DecodeGoesOn(body: seq<Byte>, length: nat, next: nat)
    requires Aligned(|body|) && |body| >= 4 && length == FromBigEndian(body[2], body[3]) && 4 + length <= |body|
    requires next == 4 + length + Padding(length) <= |body| && Aligned(|body[next..]|)
    requires AllValid(Decode(body[next..]).attributes)
    requires EncodeAll(Decode(body[next..]).attributes) + Decode(body[next..]).tail == body[next..]
    ensures AllValid(Decode(body).attributes) && Decode(body).tail == Decode(body[next..]).tail
    ensures EncodeAll(Decode(body).attributes) + Decode(body).tail == body
  {
    hide Padding, FromBigEndian, EncodeAll, Decode, Attribute.Encode, Attribute.Valid, Aligned, AllValid;
    DecodeStep(body, length, next);
    var first := Attribute(FromBigEndian(body[0], body[1]), body[4..4 + length], body[4 + length..next]);
    var rest := Decode(body[next..]);
    AttributeEncodesBack(body, length, next);
    EncodeCons(first, rest.attributes);
    assert body == body[..next] + body[next..];
    Associates(first.Encode(), EncodeAll(rest.attributes), rest.tail);
  }

  /** Any bytes are the encoding of the attributes read from them and the tail left: nothing is lost or skipped. */
  lemma {:induction false} DecodedBodiesEncodeBack(body: seq<Byte>)
    requires Aligned(|body|)
    ensures AllValid(Decode(body).attributes) && IsTail(Decode(body).tail)
    ensures EncodeAll(Decode(body).attributes) + Decode(body).tail == body
    decreases |body|
  {
    if Overruns(body) {
      DecodeEnds(body);
    } else {
      hide Padding, FromBigEndian, EncodeAll, Decode, Aligned, AllValid, IsTail;
      var length := FromBigEndian(body[2], body[3]);
      PaddingFits(|body|, length);
      var next := 4 + length + Padding(length);
      DecodedBodiesEncodeBack(body[next..]);
      DecodeGoesOn(body, length, next);
    }
  }

  /** For arbitrary bytes the walk is the meaning of the attributes that are there and of the tail that follows them. */
  lemma WalkMeansItsAttributes(body: seq<Byte>, tid: TransactionId)
    requires Aligned(|body|)
    ensures Walk(body, None, tid) == Meaning(Decode(body).attributes, Decode(body).tail == [], None, tid)
  {
    hide Walk, Meaning, Decode;
    DecodedBodiesEncodeBack(body);
    WalkReadsAttributes(Decode(body).attributes, Decode(body).tail, None, tid);
  }

  // ---- what arbitrary bytes are answered with --------------------------------------------------------

  /** The length a response declares for its body. */
  function DeclaredLength(response: seq<Byte>): U16
    requires |response| >= 20
  {
    FromBigEndian(response[2], response[3])
  }

  /** The bytes are a success response to the request with this id, and the body they declare is there. */
  predicate Answers(response: seq<Byte>, tid: TransactionId) {
    && |response| >= 20
    && response[..20] == Header(DeclaredLength(response), tid)
    && Aligned(DeclaredLength(response)) && 20 + DeclaredLength(response) <= |response|
  }

  lemma HeaderIs(response: seq<Byte>, tid: TransactionId)
    requires |response| >= 20
    ensures response[..20] == Header(DeclaredLength(response), tid) <==>
              && response[0] == 0x01 && response[1] == 0x01
              && response[4..8] == [0x21, 0x12, 0xA4, 0x42] && response[8..20] == tid
  {
    var length := DeclaredLength(response);
    BigEndianRoundTrip(response[2], response[3]);
    var header := Header(length, tid);
    assert header == [0x01, 0x01] + BigEndian(length) + COOKIE + tid;
    assert header[4..8] == COOKIE && header[8..20] == tid;
    assert response[..20] == [response[0], response[1]] + [response[2], response[3]] + response[4..8] + response[8..20];
    if response[..20] == header {
      assert response[4..8] == response[..20][4..8] && response[8..20] == response[..20][8..20];
      assert response[0] == response[..20][0] && response[1] == response[..20][1];
    }
  }

  lemma WordIs(high: Byte, low: Byte)
    ensures FromBigEndian(high, low) == 0x0101 <==> high == 0x01 && low == 0x01
  {
  }

  predicate HeaderRefusal(error: InvalidResponse) {
    error in {ShorterThanHeader, NotASuccessResponse, WrongCookie, WrongTransaction, LengthNotAligned, LengthInvalid}
  }

  /** No attribute is refused in the words of the header. */
  lemma {:induction false} MeaningIsNoHeaderRefusal(attributes: seq<Attribute>, whole: bool, mapped: Option<SocketAddr>,
                                                   tid: TransactionId)
    ensures Meaning(attributes, whole, mapped, tid).Failure? ==>
              !HeaderRefusal(Meaning(attributes, whole, mapped, tid).error)
    decreases |attributes|
  {
    if attributes != [] {
      hide MaskedOctets, MaskedPort;
      var address := ParseAddress(attributes[0].value, None);
      MeaningIsNoHeaderRefusal(attributes[1..], whole, mapped, tid);
      if address.Success? {
        MeaningIsNoHeaderRefusal(attributes[1..], whole, Some(address.value), tid);
      }
    }
  }

  /**
   For arbitrary bytes: only an answer to this very request is read, and then as what the attributes of
   its declared body mean; anything else gets one of the header's refusals.
   */
  lemma OnlyAnswersAreRead(response: seq<Byte>, tid: TransactionId)
    ensures var parsed := ParseBindingResponse(response, tid);
            && (Answers(response, tid) ==>
                  var body := Decode(response[20..20 + DeclaredLength(response)]);
                  parsed == Meaning(body.attributes, body.tail == [], None, tid))
            && (Answers(response, tid) <==> parsed.Success? || !HeaderRefusal(parsed.error))
  {
    hide Walk, Meaning, Decode;
    if |response| >= 20 {
      HeaderIs(response, tid);
      hide Header, FromBigEndian;
      WordIs(response[0], response[1]);
      var length := DeclaredLength(response);
      if Aligned(length) && 20 + length <= |response| {
        var bytes := response[20..20 + length];
        WalkMeansItsAttributes(bytes, tid);
        MeaningIsNoHeaderRefusal(Decode(bytes).attributes, Decode(bytes).tail == [], None, tid);
      }
    }
  }

  /** Which refusal bytes that are no answer get: the first of the header's six tests that they fail. */
  lemma HeaderRefusalsAre(response: seq<Byte>, tid: TransactionId, error: InvalidResponse)
    requires HeaderRefusal(error)
    ensures ParseBindingResponse(response, tid) == Failure(error) <==>
              if |response| < 20 then error == ShorterThanHeader
              else if !(response[0] == 0x01 && response[1] == 0x01) then error == NotASuccessResponse
              else if response[4..8] != [0x21, 0x12, 0xA4, 0x42] then error == WrongCookie
              else if response[8..20] != tid then error == WrongTransaction
              else if DeclaredLength(response) % 4 != 0 then error == LengthNotAligned
              else if 20 + DeclaredLength(response) > |response| then error == LengthInvalid
              else false
  {
    hide Walk, Header;
    if |response| >= 20 {
      WordIs(response[0], response[1]);
      HeaderIs(response, tid);
      OnlyAnswersAreRead(response, tid);
    }
  }

  // ---- which attribute is returned -------------------------------------------------------------------

  /** An attribute the walk goes on after: of an unknown kind, or a plain address that can be read. */
  predicate IsPassed(a: Attribute) {
    a.kind != 0x0020 && (a.kind == 0x0001 ==> ParseAddress(a.value, None).Success?)
  }

  predicate IsUnknown(a: Attribute) {
    a.kind != 0x0020 && a.kind != 0x0001
  }

  lemma {:induction false} UnknownAttributesAreSkipped(attributes: seq<Attribute>, mapped: Option<SocketAddr>,
                                                       tid: TransactionId)
    requires forall i :: 0 <= i < |attributes| ==> IsUnknown(attributes[i])
    ensures Meaning(attributes, true, mapped, tid)
            == if mapped.Some? then Success(mapped.value) else Failure(NoMappedAddress)
    decreases |attributes|
  {
    if attributes != [] {
      UnknownAttributesAreSkipped(attributes[1..], mapped, tid);
    }
  }

  /** Bytes that announce an attribute longer than they are spoil every response that nothing decided before. */
  lemma {:induction false} OverrunsAreRefused(attributes: seq<Attribute>, mapped: Option<SocketAddr>, tid: TransactionId)
    requires forall i :: 0 <= i < |attributes| ==> IsPassed(attributes[i])
    ensures Meaning(attributes, false, mapped, tid) == Failure(AttributeLengthInvalid)
    decreases |attributes|
  {
    if attributes != [] {
      hide ParseAddress;
      var address := ParseAddress(attributes[0].value, None);
      OverrunsAreRefused(attributes[1..], mapped, tid);
      if address.Success? {
        OverrunsAreRefused(attributes[1..], Some(address.value), tid);
      }
    }
  }

  /** The first masked address decides, whatever plain addresses were read before it and whatever follows. */
  lemma {:induction false} FirstMaskedDecides(before: seq<Attribute>, decisive: Attribute, after: seq<Attribute>,
                                              whole: bool, mapped: Option<SocketAddr>, tid: TransactionId)
    requires (forall i :: 0 <= i < |before| ==> IsPassed(before[i])) && decisive.kind == 0x0020
    ensures Meaning(before + [decisive] + after, whole, mapped, tid) == ParseAddress(decisive.value, Some(tid))
    decreases |before|
  {
    hide ParseAddress;
    if before == [] {
      assert ([] + [decisive] + after)[0] == decisive;
    } else {
      assert (before + [decisive] + after)[1..] == before[1..] + [decisive] + after;
      var address := ParseAddress(before[0].value, None);
      FirstMaskedDecides(before[1..], decisive, after, whole, mapped, tid);
      if address.Success? {
        FirstMaskedDecides(before[1..], decisive, after, whole, Some(address.value), tid);
      }
    }
  }

  /** Without a masked one the last plain address counts, and one that cannot be read ends the walk at once. */
  lemma {:induction false} LastPlainCounts(before: seq<Attribute>, decisive: Attribute, after: seq<Attribute>,
                                           whole: bool, mapped: Option<SocketAddr>, tid: TransactionId)
    requires (forall i :: 0 <= i < |before| ==> IsPassed(before[i])) && decisive.kind == 0x0001
    requires ParseAddress(decisive.value, None).Success? ==>
               whole && forall i :: 0 <= i < |after| ==> IsUnknown(after[i])
    ensures Meaning(before + [decisive] + after, whole, mapped, tid) == ParseAddress(decisive.value, None)
    decreases |before|
  {
    hide ParseAddress;
    if before == [] {
      var all := [] + [decisive] + after;
      assert all[0] == decisive && all[1..] == after;
      var address := ParseAddress(decisive.value, None);
      if address.Success? {
        UnknownAttributesAreSkipped(after, Some(address.value), tid);
      }
    } else {
      assert (before + [decisive] + after)[1..] == before[1..] + [decisive] + after;
      var address := ParseAddress(before[0].value, None);
      LastPlainCounts(before[1..], decisive, after, whole, mapped, tid);
      if address.Success? {
        LastPlainCounts(before[1..], decisive, after, whole, Some(address.value), tid);
      }
    }
  }

  /** A response with a masked address, after any readable attributes and before any others, parses to it. */
  lemma MappedAddressRoundTrip(address: SocketAddr, tid: TransactionId, before: seq<Attribute>, after: seq<Attribute>,
                               trailing: seq<Byte>)
    requires address.ip.Valid() && AllValid(before) && AllValid(after)
    requires forall i :: 0 <= i < |before| ==> IsPassed(before[i])
    requires var mapped := Attribute(0x0020, EncodeAddress(address, Some(tid)), []);
             AllValid(before + [mapped] + after) && |EncodeAll(before + [mapped] + after)| < 0x1_0000
    ensures var mapped := Attribute(0x0020, EncodeAddress(address, Some(tid)), []);
            ParseBindingResponse(EncodeResponse(before + [mapped] + after, tid, trailing), tid) == Success(address)
  {
    hide ParseBindingResponse, EncodeResponse, EncodeAll, ParseAddress, Meaning;
    var mapped := Attribute(0x0020, EncodeAddress(address, Some(tid)), []);
    ResponsesParseToTheirMeaning(before + [mapped] + after, tid, trailing);
    FirstMaskedDecides(before, mapped, after, true, None, tid);
    AddressRoundTrip(address, Some(tid));
  }

  /** Without a masked address, the last plain one is read. */
  lemma PlainAddressRoundTrip(address: SocketAddr, tid: TransactionId, before: seq<Attribute>, after: seq<Attribute>,
                              trailing: seq<Byte>)
    requires address.ip.Valid() && AllValid(before) && AllValid(after)
    requires forall i :: 0 <= i < |before| ==> IsPassed(before[i])
    requires forall i :: 0 <= i < |after| ==> IsUnknown(after[i])
    requires var mapped := Attribute(0x0001, EncodeAddress(address, None), []);
             AllValid(before + [mapped] + after) && |EncodeAll(before + [mapped] + after)| < 0x1_0000
    ensures var mapped := Attribute(0x0001, EncodeAddress(address, None), []);
            ParseBindingResponse(EncodeResponse(before + [mapped] + after, tid, trailing), tid) == Success(address)
  {
    hide ParseBindingResponse, EncodeResponse, EncodeAll, ParseAddress, Meaning;
    var mapped := Attribute(0x0001, EncodeAddress(address, None), []);
    ResponsesParseToTheirMeaning(before + [mapped] + after, tid, trailing);
    AddressRoundTrip(address, None);
    LastPlainCounts(before, mapped, after, true, None, tid);
  }
}
