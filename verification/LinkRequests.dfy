/** The requests of the client on the wire, and what the mailbox service reads of them. */
module LinkRequests {
  import opened Bytes
  import opened PlcLink
  import opened LinkState
  import opened LinkPoll

  const FLAG_SNAPSHOT: byte := 0x40

  const GET_CAPS: byte := 0x01
  const GET_DEFS: byte := 0x10
  const GET_STATES: byte := 0x20
  const WRITE_STATE: byte := 0x32

  // What the client sends

  function RequestHeader(messageType: byte, flags: byte, id: byte, size: u16): Header {
    Header(MAGIC, VERSION, messageType, flags, id, 0, 1, size, 0, 0)
  }

  /** The payload: GetDefsSnapshotRequest, GetStatesSnapshotRequest with texts, or WriteStateRequestV1. */
  function PayloadBytes(r: Request): (s: seq<byte>)
    ensures |s| <= 12
  {
    match r
    case GetCaps => []
    case GetDefs(offset, room, generation) => Le32(offset) + Le16(room) + Le16(0) + Le32(generation)
    case GetStates(start, records) => Le16(start) + Le16(records) + [1, 0] + Le16(0)
    case WriteState(w) => Le16(w.point) + [w.valueType, w.flags] + Le32(w.bits)
  }

  function TypeOf(r: Request): byte {
    match r
    case GetCaps => GET_CAPS
    case GetDefs(_, _, _) => GET_DEFS
    case GetStates(_, _) => GET_STATES
    case WriteState(_) => WRITE_STATE
  }

  function FlagsOf(r: Request): byte {
    if r.GetDefs? || r.GetStates? then FLAG_REQUEST + FLAG_SNAPSHOT else FLAG_REQUEST
  }

  function RequestBytes(r: Request, id: byte): seq<byte> {
    HeaderBytes(RequestHeader(TypeOf(r), FlagsOf(r), id, |PayloadBytes(r)|)) + PayloadBytes(r)
  }

  // What the service reads

  /** The request in a message, if it is well formed. */
  function ReadRequest(s: seq<byte>): Option<Request> {
    match DecodeHeader(s)
    case None => None
    case Some(h) =>
      if !HasFlag(h.flags, FLAG_REQUEST) then None
      else if h.messageType == GET_CAPS then if h.payloadLength == 0 then Some(GetCaps) else None
      else if h.messageType == GET_DEFS then
        if h.payloadLength != 12 || |s| < HEADER_SIZE + 12 then None
        else Some(GetDefs(Fetch32(s, 18), Fetch16(s, 22), Fetch32(s, 26)))
      else if h.messageType == GET_STATES then
        if h.payloadLength != 8 || |s| < HEADER_SIZE + 8 then None
        else Some(GetStates(Fetch16(s, 18), Fetch16(s, 20)))
      else if h.messageType == WRITE_STATE then
        if h.payloadLength != 8 || |s| < HEADER_SIZE + 8 then None
        else Some(WriteState(WriteRequest(Fetch16(s, 18), s[20], s[21], Fetch32(s, 22))))
      else None
  }

  lemma ValidRequest(r: Request, id: byte)
    ensures IsValid(RequestHeader(TypeOf(r), FlagsOf(r), id, |PayloadBytes(r)|))
    ensures HasFlag(FlagsOf(r), FLAG_REQUEST)
  {
    hide PayloadBytes;
  }

  lemma DefsReads(offset: u32, room: u16, generation: u32, s: seq<byte>)
    requires |s| == 30 && s[18..] == Le32(offset) + Le16(room) + Le16(0) + Le32(generation)
    ensures Fetch32(s, 18) == offset && Fetch16(s, 22) == room && Fetch32(s, 26) == generation
  {
    hide Le16, Le32, Fetch16, Fetch32;
    var p := s[18..];
    assert s[18..22] == p[0..4];
    assert p[0..4] == Le32(offset);
    FetchLe32(offset, s, 18);
    assert s[22..24] == p[4..6];
    assert p[4..6] == Le16(room);
    FetchLe16(room, s, 22);
    assert s[26..30] == p[8..12];
    assert p[8..12] == Le32(generation);
    FetchLe32(generation, s, 26);
  }

  lemma StatesReads(start: u16, records: u16, s: seq<byte>)
    requires |s| == 26 && s[18..] == Le16(start) + Le16(records) + [1, 0] + Le16(0)
    ensures Fetch16(s, 18) == start && Fetch16(s, 20) == records && s[22] == 1
  {
    hide Le16, Fetch16;
    var p := s[18..];
    assert s[18..20] == p[0..2];
    assert p[0..2] == Le16(start);
    FetchLe16(start, s, 18);
    assert s[20..22] == p[2..4];
    assert p[2..4] == Le16(records);
    FetchLe16(records, s, 20);
    assert s[22] == p[4];
  }

  lemma WriteReads(w: WriteRequest, s: seq<byte>)
    requires |s| == 26 && s[18..] == Le16(w.point) + [w.valueType, w.flags] + Le32(w.bits)
    ensures Fetch16(s, 18) == w.point && s[20] == w.valueType && s[21] == w.flags && Fetch32(s, 22) == w.bits
  {
    hide Le16, Le32, Fetch16, Fetch32;
    var p := s[18..];
    assert s[18..20] == p[0..2];
    assert p[0..2] == Le16(w.point);
    FetchLe16(w.point, s, 18);
    assert s[20] == p[2] && s[21] == p[3];
    assert s[22..26] == p[4..8];
    assert p[4..8] == Le32(w.bits);
    FetchLe32(w.bits, s, 22);
  }

  lemma PayloadReads(r: Request, s: seq<byte>)
    requires HEADER_SIZE + |PayloadBytes(r)| == |s| && s[HEADER_SIZE..] == PayloadBytes(r)
    ensures
      match r
      case GetCaps => |s| == 18
      case GetDefs(offset, room, generation) =>
        |s| == 30 && Fetch32(s, 18) == offset && Fetch16(s, 22) == room && Fetch32(s, 26) == generation
      case GetStates(start, records) => |s| == 26 && Fetch16(s, 18) == start && Fetch16(s, 20) == records && s[22] == 1
      case WriteState(w) =>
        |s| == 26 && Fetch16(s, 18) == w.point && s[20] == w.valueType && s[21] == w.flags && Fetch32(s, 22) == w.bits
  {
    hide Le16, Le32, Fetch16, Fetch32;
    match r
    case GetCaps =>
    case GetDefs(offset, room, generation) => DefsReads(offset, room, generation, s);
    case GetStates(start, records) => StatesReads(start, records, s);
    case WriteState(w) => WriteReads(w, s);
  }

  /** Every request arrives as it was sent, whatever its number. */
  lemma RequestArrives(r: Request, id: byte)
    ensures ReadRequest(RequestBytes(r, id)) == Some(r)
    ensures
      var s := RequestBytes(r, id);
      && |s| >= 18 && Fetch16(s, 0) == 0x4C50 && s[2] == 1 && s[5] == id
      && s[3] == match r { case GetCaps => 0x01 case GetDefs(_, _, _) => 0x10 case GetStates(_, _) => 0x20
                           case WriteState(_) => 0x32 }
      && s[4] == match r { case GetCaps => 0x01 case GetDefs(_, _, _) => 0x41 case GetStates(_, _) => 0x41
                           case WriteState(_) => 0x01 }
  {
    var h := RequestHeader(TypeOf(r), FlagsOf(r), id, |PayloadBytes(r)|);
    var s := RequestBytes(r, id);
    ValidRequest(r, id);
    HeaderRead(h, PayloadBytes(r));
    assert s[HEADER_SIZE..] == PayloadBytes(r);
    PayloadReads(r, s);
    hide HeaderBytes, PayloadBytes, IsValid, Fetch32, Fetch16, HasFlag;
  }

  lemma HeaderRead(h: Header, payload: seq<byte>)
    ensures
      var s := HeaderBytes(h) + payload;
      && ReadHeader(s) == h
      && Fetch16(s, 0) == h.magic && s[2] == h.version && s[3] == h.messageType && s[4] == h.flags && s[5] == h.requestId
  {
    HeaderReads(h, payload);
  }
}
