/** A plcLink server that answers every request from fixed tables, and what the client makes of its
    answers. */
module LinkServer {
  import opened Bytes
  import opened PlcLink
  import opened LinkState
  import opened LinkPoll

  /** The tables, and how many records the server puts into a chunk from a position on. */
  datatype Server = Server(
    generation: u32,
    sequence: u32,
    maxPayload: u16,
    defs: seq<Definition>,
    states: seq<Cached>,
    defsChunk: nat -> nat,
    statesChunk: nat -> nat
  )

  /** A record of the table: a text belongs to string points only. */
  predicate Tabled(c: Cached, point: nat) {
    c.Sized() && c.Point() == point && (!c.HasText() ==> c.text == Zeros(TEXT_SIZE))
  }

  function DefsBytes(defs: seq<Definition>): seq<byte> {
    if defs == [] then [] else defs[0] + DefsBytes(defs[1..])
  }

  /** The server's chunks are not empty, stay within the tables and fit into a response. */
  ghost predicate Valid(server: Server) {
    && |server.defs| == |server.states| < 0x1_0000
    && DefsRoom(server.maxPayload) > 0 && StatesRoom(server.maxPayload) > 0
    && (forall i | 0 <= i < |server.defs| :: |server.defs[i]| == DEFINITION_SIZE)
    && (forall i | 0 <= i < |server.states| :: Tabled(server.states[i], i))
    && (forall i: nat | i < |server.defs| :: ValidDefsChunk(server, i))
    && (forall i: nat | i < |server.states| :: ValidStatesChunk(server, i))
  }

  predicate ValidDefsChunk(server: Server, i: nat) {
    var n := server.defsChunk(i);
    0 < n && i + n <= |server.defs| && HEADER_SIZE + DEFS_PREFIX + DEFINITION_SIZE * n <= MAX_RESPONSE
  }

  predicate ValidStatesChunk(server: Server, i: nat) {
    var n := server.statesChunk(i);
    && 0 < n && i + n <= |server.states|
    && AllSized(server.states[i..i + n])
    && HEADER_SIZE + STATES_PREFIX + |StatesBytes(server.states[i..i + n])| <= MAX_RESPONSE
  }

  // Answers

  function ResponseHeader(messageType: byte, size: u16, server: Server): PlcLink.Header {
    PlcLink.Header(MAGIC, VERSION, messageType, FLAG_RESPONSE, 0, 0, 1, size, server.generation, server.sequence)
  }

  function CapsAnswer(server: Server): seq<byte>
    requires |server.defs| < 0x1_0000
  {
    HeaderBytes(ResponseHeader(CAPS_RESPONSE, CAPS_SIZE, server)) +
    ([VERSION, 0] + Le16(0) + Le16(server.maxPayload) + Le16(|server.defs|) + Le32(server.generation) +
     Le32(server.sequence))
  }

  function More(more: bool): byte {
    if more then 1 else 0
  }

  function DefsPrefixBytes(server: Server, c: DefsChunk): (s: seq<byte>)
    requires |c.bytes| <= MAX_RESPONSE
    ensures |s| == DEFS_PREFIX
  {
    Le32(server.generation) + Le32(c.total) + Le16(c.points) + Le16(0) + Le32(c.offset) + Le16(|c.bytes|) +
    [More(c.more), 0]
  }

  function DefsAnswerBytes(server: Server, c: DefsChunk): seq<byte>
    requires |c.bytes| <= MAX_RESPONSE
  {
    HeaderBytes(ResponseHeader(DEFS_RESPONSE, DEFS_PREFIX + |c.bytes|, server)) +
    (DefsPrefixBytes(server, c) + c.bytes)
  }

  /** The chunk of definitions from record `i` on; an empty one behind the last. */
  function DefsChunkAt(server: Server, i: nat): DefsChunk
    requires |server.defs| < 0x1_0000 && i <= |server.defs|
    requires i < |server.defs| ==> ValidDefsChunk(server, i)
  {
    var n := if i < |server.defs| then server.defsChunk(i) else 0;
    DefsChunk(DEFINITION_SIZE * |server.defs|, |server.defs|, DEFINITION_SIZE * i, DefsBytes(server.defs[i..i + n]),
              i + n < |server.defs|)
  }

  function StatesPrefixBytes(c: StatesChunk): (s: seq<byte>)
    requires |c.records| <= MAX_RESPONSE
    ensures |s| == STATES_PREFIX
  {
    Le32(c.sequence) + Le16(c.points) + Le16(c.start) + Le16(|c.records|) + [More(c.more), 0]
  }

  function StatesAnswerBytes(server: Server, c: StatesChunk): seq<byte>
    requires AllSized(c.records) && |StatesBytes(c.records)| <= MAX_RESPONSE && |c.records| <= MAX_RESPONSE
  {
    HeaderBytes(ResponseHeader(STATES_RESPONSE, STATES_PREFIX + |StatesBytes(c.records)|, server)) +
    (StatesPrefixBytes(c) + StatesBytes(c.records))
  }

  function StatesChunkAt(server: Server, i: nat): StatesChunk
    requires |server.states| < 0x1_0000 && i <= |server.states|
    requires i < |server.states| ==> ValidStatesChunk(server, i)
  {
    var n := if i < |server.states| then server.statesChunk(i) else 0;
    StatesChunk(server.sequence, |server.states|, i, server.states[i..i + n], i + n < |server.states|)
  }

  // What the client reads in them

  lemma ResponseIsValid(messageType: byte, size: u16, server: Server, rest: seq<byte>)
    requires IsKnownType(messageType)
    ensures
      var h := ResponseHeader(messageType, size, server);
      DecodeHeader(HeaderBytes(h) + rest) == Some(h)
  {
    var h := ResponseHeader(messageType, size, server);
    assert IsValid(h);
    hide IsValid, HeaderBytes, ReadHeader;
    HeaderRoundTrip(h, rest);
  }

  lemma CapsAnswerReads(server: Server)
    requires |server.defs| < 0x1_0000
    ensures
      var payload := CapsAnswer(server);
      && |payload| == HEADER_SIZE + CAPS_SIZE
      && DecodeHeader(payload) == Some(ResponseHeader(CAPS_RESPONSE, CAPS_SIZE, server))
      && Fetch16(payload, 22) == server.maxPayload && Fetch16(payload, 24) == |server.defs|
      && Fetch32(payload, 26) == server.generation && Fetch32(payload, 30) == server.sequence
  {
    var payload := CapsAnswer(server);
    hide HeaderBytes, Le16, Le32, Fetch16, Fetch32, DecodeHeader;
    ResponseIsValid(CAPS_RESPONSE, CAPS_SIZE, server, payload[HEADER_SIZE..]);
    assert payload == HeaderBytes(ResponseHeader(CAPS_RESPONSE, CAPS_SIZE, server)) + payload[HEADER_SIZE..];
    FetchLe16(server.maxPayload, payload, 22);
    FetchLe16(|server.defs|, payload, 24);
    FetchLe32(server.generation, payload, 26);
    FetchLe32(server.sequence, payload, 30);
  }

  lemma DefsPrefixReads(head: seq<byte>, server: Server, c: DefsChunk)
    requires |head| == HEADER_SIZE && |c.bytes| <= MAX_RESPONSE
    ensures
      var payload := head + (DefsPrefixBytes(server, c) + c.bytes);
      && Fetch32(payload, 22) == c.total && Fetch16(payload, 26) == c.points
      && Fetch32(payload, 30) == c.offset && Fetch16(payload, 34) == |c.bytes|
      && payload[36] == More(c.more)
      && payload[HEADER_SIZE + DEFS_PREFIX..HEADER_SIZE + DEFS_PREFIX + |c.bytes|] == c.bytes
  {
    var prefix := DefsPrefixBytes(server, c);
    var payload := head + (prefix + c.bytes);
    hide Le16, Le32, Fetch16, Fetch32;
    PrefixParts(Le32(server.generation), Le32(c.total), Le16(c.points), Le16(0), Le32(c.offset), Le16(|c.bytes|),
                [More(c.more), 0]);
    hide DefsPrefixBytes, More;
    Behind(head, prefix, c.bytes, 4, 8);
    Behind(head, prefix, c.bytes, 8, 10);
    Behind(head, prefix, c.bytes, 12, 16);
    Behind(head, prefix, c.bytes, 16, 18);
    FetchLe32(c.total, payload, 22);
    FetchLe16(c.points, payload, 26);
    FetchLe32(c.offset, payload, 30);
    FetchLe16(|c.bytes|, payload, 34);
  }

  lemma PrefixParts(a: seq<byte>, b: seq<byte>, c: seq<byte>, d: seq<byte>, e: seq<byte>, f: seq<byte>, g: seq<byte>)
    requires |a| == |b| == |e| == 4 && |c| == |d| == |f| == |g| == 2
    ensures
      var s := a + b + c + d + e + f + g;
      s[4..8] == b && s[8..10] == c && s[12..16] == e && s[16..18] == f && s[18] == g[0]
  {
  }

  /** Part of a prefix in a payload. */
  lemma Behind(head: seq<byte>, prefix: seq<byte>, rest: seq<byte>, i: nat, j: nat)
    requires i <= j <= |prefix|
    ensures (head + (prefix + rest))[|head| + i..|head| + j] == prefix[i..j]
  {
  }

  lemma DefsAnswerReads(server: Server, c: DefsChunk)
    requires |c.bytes| <= MAX_RESPONSE
    ensures
      var payload := DefsAnswerBytes(server, c);
      var h := ResponseHeader(DEFS_RESPONSE, DEFS_PREFIX + |c.bytes|, server);
      && |payload| == HEADER_SIZE + DEFS_PREFIX + |c.bytes|
      && DecodeHeader(payload) == Some(h)
      && ReadDefs(payload, h) == Some(c)
  {
    var h := ResponseHeader(DEFS_RESPONSE, DEFS_PREFIX + |c.bytes|, server);
    DefsPrefixReads(HeaderBytes(h), server, c);
    ResponseIsValid(DEFS_RESPONSE, DEFS_PREFIX + |c.bytes|, server, DefsPrefixBytes(server, c) + c.bytes);
    hide HeaderBytes, Fetch16, Fetch32, DecodeHeader, DefsPrefixBytes;
  }

  lemma {:induction false} RecordsRead(records: seq<Cached>)
    requires AllSized(records)
    requires forall i | 0 <= i < |records| :: !records[i].HasText() ==> records[i].text == Zeros(TEXT_SIZE)
    ensures Records(StatesBytes(records), |records|) == Some(records)
    decreases records
  {
    if records != [] {
      var c, rest := records[0], StatesBytes(records[1..]);
      RecordsRead(records[1..]);
      var chunk := StatesBytes(records);
      assert chunk[..RECORD_SIZE] == c.record;
      if c.HasText() {
        assert chunk[RECORD_SIZE..RECORD_SIZE + TEXT_SIZE] == c.text && chunk[RECORD_SIZE + TEXT_SIZE..] == rest;
      } else {
        assert chunk[RECORD_SIZE..] == rest;
      }
      assert records == [c] + records[1..];
    }
  }

  lemma StatesPrefixReads(head: seq<byte>, c: StatesChunk, body: seq<byte>)
    requires |head| == HEADER_SIZE && |c.records| <= MAX_RESPONSE
    ensures
      var payload := head + (StatesPrefixBytes(c) + body);
      && Fetch32(payload, 18) == c.sequence && Fetch16(payload, 22) == c.points
      && Fetch16(payload, 24) == c.start && Fetch16(payload, 26) == |c.records|
      && payload[28] == More(c.more)
      && payload[HEADER_SIZE + STATES_PREFIX..] == body
  {
    var prefix := StatesPrefixBytes(c);
    var payload := head + (prefix + body);
    hide Le16, Le32, Fetch16, Fetch32;
    assert prefix[..4] == Le32(c.sequence) && prefix[4..6] == Le16(c.points) && prefix[6..8] == Le16(c.start);
    assert prefix[8..10] == Le16(|c.records|) && prefix[10] == More(c.more);
    hide StatesPrefixBytes, More;
    Behind(head, prefix, body, 0, 4);
    Behind(head, prefix, body, 4, 6);
    Behind(head, prefix, body, 6, 8);
    Behind(head, prefix, body, 8, 10);
    FetchLe32(c.sequence, payload, 18);
    FetchLe16(c.points, payload, 22);
    FetchLe16(c.start, payload, 24);
    FetchLe16(|c.records|, payload, 26);
  }

  /** A states answer whose fields read as the chunk's. */
  lemma StatesRead(payload: seq<byte>, h: Header, c: StatesChunk)
    requires |payload| >= HEADER_SIZE + STATES_PREFIX
    requires h.messageType == STATES_RESPONSE && h.payloadLength >= STATES_PREFIX
    requires Fetch32(payload, 18) == c.sequence && Fetch16(payload, 22) == c.points
    requires Fetch16(payload, 24) == c.start && Fetch16(payload, 26) == |c.records| && payload[28] == More(c.more)
    requires Records(ChunkOf(payload, h, STATES_PREFIX), |c.records|) == Some(c.records)
    ensures ReadStates(payload, h) == Some(c)
  {
    hide Fetch16, Fetch32, Records, ChunkOf;
  }

  lemma StatesAnswerReads(server: Server, c: StatesChunk)
    requires AllSized(c.records) && |StatesBytes(c.records)| <= MAX_RESPONSE && |c.records| <= MAX_RESPONSE
    requires forall i | 0 <= i < |c.records| :: !c.records[i].HasText() ==> c.records[i].text == Zeros(TEXT_SIZE)
    ensures
      var payload := StatesAnswerBytes(server, c);
      var h := ResponseHeader(STATES_RESPONSE, STATES_PREFIX + |StatesBytes(c.records)|, server);
      && |payload| == HEADER_SIZE + STATES_PREFIX + |StatesBytes(c.records)|
      && DecodeHeader(payload) == Some(h)
      && ReadStates(payload, h) == Some(c)
  {
    var body := StatesBytes(c.records);
    var h := ResponseHeader(STATES_RESPONSE, STATES_PREFIX + |body|, server);
    RecordsRead(c.records);
    StatesPrefixReads(HeaderBytes(h), c, body);
    ResponseIsValid(STATES_RESPONSE, STATES_PREFIX + |body|, server, StatesPrefixBytes(c) + body);
    var payload := StatesAnswerBytes(server, c);
    hide HeaderBytes, Fetch16, Fetch32, DecodeHeader, StatesPrefixBytes, StatesBytes, Records, Cached.HasText,
         Cached.Sized, Zeros, ReadStates;
    assert ChunkOf(payload, h, STATES_PREFIX) == body;
    StatesRead(payload, h, c);
  }

  lemma {:induction false} DefsBytesRead(defs: seq<Definition>)
    requires forall i | 0 <= i < |defs| :: |defs[i]| == DEFINITION_SIZE
    ensures |DefsBytes(defs)| == DEFINITION_SIZE * |defs| && |DefsBytes(defs)| % DEFINITION_SIZE == 0
    ensures Definitions(DefsBytes(defs)) == defs
    decreases defs
  {
    if defs != [] {
      DefsBytesRead(defs[1..]);
      var bytes := DefsBytes(defs);
      assert bytes[..DEFINITION_SIZE] == defs[0] && bytes[DEFINITION_SIZE..] == DefsBytes(defs[1..]);
      assert defs == [defs[0]] + defs[1..];
    }
  }

  lemma {:induction false} StatesBytesSize(records: seq<Cached>)
    requires AllSized(records)
    ensures RECORD_SIZE * |records| <= |StatesBytes(records)|
  {
    if records != [] {
      StatesBytesSize(records[1..]);
    }
  }
}
