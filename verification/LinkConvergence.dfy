/** Against a server with fixed tables, the client's caches converge to the tables. */
module LinkConvergence {
  import opened Bytes
  import opened PlcLink
  import opened LinkState
  import opened LinkPoll
  import opened LinkServer

  /** A poll that finds the mailbox empty. */
  const SENDING: Input := Input(0, 0, [], true, true, true, true)

  /** A poll that finds a response. */
  function Receiving(response: seq<byte>): Input {
    Input(0x70, 0, response, true, true, true, true)
  }

  /** The server's answer, at the requested position. */
  ghost function Answer(server: Server, request: Request): seq<byte>
    requires Valid(server)
  {
    match request
    case GetCaps => CapsAnswer(server)
    case GetDefs(offset, _, _) =>
      if offset % DEFINITION_SIZE == 0 && offset / DEFINITION_SIZE <= |server.defs| then
        DefsFit(server, offset / DEFINITION_SIZE);
        DefsAnswerBytes(server, DefsChunkAt(server, offset / DEFINITION_SIZE))
      else []
    case GetStates(start, _) =>
      if start <= |server.states| then
        StatesFit(server, start);
        StatesAnswerBytes(server, StatesChunkAt(server, start))
      else []
    case WriteState(_) => []
  }

  lemma DefsFit(server: Server, i: nat)
    requires Valid(server) && i <= |server.defs|
    ensures i < |server.defs| ==> ValidDefsChunk(server, i)
    ensures
      var c := DefsChunkAt(server, i);
      var n := |c.bytes| / DEFINITION_SIZE;
      && HEADER_SIZE + DEFS_PREFIX + |c.bytes| <= MAX_RESPONSE
      && |c.bytes| % DEFINITION_SIZE == 0
      && i + n <= |server.defs| && (n == 0 <==> i == |server.defs|)
      && Definitions(c.bytes) == server.defs[i..i + n]
      && c.more == (i + n < |server.defs|)
  {
    hide Tabled, ValidStatesChunk;
    var n := if i < |server.defs| then server.defsChunk(i) else 0;
    if i < |server.defs| {
      assert ValidDefsChunk(server, i);
    }
    DefsBytesRead(server.defs[i..i + n]);
  }

  lemma StatesFit(server: Server, j: nat)
    requires Valid(server) && j <= |server.states|
    ensures j < |server.states| ==> ValidStatesChunk(server, j)
    ensures
      var c := StatesChunkAt(server, j);
      var n := |c.records|;
      && AllSized(c.records) && HEADER_SIZE + STATES_PREFIX + |StatesBytes(c.records)| <= MAX_RESPONSE
      && n <= MAX_RESPONSE
      && j + n <= |server.states| && (n == 0 <==> j == |server.states|)
      && c.records == server.states[j..j + n] && c.more == (j + n < |server.states|)
      && forall i | 0 <= i < n :: Tabled(c.records[i], j + i)
  {
    hide ValidDefsChunk, Tabled, StatesBytes;
    if j < |server.states| {
      assert ValidStatesChunk(server, j);
    } else {
      EmptyBytes();
    }
    var c := StatesChunkAt(server, j);
    StatesBytesSize(c.records);
    forall i | 0 <= i < |c.records|
      ensures Tabled(c.records[i], j + i)
    {
      assert Tabled(server.states[j + i], j + i);
    }
  }

  lemma EmptyBytes()
    ensures StatesBytes([]) == []
  {
  }

  /** Polls while an answer is awaited. */
  function Waited(s: State, waits: seq<Input>): State
    decreases waits
  {
    if waits == [] then s else Waited(Poll(s, waits[0]).0, waits[1..])
  }

  /** They find no response, and before the capabilities the client's patience does not run out. */
  predicate Patient(s: State, waits: seq<Input>) {
    forall i | 0 <= i < |waits| ::
      && !waits[i].Bit5()
      && (!s.capsSeen ==> (waits[i].tick - s.capsTick) % 0x1_0000_0000 < CAPS_TIMEOUT)
  }

  /** A poll that sends a request, any polls that find nothing, and the poll that takes the answer. */
  ghost function Exchange(s: State, server: Server, waits: seq<Input>): State
    requires Valid(server)
  {
    var sent := Poll(s, SENDING);
    match sent.1
    case None => sent.0
    case Some(request) => Poll(Waited(sent.0, waits), Receiving(Answer(server, request))).0
  }

  ghost function Exchanges(s: State, server: Server, schedule: seq<seq<Input>>): State
    requires Valid(server)
    decreases schedule
  {
    hide Exchange, Valid;
    if schedule == [] then s else Exchanges(Exchange(s, server, schedule[0]), server, schedule[1..])
  }

  /** The schedule lets every answer come. */
  predicate AllPatient(schedule: seq<seq<Input>>) {
    forall k | 0 <= k < |schedule| :: forall i | 0 <= i < |schedule[k]| ::
        && !schedule[k][i].Bit5()
        && (k == 0 ==> schedule[k][i].tick < CAPS_TIMEOUT)
  }

  // Phases

  /** Nothing is under way but the snapshot. */
  predicate Calm(s: State) {
    && !s.capsSent && !s.defsSent && !s.statesSent && !s.resyncPending && !s.runtimeView && !s.refresh && !s.writeSent
    && s.write == None
  }

  predicate Introduced(s: State, server: Server) {
    && Calm(s) && s.capsSeen
    && s.points == |server.defs| && s.maxPayload == server.maxPayload && s.generation == server.generation
  }

  /** The first `i` definitions are in the cache. */
  predicate DefsPhase(s: State, server: Server, i: nat) {
    && Introduced(s, server) && !s.defsSeen && !s.statesSeen
    && i <= |server.defs| && s.nextDefs == DEFINITION_SIZE * i && s.nextStates == 0
    && (i > 0 ==>
          && |s.defs| == |server.defs| && s.defsTotal == DEFINITION_SIZE * |server.defs|
          && s.defs[..i] == server.defs[..i])
  }

  /** All definitions and the first `j` states are. */
  predicate StatesPhase(s: State, server: Server, j: nat) {
    && Introduced(s, server) && s.defsSeen && !s.statesSeen && s.defs == server.defs
    && j <= |server.states| && s.nextStates == j
    && (j > 0 ==> |s.states| == |server.states| && s.states[..j] == server.states[..j])
  }

  /** The caches are the server's tables, and that snapshot is the one shown. */
  predicate Converged(s: State, server: Server) {
    && Introduced(s, server) && s.defsSeen && s.statesSeen
    && s.defs == server.defs && s.states == server.states && s.sequence == server.sequence
    && s.published == Some(Snapshot(server.sequence, s.points, s.points, server.maxPayload))
  }

  // The polls of an exchange

  lemma ReceivingIs(response: seq<byte>)
    requires |response| <= MAX_RESPONSE
    ensures Receiving(response).Bit5() && Receiving(response).Received() == Some(response)
    ensures SENDING.CanSend() && !SENDING.Bit0() && !SENDING.Bit4() && !SENDING.Bit5() && !SENDING.Bit6() && SENDING.writeOk
  {
  }

  lemma PollSendsDefs(s: State)
    requires Calm(s) && s.capsSeen && !s.defsSeen && !s.statesSeen
    ensures Poll(s, SENDING) == SendDefs(s, SENDING)
  {
    ReceivingIs([]);
    hide SENDING, SendDefs, SendStates, SendCaps, Taking, Input.Bit0, Input.Bit4, Input.Bit5, Input.Bit6, Input.CanSend,
         PollStates, PollCaps, Recover;
  }

  lemma PollTakesDefs(s: State, response: seq<byte>)
    requires Calm(s.(defsSent := false)) && s.capsSeen && s.defsSent && !s.defsSeen && !s.statesSeen
    requires |response| <= MAX_RESPONSE
    ensures Poll(s, Receiving(response)) == (OnDefs(s, response), None)
  {
    ReceivingIs(response);
    hide SendDefs, SendStates, SendCaps, OnDefs, Input.Bit0, Input.Bit4, Input.Bit5, Input.Bit6, Input.CanSend,
         Input.Received, PollCaps, Recover, Receiving;
  }

  lemma PollSendsStates(s: State)
    requires Calm(s) && s.capsSeen && s.defsSeen && !s.statesSeen
    ensures Poll(s, SENDING) == SendStates(s, s.nextStates, SENDING)
  {
    ReceivingIs([]);
    hide SENDING, SendDefs, SendStates, SendCaps, Taking, Input.Bit0, Input.Bit4, Input.Bit5, Input.Bit6, Input.CanSend,
         PollCaps, Recover;
  }

  lemma PollTakesStates(s: State, response: seq<byte>)
    requires Calm(s.(statesSent := false)) && s.capsSeen && s.statesSent && s.defsSeen && !s.statesSeen
    requires |response| <= MAX_RESPONSE
    ensures Poll(s, Receiving(response)) == (OnStates(s, response), None)
  {
    ReceivingIs(response);
    hide SendDefs, SendStates, SendCaps, OnStates, Input.Bit0, Input.Bit4, Input.Bit5, Input.Bit6, Input.CanSend,
         Input.Received, PollCaps, Recover, Receiving;
  }

  /** A request is under way: a poll that finds nothing leaves everything as it is. */
  predicate Awaiting(s: State) {
    && !s.resyncPending && !s.refresh && !s.writeSent && s.write == None && !s.statesSeen
    && if !s.capsSeen then s.capsSent && !s.defsSeen && !s.defsSent
       else if !s.defsSeen then s.defsSent
       else s.statesSent
  }

  lemma WaitKeeps(s: State, in_: Input)
    requires Awaiting(s) && Patient(s, [in_])
    ensures Poll(s, in_) == (s, None)
  {
    assert [in_][0] == in_;
    assert !in_.Bit5() && (!s.capsSeen ==> (in_.tick - s.capsTick) % 0x1_0000_0000 < CAPS_TIMEOUT);
    hide Patient, Input.Bit0, Input.Bit4, Input.Bit5, Input.Bit6, Input.CanSend, Input.Received, SendCaps, SendDefs,
         SendStates, Taking, Resync, Recover;
  }

  lemma {:induction false} WaitsKeep(s: State, waits: seq<Input>)
    requires Awaiting(s) && Patient(s, waits)
    ensures Waited(s, waits) == s
    decreases waits
  {
    hide Poll, Awaiting, Input.Bit5;
    if waits != [] {
      WaitKeeps(s, waits[0]);
      WaitsKeep(s, waits[1..]);
    }
  }

  // Capabilities

  lemma CapsExchange(server: Server, waits: seq<Input>)
    requires Valid(server) && Patient(INITIAL, waits)
    ensures DefsPhase(Exchange(INITIAL, server, waits), server, 0)
  {
    var payload := CapsAnswer(server);
    FirstPoll();
    CapsAnswerReads(server);
    var sent := INITIAL.(capsSent := true, capsTick := 0);
    CapsPoll(sent, payload);
    CapsTaken(sent, payload, server);
    WaitsKeep(sent, waits);
    hide Poll, OnCaps, CapsAnswer, DefsPhase, Receiving, Waited, Valid, Patient, Awaiting, DecodeHeader;
  }

  lemma FirstPoll()
    ensures Poll(INITIAL, SENDING) == (INITIAL.(capsSent := true, capsTick := 0), Some(GetCaps))
  {
    ReceivingIs([]);
    hide Input.Bit0, Input.Bit4, Input.Bit5, Input.Bit6, Input.CanSend, PollSnapshot, PollStates;
  }

  lemma CapsPoll(s: State, response: seq<byte>)
    requires s.capsSent && !s.capsSeen && !s.resyncPending && !s.writeSent && !s.refresh && s.write == None
    requires |response| <= MAX_RESPONSE
    ensures Poll(s, Receiving(response)) == (OnCaps(s, response), None)
  {
    ReceivingIs(response);
    hide OnCaps, Input.Bit0, Input.Bit4, Input.Bit5, Input.Bit6, Input.CanSend, Input.Received, PollSnapshot, Recover,
         Receiving;
  }

  lemma CapsTaken(s: State, payload: seq<byte>, server: Server)
    requires Valid(server) && s == INITIAL.(capsSent := true, capsTick := 0) && payload == CapsAnswer(server)
    ensures DefsPhase(OnCaps(s, payload), server, 0)
  {
    CapsAnswerReads(server);
    hide CapsAnswer, DecodeHeader, Fetch16, Fetch32, Valid;
    assert OnCaps(s, payload) == TakeCaps(s, payload);
  }

  // Definitions

  lemma OverlayPrefix(s: seq<Definition>, table: seq<Definition>, i: nat, n: nat)
    requires |s| == |table| && i + n <= |table| && s[..i] == table[..i]
    ensures Overlay(s, i, table[i..i + n])[..i + n] == table[..i + n]
  {
  }

  /** Sending asks for the next definitions and keeps the phase. */
  lemma DefsSent(s: State, server: Server, i: nat)
    requires Valid(server) && DefsPhase(s, server, i)
    ensures
      var r := Poll(s, SENDING);
      && r.1 == Some(GetDefs(DEFINITION_SIZE * i, DefsRoom(s.maxPayload), s.generation))
      && r.0.defsSent && DefsPhase(r.0.(defsSent := false), server, i)
      && (i == 0 ==> r.0.defs == [] && r.0.defsTotal == 0)
  {
    PollSendsDefs(s);
    ReceivingIs([]);
    hide Poll, DefsRoom, SENDING, Tabled, ValidDefsChunk, ValidStatesChunk;
  }

  lemma DefsStored(s: State, server: Server, i: nat, c: DefsChunk)
    requires Valid(server) && s.defsSent && DefsPhase(s.(defsSent := false), server, i)
    requires i == 0 ==> s.defs == [] && s.defsTotal == 0
    requires c == DefsChunkAt(server, i)
    ensures
      var n := |c.bytes| / DEFINITION_SIZE;
      var stored := StoreDefs(s.(defsSent := false), c);
      && i + n <= |server.defs| && c.more == (i + n < |server.defs|)
      && |stored.defs| == |server.defs| && stored.defs[..i + n] == server.defs[..i + n]
      && stored.defsTotal == DEFINITION_SIZE * |server.defs|
      && stored == s.(defsSent := false, defs := stored.defs, defsTotal := stored.defsTotal, defsLoaded := stored.defsLoaded)
  {
    DefsFit(server, i);
    var n := |c.bytes| / DEFINITION_SIZE;
    var begun := s.(defsSent := false);
    var sized := SizedDefs(begun, c);
    hide Valid, Definitions, DefsBytes, Overlay, ValidDefsChunk;
    if i == 0 {
      if |server.defs| > 0 {
        assert sized == begun.(defs := NoDefinitions(c.points), defsTotal := c.total, defsLoaded := 0);
      } else {
        assert sized == begun;
      }
    } else {
      assert sized == begun;
    }
    assert |sized.defs| == |server.defs| && sized.defs[..i] == server.defs[..i];
    OverlayPrefix(sized.defs, server.defs, i, n);
    Aligned(i);
  }

  lemma Aligned(i: nat)
    ensures DEFINITION_SIZE * i % DEFINITION_SIZE == 0 && DEFINITION_SIZE * i / DEFINITION_SIZE == i
  {
  }

  /** One exchange takes the cache further by at least one definition, or to the states. */
  predicate DefsAdvance(s: State, server: Server, i: nat, next: nat) {
    if next < |server.defs| then i < next && DefsPhase(s, server, next)
    else next == |server.defs| && StatesPhase(s, server, 0)
  }

  function DefsCount(c: DefsChunk): nat {
    |c.bytes| / DEFINITION_SIZE
  }

  lemma DefsPlace(s: State, server: Server, i: nat)
    requires Valid(server) && DefsPhase(s, server, i)
    ensures i <= |server.defs| < 0x1_0000
  {
  }

  lemma OffsetAdvances(offset: nat, size: nat, i: nat, n: nat)
    requires offset == DEFINITION_SIZE * i && size % DEFINITION_SIZE == 0 && n == size / DEFINITION_SIZE
    requires i + n < 0x1_0000
    ensures (offset + size) % 0x1_0000_0000 == DEFINITION_SIZE * (i + n)
  {
  }

  lemma DefsTaken(s: State, server: Server, i: nat, c: DefsChunk)
    requires Valid(server) && s.defsSent && DefsPhase(s.(defsSent := false), server, i)
    requires i == 0 ==> s.defs == [] && s.defsTotal == 0
    requires c == DefsChunkAt(server, i)
    ensures DefsAdvance(TakeDefs(s, c), server, i, i + DefsCount(c))
  {
    DefsFit(server, i);
    DefsStored(s, server, i, c);
    var n := DefsCount(c);
    var stored := StoreDefs(s.(defsSent := false), c);
    var taken := TakeDefs(s, c);
    assert c.offset == DEFINITION_SIZE * i && |server.defs| < 0x1_0000;
    OffsetAdvances(c.offset, |c.bytes|, i, n);
    assert taken == stored.(nextDefs := DEFINITION_SIZE * (i + n), defsSeen := s.defsSeen || !c.more);
    hide Valid, StoreDefs, Definitions, DefsBytes, ValidDefsChunk, DefsChunkAt, TakeDefs, DefsCount;
    if i + n == |server.defs| {
      assert stored.defs[..i + n] == stored.defs && server.defs[..i + n] == server.defs;
    }
  }

  lemma DefsAnswered(s: State, server: Server, i: nat)
    requires Valid(server) && DefsPhase(s, server, i)
    ensures i < |server.defs| ==> ValidDefsChunk(server, i)
    ensures |DefsChunkAt(server, i).bytes| <= MAX_RESPONSE
    ensures Answer(server, GetDefs(DEFINITION_SIZE * i, DefsRoom(s.maxPayload), s.generation)) ==
            DefsAnswerBytes(server, DefsChunkAt(server, i))
  {
    DefsFit(server, i);
    Aligned(i);
    hide Valid, DefsAnswerBytes, DefsChunkAt, ValidDefsChunk;
  }

  lemma DefsExchange(s: State, server: Server, i: nat, waits: seq<Input>) returns (next: nat)
    requires Valid(server) && DefsPhase(s, server, i) && Unanswered(waits)
    ensures DefsAdvance(Exchange(s, server, waits), server, i, next)
  {
    hide *;
    DefsSent(s, server, i);
    DefsPlace(s, server, i);
    DefsFit(server, i);
    DefsAnswered(s, server, i);
    var sent := Poll(s, SENDING).0;
    var c := DefsChunkAt(server, i);
    DefsAnswerReads(server, c);
    DefsSmall(server, i);
    var payload := DefsAnswerBytes(server, c);
    DefsPhaseIs(sent, server, i);
    NothingComes(sent, waits);
    WaitsKeep(sent, waits);
    PollTakesDefs(sent, payload);
    OnDefsAnswer(sent, server, c);
    DefsTaken(sent, server, i, c);
    next := i + DefsCount(c);
    ExchangeIs(s, server, waits, GetDefs(DEFINITION_SIZE * i, DefsRoom(s.maxPayload), s.generation));
  }

  lemma DefsSmall(server: Server, i: nat)
    requires Valid(server) && i <= |server.defs|
    ensures i < |server.defs| ==> ValidDefsChunk(server, i)
    ensures HEADER_SIZE + DEFS_PREFIX + |DefsChunkAt(server, i).bytes| <= MAX_RESPONSE
  {
    DefsFit(server, i);
  }

  lemma DefsPhaseIs(s: State, server: Server, i: nat)
    requires s.defsSent && DefsPhase(s.(defsSent := false), server, i)
    ensures Awaiting(s)
    ensures Calm(s.(defsSent := false)) && s.capsSeen && !s.defsSeen && !s.statesSeen
  {
  }

  lemma OnDefsAnswer(s: State, server: Server, c: DefsChunk)
    requires |c.bytes| <= MAX_RESPONSE
    ensures OnDefs(s, DefsAnswerBytes(server, c)) == TakeDefs(s, c)
  {
    DefsAnswerReads(server, c);
    hide DefsAnswerBytes, DecodeHeader, ReadDefs, TakeDefs, ProcessFrame;
  }

  lemma ExchangeIs(s: State, server: Server, waits: seq<Input>, request: Request)
    requires Valid(server) && Poll(s, SENDING).1 == Some(request)
    ensures Exchange(s, server, waits) == Poll(Waited(Poll(s, SENDING).0, waits), Receiving(Answer(server, request))).0
  {
    hide Poll, Valid, Answer, Waited;
  }

  predicate Unanswered(waits: seq<Input>) {
    forall i | 0 <= i < |waits| :: !waits[i].Bit5()
  }

  lemma NothingComes(s: State, waits: seq<Input>)
    requires s.capsSeen && Unanswered(waits)
    ensures Patient(s, waits)
  {
    hide Input.Bit5;
  }

  // States

  lemma StatesSent(s: State, server: Server, j: nat)
    requires Valid(server) && StatesPhase(s, server, j)
    ensures
      var r := Poll(s, SENDING);
      && r.1 == Some(GetStates(j, StatesRoom(s.maxPayload)))
      && r.0.statesSent && StatesPhase(r.0.(statesSent := false), server, j)
      && |r.0.states| == |server.states|
  {
    PollSendsStates(s);
    ReceivingIs([]);
    hide Poll, StatesRoom, SENDING, Tabled, ValidDefsChunk, ValidStatesChunk;
  }

  lemma RunShifts<T>(states: seq<T>, records: seq<T>, j: nat)
    requires records != [] && j + |records| <= |states|
    ensures
      var next, rest := states[j := records[0]], records[1..];
      next[..j + 1] + rest + next[j + 1 + |rest|..] == states[..j] + records + states[j + |records|..]
  {
  }

  /** Records for consecutive points land where they belong. */
  lemma {:induction false} PlacedRun(states: seq<Cached>, records: seq<Cached>, j: nat)
    requires AllSized(records) && j + |records| <= |states|
    requires forall i | 0 <= i < |records| :: records[i].Point() == j + i
    ensures Placed(states, records) == states[..j] + records + states[j + |records|..]
    decreases records
  {
    hide Cached.Sized, Cached.Point;
    if records == [] {
      assert states == states[..j] + [] + states[j..];
    } else {
      var rest := records[1..];
      var next := states[j := records[0]];
      PlacedFirst(states, records, j);
      hide Placed;
      forall i | 0 <= i < |rest|
        ensures rest[i].Sized() && rest[i].Point() == j + 1 + i
      {
        assert rest[i] == records[i + 1];
      }
      PlacedRun(next, rest, j + 1);
      RunShifts(states, records, j);
    }
  }

  lemma PlacedFirst(states: seq<Cached>, records: seq<Cached>, j: nat)
    requires AllSized(records) && records != [] && j < |states| && records[0].Point() == j
    ensures AllSized(records[1..]) && Placed(states, records) == Placed(states[j := records[0]], records[1..])
  {
    hide Cached.Sized, Cached.Point;
  }

  lemma PointsOf(server: Server, j: nat)
    requires Valid(server) && j <= |server.states|
    ensures j < |server.states| ==> ValidStatesChunk(server, j)
    ensures
      var records := StatesChunkAt(server, j).records;
      && AllSized(records)
      && (forall i | 0 <= i < |records| :: records[i].Point() == j + i)
      && forall i | 0 <= i < |records| :: !records[i].HasText() ==> records[i].text == Zeros(TEXT_SIZE)
  {
    StatesFit(server, j);
    var records := StatesChunkAt(server, j).records;
    hide Valid, ValidStatesChunk, StatesChunkAt, Zeros, Cached.Point, Cached.HasText;
    forall i | 0 <= i < |records|
      ensures records[i].Point() == j + i && (!records[i].HasText() ==> records[i].text == Zeros(TEXT_SIZE))
    {
      assert Tabled(records[i], j + i);
    }
  }

  predicate StatesAdvance(s: State, server: Server, j: nat, next: nat) {
    if next < |server.states| then j < next && StatesPhase(s, server, next)
    else next == |server.states| && Converged(s, server)
  }

  lemma StatesStored(s: State, server: Server, j: nat, c: StatesChunk)
    requires Valid(server) && s.statesSent && StatesPhase(s.(statesSent := false), server, j)
    requires |s.states| == |server.states| && c == StatesChunkAt(server, j) && AllSized(c.records)
    ensures
      var n := |c.records|;
      var stored := StoreStates(s, c);
      && j + n <= |server.states| && c.more == (j + n < |server.states|) && (c.more ==> n > 0)
      && |stored.states| == |server.states| && stored.states[..j + n] == server.states[..j + n]
      && stored.sequence == server.sequence && stored.nextStates == j + n
      && stored == s.(statesSent := false, states := stored.states, sequence := stored.sequence,
                      nextStates := stored.nextStates, recordCount := stored.recordCount)
  {
    hide *;
    StatesPlace(s.(statesSent := false), server, j);
    StatesFit(server, j);
    PointsOf(server, j);
    StatesAre(s, server, j);
    var n := |c.records|;
    ChunkIs(server, j);
    assert |s.states| >= j + n;
    PlacedRun(s.states, c.records, j);
    assert server.states[..j + n] == server.states[..j] + server.states[j..j + n];
    StoreStatesIs(s, c);
    assert j + n < 0x1_0000;
  }

  lemma ChunkIs(server: Server, j: nat)
    requires |server.states| < 0x1_0000 && j <= |server.states|
    requires j < |server.states| ==> ValidStatesChunk(server, j)
    ensures
      var c := StatesChunkAt(server, j);
      c.start == j && c.points == |server.states| && c.sequence == server.sequence
  {
    hide StatesBytes, Cached.Sized;
  }

  lemma StatesAre(s: State, server: Server, j: nat)
    requires StatesPhase(s.(statesSent := false), server, j) && |s.states| == |server.states|
    ensures j <= |s.states| && s.states[..j] == server.states[..j] && !s.runtimeView
  {
  }

  lemma StoreStatesIs(s: State, c: StatesChunk)
    requires AllSized(c.records) && c.points <= |s.states| && !s.runtimeView && (c.more ==> c.records != [])
    ensures
      var stored := StoreStates(s, c);
      && stored.states == Placed(s.states, c.records)
      && stored.sequence == c.sequence
      && stored.nextStates == (c.start + |c.records|) % 0x1_0000
      && stored == s.(statesSent := false, states := stored.states, sequence := stored.sequence,
                      nextStates := stored.nextStates, recordCount := stored.recordCount)
  {
    assert Grown(s.states, c.points) == s.states;
    hide Placed, Grown, Cached.Sized;
  }

  lemma StatesTaken(s: State, server: Server, j: nat, c: StatesChunk)
    requires Valid(server) && s.statesSent && StatesPhase(s.(statesSent := false), server, j)
    requires |s.states| == |server.states| && c == StatesChunkAt(server, j) && AllSized(c.records)
    ensures StatesAdvance(TakeStates(s, c), server, j, j + |c.records|)
  {
    StatesStored(s, server, j, c);
    var n := |c.records|;
    var stored := StoreStates(s, c);
    assert |server.defs| == |server.states|;
    assert c.sequence == server.sequence;
    hide Valid, StoreStates, StatesBytes, ValidStatesChunk;
    if j + n == |server.states| {
      assert stored.states[..j + n] == stored.states && server.states[..j + n] == server.states;
    }
  }

  lemma StatesAnswered(s: State, server: Server, j: nat)
    requires Valid(server) && StatesPhase(s, server, j)
    ensures j < |server.states| ==> ValidStatesChunk(server, j)
    ensures
      var c := StatesChunkAt(server, j);
      && AllSized(c.records) && |StatesBytes(c.records)| <= MAX_RESPONSE && |c.records| <= MAX_RESPONSE
      && |StatesAnswerBytes(server, c)| <= MAX_RESPONSE
      && Answer(server, GetStates(j, StatesRoom(s.maxPayload))) == StatesAnswerBytes(server, c)
  {
    hide *;
    StatesPlace(s, server, j);
    StatesFit(server, j);
    PointsOf(server, j);
    StatesAnswerReads(server, StatesChunkAt(server, j));
    AnswerStates(server, j, StatesRoom(s.maxPayload));
    SmallAnswer(|StatesBytes(StatesChunkAt(server, j).records)|);
  }

  lemma SmallAnswer(n: nat)
    requires HEADER_SIZE + STATES_PREFIX + n <= MAX_RESPONSE
    ensures n <= MAX_RESPONSE
  {
  }

  lemma AnswerStates(server: Server, j: nat, room: u16)
    requires Valid(server) && j <= |server.states| < 0x1_0000
    ensures j < |server.states| ==> ValidStatesChunk(server, j)
    ensures
      var c := StatesChunkAt(server, j);
      && AllSized(c.records) && |StatesBytes(c.records)| <= MAX_RESPONSE && |c.records| <= MAX_RESPONSE
      && Answer(server, GetStates(j, room)) == StatesAnswerBytes(server, c)
  {
    StatesFit(server, j);
    hide Valid, StatesAnswerBytes, StatesChunkAt, ValidStatesChunk, StatesBytes, Cached.Sized, Tabled;
  }

  lemma StatesPhaseIs(s: State, server: Server, j: nat)
    requires s.statesSent && StatesPhase(s.(statesSent := false), server, j)
    ensures Awaiting(s)
    ensures Calm(s.(statesSent := false)) && s.capsSeen && s.defsSeen && !s.statesSeen
  {
  }

  lemma OnStatesAnswer(s: State, server: Server, c: StatesChunk)
    requires AllSized(c.records) && |StatesBytes(c.records)| <= MAX_RESPONSE && |c.records| <= MAX_RESPONSE
    requires forall i | 0 <= i < |c.records| :: !c.records[i].HasText() ==> c.records[i].text == Zeros(TEXT_SIZE)
    ensures OnStates(s, StatesAnswerBytes(server, c)) == TakeStates(s, c)
  {
    StatesAnswerReads(server, c);
    hide StatesAnswerBytes, DecodeHeader, ReadStates, TakeStates, ProcessFrame, StatesBytes;
  }

  lemma StatesExchange(s: State, server: Server, j: nat, waits: seq<Input>) returns (next: nat)
    requires Valid(server) && StatesPhase(s, server, j) && Unanswered(waits)
    ensures StatesAdvance(Exchange(s, server, waits), server, j, next)
  {
    hide *;
    StatesSent(s, server, j);
    StatesPlace(s, server, j);
    StatesFit(server, j);
    PointsOf(server, j);
    StatesAnswered(s, server, j);
    var sent := Poll(s, SENDING).0;
    var c := StatesChunkAt(server, j);
    StatesPhaseIs(sent, server, j);
    NothingComes(sent, waits);
    WaitsKeep(sent, waits);
    PollTakesStates(sent, StatesAnswerBytes(server, c));
    OnStatesAnswer(sent, server, c);
    StatesTaken(sent, server, j, c);
    next := j + |c.records|;
    ExchangeIs(s, server, waits, GetStates(j, StatesRoom(s.maxPayload)));
  }

  lemma StatesPlace(s: State, server: Server, j: nat)
    requires Valid(server) && StatesPhase(s, server, j)
    ensures j <= |server.states| < 0x1_0000
  {
  }

  // Convergence

  predicate AllUnanswered(schedule: seq<seq<Input>>) {
    forall k | 0 <= k < |schedule| :: Unanswered(schedule[k])
  }

  /** A table of `n` records takes at most this many exchanges. */
  function Chunks(n: nat): nat {
    if n == 0 then 1 else n
  }

  lemma FirstOf(s: State, server: Server, schedule: seq<seq<Input>>, n: nat)
    requires Valid(server) && 0 < n <= |schedule|
    ensures Exchanges(s, server, schedule[..n]) ==
            Exchanges(Exchange(s, server, schedule[0]), server, schedule[1..][..n - 1])
  {
    hide Valid, Exchange;
    assert schedule[..n][1..] == schedule[1..][..n - 1];
  }

  lemma NoExchange(s: State, server: Server, schedule: seq<seq<Input>>)
    requires Valid(server)
    ensures Exchanges(s, server, schedule[..0]) == s
  {
    hide Valid;
  }

  lemma {:induction false} StatesConverge(s: State, server: Server, j: nat, schedule: seq<seq<Input>>)
    returns (n: nat)
    requires Valid(server) && StatesPhase(s, server, j) && j <= |server.states|
    requires AllUnanswered(schedule) && Chunks(|server.states| - j) <= |schedule|
    ensures n <= Chunks(|server.states| - j) && Converged(Exchanges(s, server, schedule[..n]), server)
    decreases |server.states| - j
  {
    hide Valid, StatesPhase, Converged, Exchange, Exchanges, Unanswered;
    var next := StatesExchange(s, server, j, schedule[0]);
    var after := Exchange(s, server, schedule[0]);
    if next < |server.states| {
      var m := StatesConverge(after, server, next, schedule[1..]);
      n := m + 1;
    } else {
      n := 1;
      NoExchange(after, server, schedule[1..]);
    }
    FirstOf(s, server, schedule, n);
  }

  lemma {:induction false} DefsConverge(s: State, server: Server, i: nat, schedule: seq<seq<Input>>)
    returns (n: nat)
    requires Valid(server) && DefsPhase(s, server, i) && i <= |server.defs|
    requires AllUnanswered(schedule) && Chunks(|server.defs| - i) + Chunks(|server.states|) <= |schedule|
    ensures n <= Chunks(|server.defs| - i) + Chunks(|server.states|)
    ensures Converged(Exchanges(s, server, schedule[..n]), server)
    decreases |server.defs| - i
  {
    hide Valid, StatesPhase, DefsPhase, Converged, Exchange, Exchanges, Unanswered;
    var next := DefsExchange(s, server, i, schedule[0]);
    var after := Exchange(s, server, schedule[0]);
    var m;
    if next < |server.defs| {
      m := DefsConverge(after, server, next, schedule[1..]);
    } else {
      m := StatesConverge(after, server, 0, schedule[1..]);
    }
    n := m + 1;
    FirstOf(s, server, schedule, n);
  }

  /** Convergence. Against any server that answers each request from fixed tables with a record-aligned,
      non-empty chunk at the requested position, whatever number of polls it takes for an answer to come,
      a fresh client ends after one exchange for the capabilities and at most one for each record with
      caches equal to the tables, texts included. */
  lemma ClientConverges(server: Server, schedule: seq<seq<Input>>) returns (n: nat)
    requires Valid(server) && AllPatient(schedule)
    requires 1 + Chunks(|server.defs|) + Chunks(|server.states|) <= |schedule|
    ensures n <= 1 + Chunks(|server.defs|) + Chunks(|server.states|)
    ensures Converged(Exchanges(INITIAL, server, schedule[..n]), server)
  {
    hide Valid, DefsPhase, Converged, Exchange, Exchanges, Input.Bit5;
    CapsExchange(server, schedule[0]);
    var m := DefsConverge(Exchange(INITIAL, server, schedule[0]), server, 0, schedule[1..]);
    n := m + 1;
    FirstOf(INITIAL, server, schedule, n);
  }
}
