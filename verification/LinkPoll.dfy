/** One poll of the plcLink client, and what holds over any run of polls. */
module LinkPoll {
  import opened Bytes
  import opened PlcLink
  import opened LinkState

  /** The ticks after which a request for capabilities is given up. */
  const CAPS_TIMEOUT: u32 := 250

  datatype Request =
    | GetCaps
    | GetDefs(offset: u32, room: u16, generation: u32)
    | GetStates(start: u16, records: u16)
    | WriteState(request: WriteRequest)

  /** What the device answers during a poll: the mailbox status, the response waiting in it, and which
      transfers succeed. */
  datatype Input = Input(status: u16, tick: u32, response: seq<byte>, readOk: bool, clearOk: bool, writeOk: bool,
                         controlOk: bool) {
    predicate Bit0() { status % 2 == 1 }
    predicate Bit4() { status / 0x10 % 2 == 1 }
    predicate Bit5() { status / 0x20 % 2 == 1 }
    predicate Bit6() { status / 0x40 % 2 == 1 }

    predicate CanSend() { !Bit0() }

    /** The response, read and acknowledged. */
    function Received(): Option<seq<byte>> {
      if readOk && |response| <= MAX_RESPONSE && clearOk then Some(response) else None
    }
  }

  type Step = (State, Option<Request>)

  // Sending

  function SendCaps(s: State, in_: Input): Step {
    if in_.writeOk then (s.(capsSent := true, capsTick := in_.tick), Some(GetCaps)) else (s, None)
  }

  /** send_defs_snapshot_request */
  function SendDefs(s: State, in_: Input): Step {
    var room := DefsRoom(s.maxPayload);
    if room == 0 || !in_.writeOk then (s, None)
    else
      var sent := s.(defsSent := true);
      (if s.nextDefs == 0 then ResetDefs(sent) else sent, Some(GetDefs(s.nextDefs, room, s.generation)))
  }

  /** send_states_snapshot_request */
  function SendStates(s: State, start: u16, in_: Input): Step {
    var room := StatesRoom(s.maxPayload);
    if room == 0 || !in_.writeOk then (s, None)
    else
      var sent := s.(statesSent := true);
      (if start == 0 && !s.runtimeView then ResetStates(sent.(recordCount := 0), s.points) else sent,
       Some(GetStates(start, room)))
  }

  // Responses

  /** A capabilities response starts over with the definitions, unless they were to be kept and their
      generation is still the same. */
  function TakeCaps(s: State, payload: seq<byte>): State
    requires HEADER_SIZE + CAPS_SIZE <= |payload|
  {
    var generation := Fetch32(payload, 26);
    var keep := s.preserveDefs && s.defsSeen && generation == s.generation;
    var answered := s.(
      capsSent := false, capsSeen := true, capsTick := 0, points := Fetch16(payload, 24),
      maxPayload := Fetch16(payload, 22), generation := generation, sequence := Fetch32(payload, 30),
      defsSent := false, defsSeen := keep, nextDefs := if keep then s.nextDefs else 0, resyncPending := false,
      preserveDefs := false);
    var cleared := if s.runtimeView then answered else ResetStates(answered, answered.points);
    if keep then cleared else ResetDefs(cleared)
  }

  function OnCaps(s: State, payload: seq<byte>): State {
    match DecodeHeader(payload)
    case None => s
    case Some(h) =>
      if h.messageType == CAPS_RESPONSE then if |payload| < HEADER_SIZE + CAPS_SIZE then s else TakeCaps(s, payload)
      else if h.messageType == UPDATES_RESPONSE then
        match ReadUpdate(payload, h) {
          case None => s
          case Some(update) => StoreUpdates(s, update.records, update.sequence)
        }
      else s
  }

  function ReadDefs(payload: seq<byte>, h: Header): Option<DefsChunk> {
    if |payload| < HEADER_SIZE + DEFS_PREFIX || h.messageType != DEFS_RESPONSE then None
    else
      var size := Fetch16(payload, 34);
      var expected := DEFS_PREFIX + size;
      if h.payloadLength < expected || |payload| < HEADER_SIZE + expected then None
      else
        Some(DefsChunk(Fetch32(payload, 22), Fetch16(payload, 26), Fetch32(payload, 30),
                       payload[HEADER_SIZE + DEFS_PREFIX..HEADER_SIZE + expected], payload[36] != 0))
  }

  function TakeDefs(s: State, c: DefsChunk): State {
    var stored := StoreDefs(s.(defsSent := false), c);
    stored.(nextDefs := (c.offset + |c.bytes|) % 0x1_0000_0000, defsSeen := s.defsSeen || !c.more)
  }

  function OnDefs(s: State, payload: seq<byte>): State {
    match DecodeHeader(payload)
    case None => s
    case Some(h) =>
      if h.messageType == UPDATES_RESPONSE then ProcessFrame(s, payload, h)
      else
        match ReadDefs(payload, h)
        case None => s
        case Some(c) => TakeDefs(s, c)
  }

  function ReadStates(payload: seq<byte>, h: Header): (r: Option<StatesChunk>)
    ensures r.Some? ==> forall i | 0 <= i < |r.value.records| :: r.value.records[i].Sized()
  {
    if |payload| < HEADER_SIZE + STATES_PREFIX || h.messageType != STATES_RESPONSE || h.payloadLength < STATES_PREFIX
    then None
    else
      match Records(ChunkOf(payload, h, STATES_PREFIX), Fetch16(payload, 26))
      case None => None
      case Some(records) =>
        Some(StatesChunk(Fetch32(payload, 18), Fetch16(payload, 22), Fetch16(payload, 24), records, payload[28] != 0))
  }

  /** A chunk taken, but for what finishing the snapshot does. A chunk without records that announces
      more leaves the start of the next request alone. */
  function StoreStates(s: State, c: StatesChunk): State
    requires forall i | 0 <= i < |c.records| :: c.records[i].Sized()
  {
    var counted := if s.runtimeView then s else s.(recordCount := (s.recordCount + |c.records|) % 0x1_0000);
    var stored := StoreSnapshot(counted, c).(statesSent := false);
    if c.more && c.records == [] then stored
    else stored.(nextStates := (c.start + |c.records|) % 0x1_0000)
  }

  /** Finishing a snapshot records it. */
  function Finished(s: State, c: StatesChunk): Snapshot
    requires forall i | 0 <= i < |c.records| :: c.records[i].Sized()
  {
    Snapshot(c.sequence, s.points, Min(s.points, |StoreStates(s, c).states|), s.maxPayload)
  }

  function TakeStates(s: State, c: StatesChunk): State
    requires forall i | 0 <= i < |c.records| :: c.records[i].Sized()
  {
    var stored := StoreStates(s, c);
    if c.more then stored
    else
      stored.(statesSeen := true, runtimeView := false, recordCount := Finished(s, c).loaded,
              published := Some(Finished(s, c)))
  }

  function OnStates(s: State, payload: seq<byte>): State {
    match DecodeHeader(payload)
    case None => s
    case Some(h) =>
      if h.messageType == UPDATES_RESPONSE then ProcessFrame(s, payload, h)
      else
        match ReadStates(payload, h)
        case None => s
        case Some(c) => TakeStates(s, c)
  }

  function OnWrite(s: State, payload: seq<byte>): State {
    match DecodeHeader(payload)
    case None => s
    case Some(h) =>
      var done := s.(writeSent := false, write := None);
      if h.messageType == UPDATES_RESPONSE then ProcessFrame(done, payload, h) else done
  }

  /** handle_unsolicited_response */
  function OnUnsolicited(s: State, payload: seq<byte>): State {
    match DecodeHeader(payload)
    case None => s
    case Some(h) =>
      if s.capsSeen && h.generation != s.generation then Resync(s, h.generation)
      else if h.messageType != UPDATES_RESPONSE then s
      else ProcessFrame(s, payload, h)
  }

  // The poll

  predicate IsIdle(s: State) {
    s.defsSeen && s.statesSeen && !s.capsSent && !s.defsSent && !s.statesSent
  }

  function Quiet(s: State): Step {
    (s, None)
  }

  /** recover_startup_mailbox: whatever the mailbox holds is drained or reset. */
  function Recover(s: State, in_: Input): (State, bool) {
    if !in_.Bit0() && !in_.Bit4() && !in_.Bit6() then (s, true)
    else if in_.Bit5() then if in_.Received().Some? then (Resync(s, 0), false) else (s, false)
    else if in_.controlOk then (Resync(s, 0), false)
    else (s, false)
  }

  function Taking(s: State, in_: Input, on: (State, seq<byte>) -> State): Step {
    match in_.Received()
    case None => (s, None)
    case Some(payload) => (on(s, payload), None)
  }

  /** What the source tests before it looks at requests of its own. */
  function Poll(s: State, in_: Input): Step {
    if !s.resyncPending && !s.capsSent && !s.capsSeen then
      var recovered := Recover(s, in_);
      if recovered.1 then PollFresh(s, in_) else Quiet(recovered.0)
    else PollFresh(s, in_)
  }

  function PollFresh(s: State, in_: Input): Step {
    if s.resyncPending && !s.capsSent && in_.CanSend() then SendCaps(s.(resyncPending := false), in_)
    else if s.writeSent && in_.Bit5() then Taking(s, in_, OnWrite)
    else if IsIdle(s) && in_.Bit5() then Taking(s, in_, OnUnsolicited)
    else if s.refresh && s.capsSeen && s.statesSeen && !s.statesSent && in_.CanSend() then
      SendStates(s.(refresh := false, statesSeen := false, nextStates := 0), 0, in_)
    else if s.write.Some? && !s.writeSent && IsIdle(s) && in_.CanSend() then
      if in_.writeOk then (s.(writeSent := true), Some(WriteState(s.write.value))) else Quiet(s)
    else if !s.capsSeen then PollCaps(s, in_)
    else PollSnapshot(s, in_)
  }

  function PollCaps(s: State, in_: Input): Step {
    if !s.capsSent && in_.CanSend() then SendCaps(s, in_)
    else if s.capsSent && in_.Bit5() then Taking(s, in_, OnCaps)
    else if s.capsSent && CAPS_TIMEOUT <= (in_.tick - s.capsTick) % 0x1_0000_0000 then
      if (in_.Bit0() || in_.Bit4() || in_.Bit6()) && !in_.controlOk then Quiet(s) else Quiet(Resync(s, 0))
    else PollStates(s, in_)
  }

  function PollSnapshot(s: State, in_: Input): Step {
    if !s.defsSent && !s.defsSeen && in_.CanSend() then SendDefs(s, in_)
    else if !s.defsSent && !s.defsSeen && in_.Bit5() then Taking(s, in_, OnUnsolicited)
    else PollStates(s, in_)
  }

  function PollStates(s: State, in_: Input): Step {
    if s.defsSent && !s.defsSeen && in_.Bit5() then Taking(s, in_, OnDefs)
    else if s.defsSeen && !s.statesSent && !s.statesSeen && in_.CanSend() then SendStates(s, s.nextStates, in_)
    else if s.defsSeen && !s.statesSent && !s.statesSeen && in_.Bit5() then Taking(s, in_, OnUnsolicited)
    else if s.statesSent && !s.statesSeen && in_.Bit5() then Taking(s, in_, OnStates)
    else Quiet(s)
  }
}
