/** The plcLink client's state, and what each of its steps makes of it. */
module LinkState {
  import opened Bytes
  import opened PlcLink

  const CAPS_SIZE: nat := 16
  const DEFS_PREFIX: nat := 20
  const DEFINITION_SIZE: nat := 134
  const STATES_PREFIX: nat := 12
  const UPDATE_PREFIX: nat := 8
  const RECORD_SIZE: nat := 16
  const TEXT_SIZE: nat := 64
  const STRING_POINT: byte := 7
  const MAX_RESPONSE: nat := 256
  const MAX_PENDING: nat := 512

  /** A definition or a state as it came over the wire. */
  type Definition = seq<byte>

  datatype Cached = Cached(record: seq<byte>, text: seq<byte>) {
    predicate Sized() {
      |record| == RECORD_SIZE && |text| == TEXT_SIZE
    }

    function Point(): u16
      requires Sized()
    {
      Fetch16(record, 0)
    }

    predicate HasText()
      requires Sized()
    {
      record[2] == STRING_POINT
    }
  }

  const NO_STATE: Cached := Cached(Zeros(RECORD_SIZE), Zeros(TEXT_SIZE))

  function Blank(n: nat): (s: seq<Cached>)
    ensures |s| == n
  {
    seq(n, _ => NO_STATE)
  }

  function NoDefinitions(n: nat): (s: seq<Definition>)
    ensures |s| == n
  {
    seq(n, _ => Zeros(DEFINITION_SIZE))
  }

  datatype Update = Update(point: u16, sequence: u32)

  datatype WriteRequest = WriteRequest(point: u16, valueType: byte, flags: byte, bits: u32)

  /** A finished snapshot, as it is shown while another is being fetched. */
  datatype Snapshot = Snapshot(sequence: u32, points: u16, loaded: u16, maxPayload: u16)

  datatype State = State(
    capsSent: bool,
    capsSeen: bool,
    defsSent: bool,
    defsSeen: bool,
    statesSent: bool,
    statesSeen: bool,
    resyncPending: bool,
    preserveDefs: bool,
    runtimeView: bool,
    refresh: bool,
    writeSent: bool,
    write: Option<WriteRequest>,
    capsTick: u32,
    generation: u32,
    points: u16,
    maxPayload: u16,
    defsTotal: u32,
    defsLoaded: u32,
    nextDefs: u32,
    nextStates: u16,
    recordCount: u16,
    sequence: u32,
    published: Option<Snapshot>,
    defs: seq<Definition>,
    states: seq<Cached>,
    pending: seq<Update>
  )

  const INITIAL: State := State(false, false, false, false, false, false, false, false, false, false, false, None, 0, 0, 0,
                                0, 0, 0, 0, 0, 0, 0, None, [], [], [])

  // Helpers

  /** reset_state_cache */
  function ResetStates(s: State, points: u16): State {
    s.(states := Blank(points), sequence := 0, pending := [])
  }

  /** reset_defs_cache */
  function ResetDefs(s: State): State {
    s.(defs := [], defsTotal := 0, defsLoaded := 0)
  }

  /** enqueue_pending_point_update_locked: a full ring drops its oldest entry. */
  function Enqueue(pending: seq<Update>, update: Update): seq<Update> {
    (if |pending| < MAX_PENDING then pending else pending[|pending| - MAX_PENDING + 1..]) + [update]
  }

  /** begin_full_resync: with the same definitions, they stay, and with a finished snapshot the states
      stay visible. */
  function Resync(s: State, generation: u32): State {
    var keepDefs := generation != 0 && generation == s.generation && s.defsSeen;
    var keepView := keepDefs && s.statesSeen && s.published.Some?;
    var begun := s.(
      resyncPending := true, preserveDefs := keepDefs, runtimeView := keepView, capsSent := false, capsSeen := false,
      capsTick := 0, defsSent := false, defsSeen := keepDefs, statesSent := false, statesSeen := false, refresh := false,
      generation := generation, sequence := 0, nextStates := 0, recordCount := 0, writeSent := false, write := None);
    var defsDone :=
      if keepDefs then begun else ResetDefs(begun.(points := 0, maxPayload := 0, nextDefs := 0));
    if keepView then defsDone else ResetStates(defsDone, 0)
  }

  // Records

  /** A record on the wire: its text, if it has one, follows it. */
  function RecordBytes(c: Cached): (s: seq<byte>)
    requires c.Sized()
    ensures |s| == if c.HasText() then RECORD_SIZE + TEXT_SIZE else RECORD_SIZE
  {
    if c.HasText() then c.record + c.text else c.record
  }

  predicate AllSized(records: seq<Cached>) {
    forall i | 0 <= i < |records| :: records[i].Sized()
  }

  function StatesBytes(records: seq<Cached>): seq<byte>
    requires AllSized(records)
  {
    if records == [] then [] else RecordBytes(records[0]) + StatesBytes(records[1..])
  }

  /** The records at the start of a chunk: each is followed by a text if it says so. Nothing if one is
      cut short. */
  function Records(chunk: seq<byte>, count: nat): (r: Option<seq<Cached>>)
    ensures r.Some? ==> |r.value| == count && forall i | 0 <= i < count :: r.value[i].Sized()
    decreases count
  {
    if count == 0 then Some([])
    else if |chunk| < RECORD_SIZE then None
    else
      var record := chunk[..RECORD_SIZE];
      if record[2] == STRING_POINT then
        if |chunk| < RECORD_SIZE + TEXT_SIZE then None
        else
          PrependRecord(Cached(record, chunk[RECORD_SIZE..RECORD_SIZE + TEXT_SIZE]),
                        Records(chunk[RECORD_SIZE + TEXT_SIZE..], count - 1))
      else PrependRecord(Cached(record, Zeros(TEXT_SIZE)), Records(chunk[RECORD_SIZE..], count - 1))
  }

  function PrependRecord(record: Cached, rest: Option<seq<Cached>>): Option<seq<Cached>> {
    if rest.Some? then Some([record] + rest.value) else None
  }

  /** What of a frame's payload behind its prefix is both declared and received. */
  function ChunkOf(payload: seq<byte>, h: Header, prefix: nat): seq<byte>
    requires HEADER_SIZE + prefix <= |payload| && prefix <= h.payloadLength
  {
    var chunk := payload[HEADER_SIZE + prefix..];
    if h.payloadLength - prefix < |chunk| then chunk[..h.payloadLength - prefix] else chunk
  }

  /** Records written to their places; those beyond the end are left out. */
  function Placed(states: seq<Cached>, records: seq<Cached>): (r: seq<Cached>)
    requires forall i | 0 <= i < |records| :: records[i].Sized()
    ensures |r| == |states|
    decreases records
  {
    if records == [] then states
    else
      var at := records[0].Point();
      Placed(if at < |states| then states[at := records[0]] else states, records[1..])
  }

  function Grown(states: seq<Cached>, size: nat): (r: seq<Cached>)
    ensures |r| == if |states| < size then size else |states|
  {
    if |states| < size then states + Blank(size - |states|) else states
  }

  /** A record written to its place, the cache growing to hold it, and queued as an update. */
  function Noted(s: State, cached: Cached, sequence: u32): State
    requires cached.Sized()
  {
    var at := cached.Point();
    s.(states := Grown(s.states, at + 1)[at := cached], pending := Enqueue(s.pending, Update(at, sequence)))
  }

  /** Records noted one after the other. */
  function Updated(s: State, records: seq<Cached>, sequence: u32): State
    requires forall i | 0 <= i < |records| :: records[i].Sized()
    decreases records
  {
    if records == [] then s
    else Updated(Noted(s, records[0], sequence), records[1..], sequence)
  }

  /** store_update_chunk */
  function StoreUpdates(s: State, records: seq<Cached>, sequence: u32): State
    requires forall i | 0 <= i < |records| :: records[i].Sized()
  {
    Updated(s, records, sequence).(sequence := sequence)
  }

  // Updates

  datatype UpdateFrame = UpdateFrame(sequence: u32, records: seq<Cached>)

  /** The update a frame carries; nothing if it is malformed. */
  function ReadUpdate(payload: seq<byte>, h: Header): (r: Option<UpdateFrame>)
    ensures r.Some? ==> forall i | 0 <= i < |r.value.records| :: r.value.records[i].Sized()
  {
    if |payload| < HEADER_SIZE + UPDATE_PREFIX || h.payloadLength < UPDATE_PREFIX then None
    else
      match Records(ChunkOf(payload, h, UPDATE_PREFIX), Fetch16(payload, 22))
      case None => None
      case Some(records) => Some(UpdateFrame(Fetch32(payload, 18), records))
  }

  /** process_state_update_frame, for a frame that carries an update: a jump of the sequence beyond the
      records received starts a resync, and so does an update without records that is new. */
  function ProcessUpdate(s: State, generation: u32, update: UpdateFrame): State
    requires forall i | 0 <= i < |update.records| :: update.records[i].Sized()
  {
    if update.records == [] then
      if !s.defsSeen || !s.statesSeen || update.sequence <= s.sequence then s else Resync(s, generation)
    else
      var stored := StoreUpdates(s, update.records, update.sequence);
      if s.capsSeen && s.sequence != 0 && s.sequence < update.sequence &&
         |update.records| < update.sequence - s.sequence
      then Resync(stored, stored.generation)
      else stored
  }

  function ProcessFrame(s: State, payload: seq<byte>, h: Header): State {
    match ReadUpdate(payload, h)
    case None => s
    case Some(update) => ProcessUpdate(s, h.generation, update)
  }

  // Snapshots

  function DefsRoom(maxPayload: u16): u16 {
    if maxPayload <= DEFS_PREFIX then 0 else maxPayload - DEFS_PREFIX
  }

  function StatesRoom(maxPayload: u16): u16 {
    if maxPayload < STATES_PREFIX then 0 else (maxPayload - STATES_PREFIX) / RECORD_SIZE
  }

  datatype DefsChunk = DefsChunk(total: u32, points: u16, offset: u32, bytes: seq<byte>, more: bool)

  /** The bytes as records. */
  function Definitions(bytes: seq<byte>): (r: seq<Definition>)
    requires |bytes| % DEFINITION_SIZE == 0
    ensures |r| == |bytes| / DEFINITION_SIZE
    decreases |bytes|
  {
    if bytes == [] then []
    else
      DefinitionCount(|bytes|);
      [bytes[..DEFINITION_SIZE]] + Definitions(bytes[DEFINITION_SIZE..])
  }

  lemma DefinitionCount(n: nat)
    requires n % DEFINITION_SIZE == 0 && n > 0
    ensures n >= DEFINITION_SIZE && (n - DEFINITION_SIZE) % DEFINITION_SIZE == 0
    ensures (n - DEFINITION_SIZE) / DEFINITION_SIZE + 1 == n / DEFINITION_SIZE
  {
  }

  function Overlay<T>(s: seq<T>, at: nat, piece: seq<T>): seq<T>
    requires at + |piece| <= |s|
  {
    s[..at] + piece + s[at + |piece|..]
  }

  /** The definition cache, emptied if the table has changed its size. */
  function SizedDefs(s: State, c: DefsChunk): State {
    if |s.defs| != c.points || s.defsTotal != c.total then
      s.(defs := NoDefinitions(c.points), defsTotal := c.total, defsLoaded := 0)
    else s
  }

  /** store_defs_chunk: a chunk that is not made of whole records at their places is left out. */
  function StoreDefs(s: State, c: DefsChunk): State {
    var sized := SizedDefs(s, c);
    if c.offset % DEFINITION_SIZE != 0 || |c.bytes| % DEFINITION_SIZE != 0 then sized
    else
      var records := Definitions(c.bytes);
      var first := c.offset / DEFINITION_SIZE;
      if |sized.defs| < first + |records| then sized
      else
        var loaded := (c.offset + |c.bytes|) % 0x1_0000_0000;
        sized.(defs := Overlay(sized.defs, first, records),
               defsLoaded := if sized.defsLoaded < loaded then loaded else sized.defsLoaded)
  }

  /** `t` differs from `s` in the definitions only, which are these. */
  predicate DefsOf(t: State, s: State, defs: seq<Definition>, total: u32, loaded: u32) {
    && t.defs == defs && t.defsTotal == total && t.defsLoaded == loaded
    && t.states == s.states && t.sequence == s.sequence && t.pending == s.pending
  }

  lemma DefsAre(s: State, defs: seq<Definition>, total: u32, loaded: u32)
    ensures DefsOf(s.(defs := defs, defsTotal := total, defsLoaded := loaded), s, defs, total, loaded)
  {
  }

  lemma SizedParts(s: State, c: DefsChunk)
    ensures
      if |s.defs| == c.points && s.defsTotal == c.total then SizedDefs(s, c) == s
      else DefsOf(SizedDefs(s, c), s, NoDefinitions(c.points), c.total, 0)
  {
    hide NoDefinitions, DefsOf;
    DefsAre(s, NoDefinitions(c.points), c.total, 0);
  }

  /** Where a chunk of definitions goes, if it is made of whole records that fit into the table. */
  predicate Placeable(c: DefsChunk, size: nat) {
    && c.offset % DEFINITION_SIZE == 0 && |c.bytes| % DEFINITION_SIZE == 0
    && c.offset / DEFINITION_SIZE + |c.bytes| / DEFINITION_SIZE <= size
  }

  function LoadedEnd(c: DefsChunk, loaded: u32): u32 {
    var next := (c.offset + |c.bytes|) % 0x1_0000_0000;
    if loaded < next then next else loaded
  }

  lemma StoredParts(s: State, c: DefsChunk)
    ensures
      var sized := SizedDefs(s, c);
      if Placeable(c, |sized.defs|) then
        DefsOf(StoreDefs(s, c), sized, Overlay(sized.defs, c.offset / DEFINITION_SIZE, Definitions(c.bytes)),
               sized.defsTotal, LoadedEnd(c, sized.defsLoaded))
      else StoreDefs(s, c) == sized
  {
    hide Definitions, Overlay, SizedDefs, DefsOf;
    var sized := SizedDefs(s, c);
    if Placeable(c, |sized.defs|) {
      DefsAre(sized, Overlay(sized.defs, c.offset / DEFINITION_SIZE, Definitions(c.bytes)), sized.defsTotal,
              LoadedEnd(c, sized.defsLoaded));
    }
  }

  datatype StatesChunk = StatesChunk(sequence: u32, points: u16, start: u16, records: seq<Cached>, more: bool)

  /** store_snapshot_chunk */
  function StoreSnapshot(s: State, c: StatesChunk): State
    requires forall i | 0 <= i < |c.records| :: c.records[i].Sized()
  {
    s.(states := Placed(Grown(s.states, c.points), c.records), sequence := c.sequence)
  }

  function Min(a: nat, b: nat): nat {
    if a < b then a else b
  }
}
