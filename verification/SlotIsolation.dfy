/** Slots are isolated: no operation on one slot, successful or not, changes what belongs to another in SDRAM,
    code is only ever written to the code area, and the points of the others stay, with their states. */
module SlotIsolation {
  import opened Bytes
  import opened Memory
  import opened Lexer
  import opened Assembler
  import opened ObjectFile
  import opened ObjectParser
  import opened Catalog
  import opened SlotVariables
  import opened Linker
  import opened LinkedProgram
  import opened Staleness
  import opened FlashPages
  import opened FlashLinker
  import opened SlotMemory
  import Fnv

  predicate Between(w: Write, low: nat, high: nat) {
    low <= w.at && w.at + |w.bytes| <= high
  }

  /** The write stays within one of the places that belong to the slot, or is the shared directory
      header. */
  predicate Own(slot: nat, w: Write) {
    || Between(w, SlotBase(slot), SlotBase(slot) + BYTECODE_STRIDE)
    || Between(w, ManifestAt(slot), ManifestAt(slot) + MANIFEST_SIZE)
    || Between(w, BlockAt(slot), BlockAt(slot) + BLOCK_SIZE)
    || Between(w, SnapshotAt(slot), SnapshotAt(slot) + OBJECT_STRIDE)
    || Between(w, CONTROL_REGION, CONTROL_REGION + DIRECTORY_SIZE)
  }

  predicate AllOwn(slot: nat, writes: seq<Write>) {
    forall i | 0 <= i < |writes| :: Own(slot, writes[i])
  }

  /** The write stays within the slot's code area: below its stack. */
  predicate InCode(slot: nat, w: Write) {
    Between(w, CodeAt(slot), StackAt(slot))
  }

  predicate AllInCode(slot: nat, writes: seq<Write>) {
    forall i | 0 <= i < |writes| :: InCode(slot, writes[i])
  }

  /** The write stays clear of the slot's code area. */
  predicate ClearOfCode(slot: nat, w: Write) {
    w.at + |w.bytes| <= CodeAt(slot) || StackAt(slot) <= w.at
  }

  /** The write stays within what the firmware publishes of the points: the runtime header and descriptors, or
      the states. */
  predicate InRuntime(w: Write) {
    Between(w, RUNTIME_AT, DESCRIPTORS_END) || Between(w, STATES_AT, SDRAM_SIZE)
  }

  predicate AllRuntime(writes: seq<Write>) {
    forall i | 0 <= i < |writes| :: InRuntime(writes[i])
  }

  predicate AllClear(slot: nat, writes: seq<Write>) {
    forall i | 0 <= i < |writes| :: ClearOfCode(slot, writes[i])
  }

  /** The address belongs to the slot. */
  predicate Area(slot: nat, at: nat) {
    || SlotBase(slot) <= at < SlotBase(slot) + BYTECODE_STRIDE
    || ManifestAt(slot) <= at < ManifestAt(slot) + MANIFEST_SIZE
    || BlockAt(slot) <= at < BlockAt(slot) + BLOCK_SIZE
    || SnapshotAt(slot) <= at < SnapshotAt(slot) + OBJECT_STRIDE
  }

  predicate Covers(w: Write, at: nat) {
    w.at <= at < w.at + |w.bytes|
  }

  // The operations

  lemma MetadataIsOwn(slot: u16, p: Loaded)
    requires slot < SLOT_COUNT
    ensures AllOwn(slot, Metadata(slot, p)) && AllClear(slot, Metadata(slot, p))
  {
    Layout(slot);
    hide LinkedHeaderBytes, DirectoryBytes, ManifestBytes, BlockBytes;
  }

  lemma CodeIsOwn(slot: u16, writes: seq<Write>)
    requires slot < SLOT_COUNT && AllInCode(slot, writes)
    ensures AllOwn(slot, writes)
  {
    Layout(slot);
  }

  lemma ClearConcat(slot: nat, a: seq<Write>, b: seq<Write>)
    requires AllClear(slot, a) && AllClear(slot, b)
    ensures AllClear(slot, a + b)
  {
    hide ClearOfCode;
  }

  /** What a load writes: code to the code area only, its preparation to what is published of the points, and
      anything else to places of the slot but not to the code area. A load that does not get as far as linking
      writes nothing else. */
  predicate Contained(slot: u16, load: Load) {
    && (load.read + load.code + load.rest != [] ==> slot < SLOT_COUNT)
    && AllInCode(slot, load.read)
    && AllRuntime(load.Preparation())
    && AllInCode(slot, load.code)
    && AllOwn(slot, load.rest)
    && AllClear(slot, load.rest)
    && (load.status != LoadOk && load.status != BytecodeTooLarge ==> load.rest == [])
  }

  lemma LoadParsedContained(prepared: Prepared, slot: u16, image: Image, maxInstructions: u32, maxTime: u32)
    requires AllRuntime(prepared.writes)
    requires |image.relocations| <= 0xFFFF && |image.symbols| <= 0xFFFF && |image.code| < 0x1_0000_0000
    ensures Contained(slot, LoadParsed(prepared, slot, image, maxInstructions, maxTime))
    ensures
      var load := LoadParsed(prepared, slot, image, maxInstructions, maxTime);
      && (load.status != LoadOk ==> load.rest == [])
      && (load.prepared.Some? ==> load.prepared.value == prepared)
  {
    hide Metadata, Own, ClearOfCode, Validator.Accepts, Link, InRuntime;
    if slot < SLOT_COUNT {
      Layout(slot);
      forall p: Loaded
        ensures AllOwn(slot, Metadata(slot, p)) && AllClear(slot, Metadata(slot, p))
      {
        MetadataIsOwn(slot, p);
      }
    }
  }

  lemma SnapshotIsOwn(slot: u16, file: seq<byte>)
    ensures AllOwn(slot, StageSnapshot(slot, file).1) && AllClear(slot, StageSnapshot(slot, file).1)
    ensures StageSnapshot(slot, file).1 != [] ==> slot < SLOT_COUNT
  {
    if slot < SLOT_COUNT {
      Layout(slot);
    }
    hide SnapshotHeaderBytes, Fnv.Checksum;
  }

  lemma FlashSnapshotIsOwn(slot: u16, flash: Flash, offset: u32, size: u32, checksum: u32)
    requires slot < SLOT_COUNT
    ensures AllOwn(slot, StageFromFlash(slot, flash, offset, size, checksum).1)
    ensures AllClear(slot, StageFromFlash(slot, flash, offset, size, checksum).1)
  {
    Layout(slot);
    hide SnapshotHeaderBytes, SpanReadable, Copied;
  }

  lemma LoadObjectContained(prepared: Prepared, slot: u16, file: seq<byte>)
    requires AllRuntime(prepared.writes)
    ensures Contained(slot, LoadObject(prepared, slot, file))
    ensures
      var load := LoadObject(prepared, slot, file);
      load.prepared.Some? ==> load.prepared.value == prepared
  {
    hide LoadParsed, ParseObject, StageSnapshot, Own, ClearOfCode, AllClear, InRuntime;
    NothingIsClear(slot);
    match ParseObject(file)
    case Err(_) =>
    case Ok(parsed) =>
      SmallImage(file);
      LoadParsedContained(prepared, slot, parsed.image, parsed.header.maxInstructionsPerScan, parsed.header.maxScanTimeUs);
      SnapshotIsOwn(slot, file);
      var load := LoadParsed(prepared, slot, parsed.image, parsed.header.maxInstructionsPerScan, parsed.header.maxScanTimeUs);
      ClearConcat(slot, load.rest, StageSnapshot(slot, file).1);
  }

  lemma NothingIsClear(slot: nat)
    ensures AllClear(slot, [])
  {
  }

  lemma SmallImage(file: seq<byte>)
    requires ParseObject(file).Ok?
    ensures
      var image := ParseObject(file).value.image;
      |image.relocations| <= 0xFFFF && |image.symbols| <= 0xFFFF && |image.code| < 0x1_0000_0000
  {
    hide Fnv.Checksum;
  }

  lemma LoadFlashContained(prepared: Prepared, slot: u16, flash: Flash, offset: u32, capacity: u32)
    requires AllRuntime(prepared.writes)
    ensures Contained(slot, LoadFlash(prepared, slot, flash, offset, capacity))
    ensures
      var load := LoadFlash(prepared, slot, flash, offset, capacity);
      load.prepared.Some? ==> load.prepared.value == prepared
  {
    hide FlashHeader, InRuntime, Metadata, Own, ClearOfCode, Validator.Accepts, FlashLink, StageFromFlash, SpanBytes, Copied,
         Address;
    if slot < SLOT_COUNT && FlashHeader(flash, offset, capacity).Ok? {
      Layout(slot);
      var h := FlashHeader(flash, offset, capacity).value;
      FlashSnapshotIsOwn(slot, flash, offset, h.totalSize, h.checksum);
      forall p: Loaded
        ensures AllOwn(slot, Metadata(slot, p)) && AllClear(slot, Metadata(slot, p))
      {
        MetadataIsOwn(slot, p);
      }
    }
  }

  lemma SetParamsIsOwn(slot: u16, params: Option<seq<byte>>, size: u32)
    requires params.Some? ==> |params.value| == size
    ensures AllOwn(slot, SetParams(slot, params, size).1) && AllClear(slot, SetParams(slot, params, size).1)
    ensures SetParams(slot, params, size).1 != [] ==> slot < SLOT_COUNT
  {
    if slot < SLOT_COUNT {
      Layout(slot);
    }
    hide ParamsEpoch, Le32;
  }

  /** objectSnapshotHeaderValid */
  predicate SnapshotHeaderValid(memory: seq<byte>, slot: u16)
    requires slot < SLOT_COUNT && |memory| == SDRAM_SIZE
  {
    Layout(slot);
    var at := SnapshotAt(slot);
    && Fetch32(memory, at) == SNAPSHOT_MAGIC && Fetch16(memory, at + 4) == 1 && Fetch16(memory, at + 6) == slot
    && SnapshotFits(Fetch32(memory, at + 12))
  }

  /** A snapshot that cannot be read from flash to its end fails, but an old header stays as it was, valid or not,
      over data that is partly new. */
  lemma StaleSnapshot(memory: seq<byte>, slot: u16, flash: Flash, offset: u32, size: u32, checksum: u32)
    requires |memory| == SDRAM_SIZE && slot < SLOT_COUNT && SnapshotFits(size) && !SpanReadable(flash, offset, size)
    ensures
      var staged := StageFromFlash(slot, flash, offset, size, checksum);
      && !staged.0 && InMemory(memory, staged.1)
      && var after, data := Apply(memory, staged.1), SnapshotAt(slot) + SNAPSHOT_HEADER_SIZE;
         var n := Copied(flash, offset, 0, size);
         && data + size <= SDRAM_SIZE
         && after[SnapshotAt(slot)..data] == memory[SnapshotAt(slot)..data]
         && after[data..data + n] == SpanBytes(flash, offset, size)[..n]
         && after[data + n..data + size] == memory[data + n..data + size]
         && (SnapshotHeaderValid(after, slot) <==> SnapshotHeaderValid(memory, slot))
  {
    Layout(slot);
    hide SpanReadable, SpanBytes, Copied;
    var at := SnapshotAt(slot);
    var bytes := SpanBytes(flash, offset, size)[..Copied(flash, offset, 0, size)];
    var w := Write(at + SNAPSHOT_HEADER_SIZE, bytes);
    assert StageFromFlash(slot, flash, offset, size, checksum) == (false, [w]);
    hide StageFromFlash, SnapshotAt;
    ApplyOne(memory, w);
    var after := Patch(memory, w.at, bytes);
    assert forall k | at <= k < at + SNAPSHOT_HEADER_SIZE :: after[k] == memory[k];
  }

  // Preparation

  lemma {:induction false} FlatSize(records: seq<seq<byte>>)
    requires AllStates(records)
    ensures |Flat(records)| == STATE_SIZE * |records|
  {
    if records != [] {
      FlatSize(records[..|records| - 1]);
    }
  }

  predicate AllStates(values: seq<seq<byte>>) {
    forall i | 0 <= i < |values| :: |values[i]| == STATE_SIZE
  }

  lemma {:induction false} KeptSizes(points: Points, slot: u16, values: seq<seq<byte>>)
    requires |values| == |points| && AllStates(values)
    ensures AllStates(Kept(points, slot, values))
  {
    hide IsSlotVariable;
    if points != [] {
      var last := |points| - 1;
      KeptSizes(points[..last], slot, values[..last]);
    }
  }

  lemma MovedSizes(board: Board, slot: u16, next: Points)
    requires board.Valid() && next == Replaced(board.points, slot, Variables(next, slot)) && |next| <= MAX_POINTS
    ensures |MovedStates(board, slot, next)| == |next|
    ensures |Flat(MovedStates(board, slot, next))| == STATE_SIZE * |next|
  {
    hide IsSlotVariable, Kept, Variables, InsertAt;
    var states := States(board.memory, |board.points|);
    KeptLength(board.points, slot, states, board.points);
    KeptSizes(board.points, slot, states);
    FlatSize(MovedStates(board, slot, next));
  }

  /** A preparation writes within what is published of the points, and leaves a catalog of valid size. */
  predicate Sound(prepared: Prepared) {
    && AllRuntime(prepared.writes)
    && |prepared.points| <= MAX_POINTS && prepared.publication.count <= MAX_POINTS
    && prepared.publication.publisher.stride == STATE_SIZE
  }

  lemma PrepareIsSound(board: Board, slot: u16, records: Option<seq<SymbolRecord>>, hash: u32)
    requires board.Valid()
    ensures Sound(Prepare(board, slot, records, hash))
  {
    hide Reconcile, MovedStates, Flat, Descriptors, RuntimeHeaderBytes, Replaced, Variables, Expected, Replace;
    var r := Reconcile(board.points, board.publication, slot, records, hash);
    ReconciledIs(board.points, board.publication, slot, records, hash);
    if r.changed {
      ReplaceIs(board.points, slot, records.value);
      ReplaceChanges(board.points, slot, Expected(board.points, slot, records.value).value);
      MovedSizes(board, slot, r.points);
    }
  }

  lemma ReplaceChanges(points: Points, slot: u16, added: Points)
    requires Replace(points, slot, added).Some? && Replace(points, slot, added).value.1
    ensures Replace(points, slot, added).value.0 == Replaced(points, slot, added)
  {
    hide Kept, Variables, Replaced;
  }

  // Runs

  /** One operation of the loader. `hash` is that of the catalog's definitions when they are published. */
  datatype Op =
    | LoadingParsed(slot: u16, image: Image, maxInstructions: u32, maxTime: u32, hash: u32)
    | LoadingObject(slot: u16, file: seq<byte>, hash: u32)
    | LoadingFlash(slot: u16, flash: Flash, offset: u32, capacity: u32, hash: u32)
    | SettingParams(slot: u16, params: Option<seq<byte>>, size: u32)
    | Staging(slot: u16, file: seq<byte>)
  {
    predicate Valid() {
      match this
      case LoadingParsed(_, image, _, _, _) =>
        |image.relocations| <= 0xFFFF && |image.symbols| <= 0xFFFF && |image.code| < 0x1_0000_0000
      case SettingParams(_, params, size) => params.Some? ==> |params.value| == size
      case _ => true
    }
  }

  /** Nothing prepared. */
  function Unprepared(board: Board): Prepared {
    Prepared(false, board.points, board.publication, [])
  }

  /** The preparation of a load, should it get there. */
  function PreparedFor(board: Board, op: Op): Prepared
    requires board.Valid()
  {
    match op
    case LoadingParsed(slot, image, _, _, hash) => Prepare(board, slot, Some(image.symbols), hash)
    case LoadingObject(slot, file, hash) =>
      (match ParseObject(file)
       case Err(_) => Unprepared(board)
       case Ok(parsed) => Prepare(board, slot, Some(parsed.image.symbols), hash))
    case LoadingFlash(slot, flash, offset, capacity, hash) =>
      (match FlashHeader(flash, offset, capacity)
       case Err(_) => Unprepared(board)
       case Ok(h) => Prepare(board, slot, FlashRecords(flash, offset, h, h.symbolCount), hash))
    case _ => Unprepared(board)
  }

  /** Whether an operation did what it was for, its preparation if it had one, and what it wrote. */
  datatype Outcome = Outcome(ok: bool, prepared: Option<Prepared>, writes: seq<Write>)

  function OutcomeOf(load: Load): Outcome {
    Outcome(load.status == LoadOk, load.prepared, load.Writes())
  }

  function Outcomes(board: Board, op: Op): Outcome
    requires board.Valid() && op.Valid()
  {
    var prepared := PreparedFor(board, op);
    match op
    case LoadingParsed(slot, image, maxInstructions, maxTime, _) =>
      OutcomeOf(LoadParsed(prepared, slot, image, maxInstructions, maxTime))
    case LoadingObject(slot, file, _) => OutcomeOf(LoadObject(prepared, slot, file))
    case LoadingFlash(slot, flash, offset, capacity, _) => OutcomeOf(LoadFlash(prepared, slot, flash, offset, capacity))
    case SettingParams(slot, params, size) =>
      var r := SetParams(slot, params, size);
      Outcome(r.0, None, r.1)
    case Staging(slot, file) =>
      var r := StageSnapshot(slot, file);
      Outcome(r.0, None, r.1)
  }

  lemma PreparedIsSound(board: Board, op: Op)
    requires board.Valid()
    ensures Sound(PreparedFor(board, op))
  {
    hide Prepare, ParseObject, FlashHeader, FlashRecords, AllRuntime;
    NothingIsRuntime();
    match op
    case LoadingParsed(slot, image, _, _, hash) => PrepareIsSound(board, slot, Some(image.symbols), hash);
    case LoadingObject(slot, file, hash) =>
      if ParseObject(file).Ok? {
        PrepareIsSound(board, slot, Some(ParseObject(file).value.image.symbols), hash);
      }
    case LoadingFlash(slot, flash, offset, capacity, hash) =>
      if FlashHeader(flash, offset, capacity).Ok? {
        var h := FlashHeader(flash, offset, capacity).value;
        PrepareIsSound(board, slot, FlashRecords(flash, offset, h, h.symbolCount), hash);
      }
    case _ =>
  }

  lemma NothingIsRuntime()
    ensures AllRuntime([])
  {
  }

  /** The write stays within the slot's places or what is published of the points. */
  predicate Allowed(slot: nat, w: Write) {
    (slot < SLOT_COUNT && Own(slot, w)) || InRuntime(w)
  }

  predicate AllAllowed(slot: nat, writes: seq<Write>) {
    forall i | 0 <= i < |writes| :: Allowed(slot, writes[i])
  }

  lemma AllowedConcat(slot: nat, a: seq<Write>, b: seq<Write>)
    requires AllAllowed(slot, a) && AllAllowed(slot, b)
    ensures AllAllowed(slot, a + b)
  {
    hide Allowed;
  }

  lemma OwnIsAllowed(slot: nat, writes: seq<Write>)
    requires (writes != [] ==> slot < SLOT_COUNT) && AllOwn(slot, writes)
    ensures AllAllowed(slot, writes)
  {
    hide Own, InRuntime;
  }

  lemma RuntimeIsAllowed(slot: nat, writes: seq<Write>)
    requires AllRuntime(writes)
    ensures AllAllowed(slot, writes)
  {
    hide Own, InRuntime;
  }

  lemma CodeIsAllowed(slot: u16, writes: seq<Write>)
    requires (writes != [] ==> slot < SLOT_COUNT) && AllInCode(slot, writes)
    ensures AllAllowed(slot, writes)
  {
    hide Own, InRuntime, InCode;
    if writes != [] {
      CodeIsOwn(slot, writes);
    }
  }

  lemma ContainedIsAllowed(slot: u16, load: Load)
    requires Contained(slot, load)
    ensures AllAllowed(slot, load.Writes())
  {
    hide AllInCode, AllRuntime, AllOwn, AllAllowed, AllClear;
    CodeIsAllowed(slot, load.read);
    RuntimeIsAllowed(slot, load.Preparation());
    CodeIsAllowed(slot, load.code);
    OwnIsAllowed(slot, load.rest);
    AllowedConcat(slot, load.read, load.Preparation());
    AllowedConcat(slot, load.read + load.Preparation(), load.code);
    AllowedConcat(slot, load.read + load.Preparation() + load.code, load.rest);
  }

  lemma OutcomeIs(board: Board, op: Op)
    requires board.Valid() && op.Valid()
    ensures AllAllowed(op.slot, Outcomes(board, op).writes)
    ensures Outcomes(board, op).prepared.Some? ==> Outcomes(board, op).prepared.value == PreparedFor(board, op)
  {
    hide LoadParsed, LoadObject, LoadFlash, SetParams, StageSnapshot, AllOwn, AllInCode, AllRuntime, AllAllowed, PreparedFor,
         Contained, Load.Writes;
    PreparedIsSound(board, op);
    var prepared := PreparedFor(board, op);
    match op
    case LoadingParsed(slot, image, maxInstructions, maxTime, _) =>
      LoadParsedContained(prepared, slot, image, maxInstructions, maxTime);
      ContainedIsAllowed(slot, LoadParsed(prepared, slot, image, maxInstructions, maxTime));
    case LoadingObject(slot, file, _) =>
      LoadObjectContained(prepared, slot, file);
      ContainedIsAllowed(slot, LoadObject(prepared, slot, file));
    case LoadingFlash(slot, flash, offset, capacity, _) =>
      LoadFlashContained(prepared, slot, flash, offset, capacity);
      ContainedIsAllowed(slot, LoadFlash(prepared, slot, flash, offset, capacity));
    case SettingParams(slot, params, size) =>
      SetParamsIsOwn(slot, params, size);
      OwnIsAllowed(slot, SetParams(slot, params, size).1);
    case Staging(slot, file) =>
      SnapshotIsOwn(slot, file);
      OwnIsAllowed(slot, StageSnapshot(slot, file).1);
  }

  lemma OwnFits(slot: nat, w: Write)
    requires slot < SLOT_COUNT && Own(slot, w)
    ensures w.at + |w.bytes| <= SDRAM_SIZE
  {
    Layout(slot);
  }

  lemma AllowedFits(slot: nat, w: Write)
    requires Allowed(slot, w)
    ensures w.at + |w.bytes| <= SDRAM_SIZE
  {
    hide Own;
    if slot < SLOT_COUNT && Own(slot, w) {
      OwnFits(slot, w);
    }
  }

  lemma WritesFit(board: Board, op: Op)
    requires board.Valid() && op.Valid()
    ensures InMemory(board.memory, Outcomes(board, op).writes)
  {
    OutcomeIs(board, op);
    var writes := Outcomes(board, op).writes;
    hide Outcomes, Allowed;
    forall i | 0 <= i < |writes|
      ensures writes[i].at + |writes[i].bytes| <= SDRAM_SIZE
    {
      AllowedFits(op.slot, writes[i]);
    }
  }

  function Perform(board: Board, op: Op): (after: Board)
    requires board.Valid() && op.Valid()
    ensures after.Valid()
  {
    WritesFit(board, op);
    OutcomeIs(board, op);
    PreparedIsSound(board, op);
    var outcome := Outcomes(board, op);
    Board(Apply(board.memory, outcome.writes), outcome.prepared.GetOr(Unprepared(board)).points,
          outcome.prepared.GetOr(Unprepared(board)).publication)
  }

  predicate AllValid(ops: seq<Op>) {
    forall i | 0 <= i < |ops| :: ops[i].Valid()
  }

  function Run(board: Board, ops: seq<Op>): (after: Board)
    requires AllValid(ops) && board.Valid()
    ensures after.Valid()
    decreases ops
  {
    if ops == [] then board else Run(Perform(board, ops[0]), ops[1..])
  }

  /** Nothing that belongs to one slot belongs to another. */
  lemma Disjoint(slot: nat, other: nat, w: Write, at: nat)
    requires slot < SLOT_COUNT && other < SLOT_COUNT && slot != other
    requires Own(slot, w) && Area(other, at)
    ensures !Covers(w, at)
  {
    Layout(slot);
    Layout(other);
    hide AlignUp;
  }

  lemma {:induction false} ApplyKeeps(memory: seq<byte>, writes: seq<Write>, at: nat)
    requires InMemory(memory, writes) && at < |memory|
    requires forall i | 0 <= i < |writes| :: !Covers(writes[i], at)
    ensures Apply(memory, writes)[at] == memory[at]
    decreases writes
  {
    if writes != [] {
      assert !Covers(writes[0], at);
      ApplyKeeps(Patch(memory, writes[0].at, writes[0].bytes), writes[1..], at);
    }
  }

  /** What is published of the points does not belong to a slot. */
  lemma DisjointRuntime(slot: nat, w: Write, at: nat)
    requires slot < SLOT_COUNT && InRuntime(w) && Area(slot, at)
    ensures !Covers(w, at)
  {
    Layout(slot);
    hide AlignUp;
  }

  lemma DisjointAllowed(slot: nat, other: nat, w: Write, at: nat)
    requires other < SLOT_COUNT && slot != other && Allowed(slot, w) && Area(other, at)
    ensures !Covers(w, at)
  {
    hide Own, InRuntime, Area, Covers;
    if InRuntime(w) {
      DisjointRuntime(other, w, at);
    } else {
      Disjoint(slot, other, w, at);
    }
  }

  lemma PerformKeeps(board: Board, op: Op, slot: nat, at: nat)
    requires op.Valid() && board.Valid() && at < SDRAM_SIZE
    requires slot < SLOT_COUNT && op.slot != slot && Area(slot, at)
    ensures Perform(board, op).memory[at] == board.memory[at]
  {
    OutcomeIs(board, op);
    WritesFit(board, op);
    var writes := Outcomes(board, op).writes;
    hide Outcomes, Allowed, Area, Covers, Apply;
    forall i | 0 <= i < |writes|
      ensures !Covers(writes[i], at)
    {
      DisjointAllowed(op.slot, slot, writes[i], at);
    }
    ApplyKeeps(board.memory, writes, at);
  }

  /** Slot isolation. Over any run of loads, parameter writes and snapshot writes, successful or failed,
      that are not for a slot, no byte of its bytecode region, manifest, control block or snapshot
      changes. */
  lemma {:induction false} SlotsAreIsolated(board: Board, ops: seq<Op>, slot: nat, at: nat)
    requires AllValid(ops) && board.Valid() && at < SDRAM_SIZE
    requires slot < SLOT_COUNT && Area(slot, at)
    requires forall i | 0 <= i < |ops| :: ops[i].slot != slot
    ensures Run(board, ops).memory[at] == board.memory[at]
    decreases ops
  {
    hide Perform, Area, Board.Valid;
    if ops != [] {
      PerformKeeps(board, ops[0], slot, at);
      SlotsAreIsolated(Perform(board, ops[0]), ops[1..], slot, at);
    }
  }

  // The loaded program

  /** What a program in the slot is linked against. */
  function Contexts(board: Board, slot: u16): Context {
    ContextFor(board.points, board.publication, slot)
  }

  /** `code` is the file's code, linked for the slot. */
  predicate LinkedFor(context: Context, slot: u16, file: seq<byte>, code: seq<byte>) {
    && slot < SLOT_COUNT
    && ParseObject(file).Ok?
    && var image := ParseObject(file).value.image;
       |image.relocations| <= 0xFFFF
       && Link(context, image, CodeCapacity(slot)).0.status == LinkOk
       && Link(context, image, CodeCapacity(slot)).1 == Some(code)
  }

  lemma LoadedIsLinked(prepared: Prepared, slot: u16, file: seq<byte>) returns (code: seq<byte>)
    requires LoadObject(prepared, slot, file).status == LoadOk
    ensures LoadObject(prepared, slot, file).prepared == Some(prepared)
    ensures LinkedFor(ContextFor(prepared.points, prepared.publication, slot), slot, file, code)
    ensures |code| <= CodeCapacity(slot)
    ensures LoadObject(prepared, slot, file).read == []
    ensures LoadObject(prepared, slot, file).code == [Write(CodeAt(slot), code)]
  {
    hide ParseObject, Validator.Accepts, Link, Metadata, StageSnapshot;
    SmallImage(file);
    var image := ParseObject(file).value.image;
    code := Link(ContextFor(prepared.points, prepared.publication, slot), image, CodeCapacity(slot)).1.value;
  }

  lemma PatchKeepsSlice(memory: seq<byte>, w: Write, low: nat, high: nat)
    requires w.at + |w.bytes| <= |memory| && low <= high <= |memory|
    requires w.at + |w.bytes| <= low || high <= w.at
    ensures Patch(memory, w.at, w.bytes)[low..high] == memory[low..high]
  {
  }

  lemma {:induction false} ApplyKeepsSlice(memory: seq<byte>, writes: seq<Write>, low: nat, high: nat)
    requires InMemory(memory, writes) && low <= high <= |memory|
    requires forall i | 0 <= i < |writes| :: writes[i].at + |writes[i].bytes| <= low || high <= writes[i].at
    ensures Apply(memory, writes)[low..high] == memory[low..high]
    decreases writes
  {
    hide Patch;
    if writes != [] {
      PatchKeepsSlice(memory, writes[0], low, high);
      ApplyKeepsSlice(Patch(memory, writes[0].at, writes[0].bytes), writes[1..], low, high);
    }
  }

  lemma {:induction false} ApplyAll(memory: seq<byte>, first: seq<Write>, rest: seq<Write>)
    requires InMemory(memory, first + rest)
    ensures InMemory(memory, first) && InMemory(Apply(memory, first), rest)
    ensures Apply(memory, first + rest) == Apply(Apply(memory, first), rest)
    decreases first
  {
    hide Patch;
    var writes := first + rest;
    assert forall i | 0 <= i < |first| :: first[i] == writes[i];
    assert forall i | 0 <= i < |rest| :: rest[i] == writes[|first| + i];
    if first == [] {
      assert writes == rest;
    } else {
      assert writes[1..] == first[1..] + rest;
      ApplyAll(Patch(memory, first[0].at, first[0].bytes), first[1..], rest);
    }
  }

  lemma ApplyOne(memory: seq<byte>, w: Write)
    requires InMemory(memory, [w])
    ensures w.at + |w.bytes| <= |memory| && Apply(memory, [w]) == Patch(memory, w.at, w.bytes)
  {
    assert [w][0] == w && [w][1..] == [];
  }

  /** What was last written to the code area is there. */
  lemma CodeReads(memory: seq<byte>, slot: u16, first: seq<Write>, code: seq<byte>, rest: seq<Write>)
    requires slot < SLOT_COUNT && |memory| == SDRAM_SIZE && CodeAt(slot) + |code| <= StackAt(slot) <= SDRAM_SIZE
    requires InMemory(memory, first + [Write(CodeAt(slot), code)] + rest)
    requires AllClear(slot, rest)
    ensures Apply(memory, first + [Write(CodeAt(slot), code)] + rest)[CodeAt(slot)..CodeAt(slot) + |code|] == code
  {
    hide CodeAt, StackAt, Apply, InMemory, Patch;
    var at, w := CodeAt(slot), Write(CodeAt(slot), code);
    ApplyAll(memory, first + [w], rest);
    ApplyAll(memory, first, [w]);
    ApplyOne(Apply(memory, first), w);
    PatchReads(Apply(memory, first), at, code);
    ApplyKeepsSlice(Patch(Apply(memory, first), at, code), rest, at, at + |code|);
  }

  lemma PatchReads(memory: seq<byte>, at: nat, bytes: seq<byte>)
    requires at + |bytes| <= |memory|
    ensures Patch(memory, at, bytes)[at..at + |bytes|] == bytes
  {
  }

  /** After a successful load the slot's code area holds the code linked against the catalog as it is then. */
  lemma LoadedCode(board: Board, slot: u16, file: seq<byte>, hash: u32) returns (code: seq<byte>)
    requires board.Valid() && Outcomes(board, LoadingObject(slot, file, hash)).ok
    ensures LoadingObject(slot, file, hash).Valid()
    ensures
      var after := Perform(board, LoadingObject(slot, file, hash));
      && LinkedFor(Contexts(after, slot), slot, file, code)
      && CodeAt(slot) + |code| <= StackAt(slot) <= SDRAM_SIZE
      && after.memory[CodeAt(slot)..CodeAt(slot) + |code|] == code
  {
    hide *;
    var op := LoadingObject(slot, file, hash);
    var prepared := PreparedFor(board, op);
    var load := LoadObject(prepared, slot, file);
    ObjectOutcome(board, slot, file, hash);
    OutcomeParts(load);
    code := LoadedIsLinked(prepared, slot, file);
    PerformIs(board, op, prepared);
    ContextAfter(Apply(board.memory, load.Writes()), prepared, slot);
    PreparedIsSound(board, op);
    SoundIsRuntime(prepared);
    LoadObjectContained(prepared, slot, file);
    RestIsClear(slot, load);
    LinkedSlot(Contexts(Perform(board, op), slot), slot, file, code);
    WritesAre(load);
    CapacityIs(slot);
    BoardSize(board);
    CodeReads(board.memory, slot, load.read + load.Preparation(), code, load.rest);
  }

  lemma BoardSize(board: Board)
    requires board.Valid()
    ensures |board.memory| == SDRAM_SIZE
  {
  }

  lemma SoundIsRuntime(prepared: Prepared)
    requires Sound(prepared)
    ensures AllRuntime(prepared.writes)
  {
    hide AllRuntime;
  }

  lemma WritesAre(load: Load)
    ensures load.Writes() == load.read + load.Preparation() + load.code + load.rest
  {
  }

  /** A load of a file, in its parts. */
  lemma ObjectOutcome(board: Board, slot: u16, file: seq<byte>, hash: u32)
    requires board.Valid()
    ensures LoadingObject(slot, file, hash).Valid()
    ensures
      var op := LoadingObject(slot, file, hash);
      Outcomes(board, op) == OutcomeOf(LoadObject(PreparedFor(board, op), slot, file))
  {
    hide LoadObject, PreparedFor, OutcomeOf, Board.Valid;
  }

  lemma OutcomeParts(load: Load)
    ensures OutcomeOf(load).ok <==> load.status == LoadOk
    ensures OutcomeOf(load).prepared == load.prepared && OutcomeOf(load).writes == load.Writes()
  {
    hide Load.Writes;
  }

  /** The board after an operation that went through its preparation. */
  lemma PerformIs(board: Board, op: Op, prepared: Prepared)
    requires board.Valid() && op.Valid() && Outcomes(board, op).prepared == Some(prepared)
    ensures InMemory(board.memory, Outcomes(board, op).writes)
    ensures Perform(board, op) ==
            Board(Apply(board.memory, Outcomes(board, op).writes), prepared.points, prepared.publication)
  {
    WritesFit(board, op);
    hide Outcomes, Apply, InMemory, Board.Valid, Op.Valid;
  }

  lemma ContextAfter(memory: seq<byte>, prepared: Prepared, slot: u16)
    ensures Contexts(Board(memory, prepared.points, prepared.publication), slot) ==
            ContextFor(prepared.points, prepared.publication, slot)
  {
  }

  lemma RestIsClear(slot: u16, load: Load)
    requires Contained(slot, load) && load.code != []
    ensures slot < SLOT_COUNT && AllClear(slot, load.rest)
  {
    hide AllInCode, AllOwn, AllClear, AllRuntime;
  }

  lemma CapacityIs(slot: nat)
    requires slot < SLOT_COUNT
    ensures CodeCapacity(slot) == StackAt(slot) - CodeAt(slot) && StackAt(slot) <= SDRAM_SIZE
  {
    Layout(slot);
  }

  lemma CodeIsArea(slot: nat, at: nat)
    requires slot < SLOT_COUNT && CodeAt(slot) <= at < StackAt(slot)
    ensures Area(slot, at) && at < SDRAM_SIZE
  {
    Layout(slot);
  }

  lemma CodeStays(board: Board, ops: seq<Op>, slot: nat, n: nat)
    requires AllValid(ops) && board.Valid() && slot < SLOT_COUNT && n <= CodeCapacity(slot)
    requires forall i | 0 <= i < |ops| :: ops[i].slot != slot
    ensures CodeAt(slot) + n <= SDRAM_SIZE
    ensures Run(board, ops).memory[CodeAt(slot)..CodeAt(slot) + n] == board.memory[CodeAt(slot)..CodeAt(slot) + n]
  {
    Layout(slot);
    hide Run, Area, CodeAt, AllValid;
    var at, last := CodeAt(slot), Run(board, ops).memory;
    var before, after := board.memory[at..at + n], last[at..at + n];
    forall k | 0 <= k < n
      ensures after[k] == before[k]
    {
      CodeIsArea(slot, at + k);
      SlotsAreIsolated(board, ops, slot, at + k);
    }
  }

  /** The slot's code area holds, in its first `n` bytes, what the lines say, as the points are now. */
  predicate CodeMeans(board: Board, slot: u16, n: nat, lines: seq<Line>, symbols: seq<Symbol>, host: Host)
    requires slot < SLOT_COUNT
  {
    && CodeAt(slot) + n <= StackAt(slot) <= |board.memory|
    && Means(board.memory[CodeAt(slot)..CodeAt(slot) + n], lines, symbols, Contexts(board, slot), host)
  }

  function ImageOf(file: seq<byte>): Image
    requires ParseObject(file).Ok?
  {
    ParseObject(file).value.image
  }

  /** From source text to a slot: a source without `DB` that assembles, whose object is built and loads
      into a slot, means the same there. While other slots are loaded and changed, its bytes stay; they go on
      to mean the same if and only if every symbol they use still resolves to the operand that was linked. */
  lemma LoadedProgramMeans(source: seq<string>, lines: seq<Line>, options: Options, host: Host, board: Board, slot: u16,
                           hash: u32, ops: seq<Op>) returns (code: seq<byte>)
    requires Builds(source, lines, options, host)
    requires board.Valid() && Outcomes(board, LoadingObject(slot, ObjectOf(source, options, host), hash)).ok
    requires AllValid(ops) && forall i | 0 <= i < |ops| :: ops[i].slot != slot
    ensures slot < SLOT_COUNT && ParseObject(ObjectOf(source, options, host)).Ok?
    ensures
      var file, symbols := ObjectOf(source, options, host), SymbolsOf(source, options, host);
      var loaded := Perform(board, LoadingObject(slot, file, hash));
      var later := Run(loaded, ops);
      && CodeMeans(loaded, slot, |code|, lines, symbols, host)
      && later.memory[CodeAt(slot)..CodeAt(slot) + |code|] == code
      && (CodeMeans(later, slot, |code|, lines, symbols, host) <==>
          SameOperands(Contexts(loaded, slot), Contexts(later, slot), ImageOf(file)))
  {
    hide *;
    var file := ObjectOf(source, options, host);
    code := LoadedCode(board, slot, file, hash);
    LinkedSlot(Contexts(Perform(board, LoadingObject(slot, file, hash)), slot), slot, file, code);
    HeldProgramMeans(source, lines, options, host, Perform(board, LoadingObject(slot, file, hash)), slot, code, ops);
  }

  /** The same for any board whose slot holds the linked code. */
  lemma HeldProgramMeans(source: seq<string>, lines: seq<Line>, options: Options, host: Host, loaded: Board, slot: u16,
                         code: seq<byte>, ops: seq<Op>)
    requires Builds(source, lines, options, host)
    requires slot < SLOT_COUNT && LinkedFor(Contexts(loaded, slot), slot, ObjectOf(source, options, host), code)
    requires loaded.Valid() && CodeAt(slot) + |code| <= StackAt(slot) <= SDRAM_SIZE
    requires loaded.memory[CodeAt(slot)..CodeAt(slot) + |code|] == code
    requires AllValid(ops) && forall i | 0 <= i < |ops| :: ops[i].slot != slot
    ensures ParseObject(ObjectOf(source, options, host)).Ok?
    ensures
      var file, symbols := ObjectOf(source, options, host), SymbolsOf(source, options, host);
      var later := Run(loaded, ops);
      && CodeMeans(loaded, slot, |code|, lines, symbols, host)
      && later.memory[CodeAt(slot)..CodeAt(slot) + |code|] == code
      && (CodeMeans(later, slot, |code|, lines, symbols, host) <==>
          SameOperands(Contexts(loaded, slot), Contexts(later, slot), ImageOf(file)))
  {
    hide *;
    var file, symbols := ObjectOf(source, options, host), SymbolsOf(source, options, host);
    var later := Run(loaded, ops);
    var context := Contexts(loaded, slot);
    CapacityIs(slot);
    BoardSize(loaded);
    BoardSize(later);
    CodeStays(loaded, ops, slot, |code|);
    MeansExactly(source, lines, options, host, context, context, CodeCapacity(slot));
    MeansExactly(source, lines, options, host, context, Contexts(later, slot), CodeCapacity(slot));
    LinkedIs(context, slot, file, code);
    LinkingPreservesProgram(source, lines, options, host, context, CodeCapacity(slot));
    CodeMeansIs(loaded, slot, |code|, lines, symbols, host);
    CodeMeansIs(later, slot, |code|, lines, symbols, host);
  }

  lemma LinkedIs(context: Context, slot: u16, file: seq<byte>, code: seq<byte>)
    requires LinkedFor(context, slot, file, code)
    ensures ParseObject(file).Ok? && ImageOf(file) == ParseObject(file).value.image
    ensures
      var image := ParseObject(file).value.image;
      && |image.relocations| <= 0xFFFF && Link(context, image, CodeCapacity(slot)).0.status == LinkOk
      && Link(context, image, CodeCapacity(slot)).1 == Some(code)
  {
    hide ParseObject, Link;
  }

  lemma LinkedSlot(context: Context, slot: u16, file: seq<byte>, code: seq<byte>)
    requires LinkedFor(context, slot, file, code)
    ensures slot < SLOT_COUNT && ParseObject(file).Ok?
  {
    hide ParseObject, Link;
  }

  lemma CodeMeansIs(board: Board, slot: u16, n: nat, lines: seq<Line>, symbols: seq<Symbol>, host: Host)
    requires slot < SLOT_COUNT && |board.memory| == SDRAM_SIZE && CodeAt(slot) + n <= StackAt(slot) <= SDRAM_SIZE
    ensures CodeMeans(board, slot, n, lines, symbols, host) <==>
            Means(board.memory[CodeAt(slot)..CodeAt(slot) + n], lines, symbols, Contexts(board, slot), host)
  {
    hide Means;
  }
}
