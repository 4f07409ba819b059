/** Slots in SDRAM: where the loader keeps what belongs to a slot, and what each of its operations
    writes. Addresses are counted from the start of SDRAM. */
module SlotMemory {
  import opened Bytes
  import opened Memory
  import opened Isa
  import opened ObjectFile
  import opened ObjectParser
  import opened Catalog
  import opened SlotVariables
  import opened Linker
  import opened FlashPages
  import opened FlashLinker
  import opened Validator
  import Fnv

  const RUNTIME_AT: nat := 0x10_0000
  const DESCRIPTORS_AT: nat := 0x10_0100
  const DESCRIPTORS_END: nat := DESCRIPTORS_AT + 0x1_0000
  const STATES_AT: nat := SDRAM_SIZE - 0x2_0000

  const BYTECODE_REGION: nat := 0x13_0000
  const BYTECODE_REGION_SIZE: nat := 0x4_0000
  const CONTROL_REGION: nat := 0x17_0000
  const CONTROL_REGION_SIZE: nat := 0x1_0000
  const OBJECT_REGION: nat := 0x18_0000
  const SLOT_COUNT: nat := 16
  const BYTECODE_STRIDE: nat := 0x4000
  const PACKAGE_SIZE: nat := 0x2_0000
  const OBJECT_STRIDE: nat := PACKAGE_SIZE + 256

  const LINKED_HEADER_SIZE: nat := 36
  const DIRECTORY_SIZE: nat := 16
  const MANIFEST_SIZE: nat := 72
  const BLOCK_SIZE: nat := 72
  const SNAPSHOT_HEADER_SIZE: nat := 20
  const PARAMS_HEADER_SIZE: nat := 16
  const STACK_SIZE: nat := 1024
  const TIMER_SIZE: nat := 512
  const PARAMS_SIZE: nat := 256
  const SCRATCH_SIZE: nat := 512
  const DESCRIPTOR_SIZE: nat := 20
  const RUNTIME_HEADER_SIZE: nat := 28

  const BLOCK_MAGIC: u32 := 0x31424350
  const LINKED_MAGIC: u32 := 0x31474D49
  const SNAPSHOT_MAGIC: u32 := 0x3146534F
  const DIRECTORY_MAGIC: u32 := 0x31524453
  const PARAMS_MAGIC: u32 := 0x31524150
  const RUNTIME_MAGIC: u32 := 0x31564D50
  const RUNTIME_HEADER: u32 := SDRAM_BASE + RUNTIME_AT

  function AlignUp(value: nat, alignment: nat): nat
    requires alignment > 0
  {
    (value + alignment - 1) / alignment * alignment
  }

  function SlotBase(slot: nat): nat {
    BYTECODE_REGION + slot * BYTECODE_STRIDE
  }

  function CodeAt(slot: nat): nat {
    AlignUp(SlotBase(slot) + LINKED_HEADER_SIZE, 16)
  }

  function ScratchAt(slot: nat): nat {
    SlotBase(slot) + BYTECODE_STRIDE - SCRATCH_SIZE
  }

  function ParamsAt(slot: nat): nat {
    ScratchAt(slot) - PARAMS_SIZE
  }

  function TimerAt(slot: nat): nat {
    ParamsAt(slot) - TIMER_SIZE
  }

  function StackAt(slot: nat): nat {
    TimerAt(slot) - STACK_SIZE
  }

  function CodeCapacity(slot: nat): int {
    StackAt(slot) - CodeAt(slot)
  }

  function ManifestAt(slot: nat): nat {
    CONTROL_REGION + DIRECTORY_SIZE + slot * MANIFEST_SIZE
  }

  function BlockAt(slot: nat): nat {
    AlignUp(CONTROL_REGION + DIRECTORY_SIZE + SLOT_COUNT * MANIFEST_SIZE, 16) + slot * BLOCK_SIZE
  }

  function SnapshotAt(slot: nat): nat {
    OBJECT_REGION + slot * OBJECT_STRIDE
  }

  /** The layout in numbers: header, code, stack, timers, parameters and scratch follow each other. */
  lemma Layout(slot: nat)
    requires slot < SLOT_COUNT
    ensures CodeAt(slot) == SlotBase(slot) + 48
    ensures CodeCapacity(slot) == 14032 && StackAt(slot) == CodeAt(slot) + 14032
    ensures StackAt(slot) + STACK_SIZE == TimerAt(slot) && TimerAt(slot) + TIMER_SIZE == ParamsAt(slot)
    ensures ParamsAt(slot) + PARAMS_SIZE == ScratchAt(slot)
    ensures ScratchAt(slot) + SCRATCH_SIZE == SlotBase(slot) + BYTECODE_STRIDE
    ensures BlockAt(slot) == CONTROL_REGION + 1168 + slot * BLOCK_SIZE
    ensures SnapshotAt(slot) + OBJECT_STRIDE <= SDRAM_SIZE
  {
  }

  /** regionAvailable holds for these constants. */
  lemma RegionAvailable()
    ensures DESCRIPTORS_END <= BYTECODE_REGION && BYTECODE_REGION + BYTECODE_REGION_SIZE <= SDRAM_SIZE
    ensures OBJECT_REGION + SLOT_COUNT * OBJECT_STRIDE <= SDRAM_SIZE
    ensures BlockAt(SLOT_COUNT) <= CONTROL_REGION + CONTROL_REGION_SIZE <= SDRAM_SIZE
    ensures BYTECODE_REGION_SIZE == SLOT_COUNT * BYTECODE_STRIDE
  {
  }

  // Records

  function Absolute(at: nat): u32 {
    (SDRAM_BASE + at) % 0x1_0000_0000
  }

  /** What a load records about the program in a slot. */
  datatype Loaded = Loaded(codeSize: u32, entryOffset: u32, symbolCount: u16, relocationCount: u16,
                             maxInstructionsPerScan: u32, maxScanTimeUs: u32, runtimeHeader: u32, epoch: u32,
                             checksum: u32)

  function Words(words: seq<u32>): (s: seq<byte>)
    ensures |s| == 4 * |words|
  {
    if words == [] then [] else Le32(words[0]) + Words(words[1..])
  }

  function Halves(halves: seq<u16>): (s: seq<byte>)
    ensures |s| == 2 * |halves|
  {
    if halves == [] then [] else Le16(halves[0]) + Halves(halves[1..])
  }

  function LinkedHeaderBytes(slot: u16, p: Loaded): (s: seq<byte>)
    ensures |s| == LINKED_HEADER_SIZE
  {
    Words([LINKED_MAGIC]) + Halves([1, slot]) + Words([0, p.codeSize, p.entryOffset]) +
    Halves([p.symbolCount, p.relocationCount]) + Words([p.runtimeHeader, p.checksum, 0])
  }

  function DirectoryBytes(epoch: u32): (s: seq<byte>)
    ensures |s| == DIRECTORY_SIZE
  {
    Words([DIRECTORY_MAGIC]) + Halves([1, SLOT_COUNT, MANIFEST_SIZE, 0]) + Words([epoch])
  }

  function ManifestBytes(slot: u16, p: Loaded): (s: seq<byte>)
    requires slot < SLOT_COUNT
    ensures |s| == MANIFEST_SIZE
  {
    Halves([slot, 1]) +
    Words([1, 0, Absolute(BlockAt(slot)), Absolute(SlotBase(slot)), Absolute(CodeAt(slot)), p.codeSize,
           Absolute(StackAt(slot)), STACK_SIZE / 8, Absolute(TimerAt(slot)), TIMER_SIZE / 16, Absolute(ParamsAt(slot)), 0,
           Absolute(ScratchAt(slot)), SCRATCH_SIZE, p.runtimeHeader, p.checksum, p.epoch])
  }

  function BlockBytes(slot: u16, p: Loaded): (s: seq<byte>)
    requires slot < SLOT_COUNT
    ensures |s| == BLOCK_SIZE
  {
    Words([BLOCK_MAGIC]) + Halves([1, slot]) +
    Words([0, 1, p.entryOffset, 0, 0, 0, Absolute(CodeAt(slot)), p.codeSize, Absolute(StackAt(slot)), STACK_SIZE / 8,
           Absolute(TimerAt(slot)), TIMER_SIZE / 16, p.maxInstructionsPerScan, p.maxScanTimeUs, Absolute(ParamsAt(slot)),
           0])
  }

  function SnapshotHeaderBytes(slot: u16, size: u32, checksum: u32): (s: seq<byte>)
    ensures |s| == SNAPSHOT_HEADER_SIZE
  {
    Words([SNAPSHOT_MAGIC]) + Halves([1, slot]) + Words([0, size, checksum])
  }

  // Writes

  datatype Write = Write(at: nat, bytes: seq<byte>)

  predicate InMemory(memory: seq<byte>, writes: seq<Write>) {
    forall i | 0 <= i < |writes| :: writes[i].at + |writes[i].bytes| <= |memory|
  }

  function Apply(memory: seq<byte>, writes: seq<Write>): (r: seq<byte>)
    requires InMemory(memory, writes)
    ensures |r| == |memory|
    decreases writes
  {
    if writes == [] then memory else Apply(Patch(memory, writes[0].at, writes[0].bytes), writes[1..])
  }

  function Metadata(slot: u16, p: Loaded): seq<Write>
    requires slot < SLOT_COUNT
  {
    [Write(SlotBase(slot), LinkedHeaderBytes(slot, p)),
     Write(CONTROL_REGION, DirectoryBytes(p.epoch)),
     Write(ManifestAt(slot), ManifestBytes(slot, p)),
     Write(BlockAt(slot), BlockBytes(slot, p)),
     Write(StackAt(slot), Zeros(STACK_SIZE)),
     Write(TimerAt(slot), Zeros(TIMER_SIZE)),
     Write(ParamsAt(slot), Zeros(PARAMS_SIZE)),
     Write(ScratchAt(slot), Zeros(SCRATCH_SIZE))]
  }

  // Preparation

  /** SDRAM, the point catalog, and what is published of it. */
  datatype Board = Board(memory: seq<byte>, points: Points, publication: Publication) {
    predicate Valid() {
      && |memory| == SDRAM_SIZE && |points| <= MAX_POINTS && publication.count <= MAX_POINTS
      && publication.publisher.stride == STATE_SIZE
    }
  }

  /** The states kept for the first points. */
  function States(memory: seq<byte>, n: nat): (states: seq<seq<byte>>)
    requires |memory| == SDRAM_SIZE && n <= MAX_POINTS
    ensures |states| == n
  {
    seq(n, i requires 0 <= i < n => memory[STATES_AT + STATE_SIZE * i..STATES_AT + STATE_SIZE * i + STATE_SIZE])
  }

  function Flat(records: seq<seq<byte>>): seq<byte> {
    if records == [] then [] else Flat(records[..|records| - 1]) + records[|records| - 1]
  }

  /** mapFlags */
  function PointFlags(p: Point): byte {
    1 + (if IsWritable(p) then 2 else 0) + (if p.direction != Output then 4 else 0) +
    (if p.direction != Input then 8 else 0) + (if p.local then 16 else 0) + (if p.valueType == TYPE_FLOAT then 32 else 0) +
    (if p.valueType <= TYPE_ENUM && p.valueType != TYPE_FLOAT then 64 else 0)
  }

  function DescriptorBytes(p: Point, i: u16): (s: seq<byte>)
    ensures |s| == DESCRIPTOR_SIZE
  {
    var offset := i * STATE_SIZE;
    Halves([i]) + [RuntimeType(p.valueType).GetOr(0), PointFlags(p)] + Words([offset, offset + QUALITY_OFFSET, 0, 0])
  }

  function Descriptors(points: Points): (s: seq<byte>)
    requires |points| <= MAX_POINTS
    ensures |s| == DESCRIPTOR_SIZE * |points|
  {
    if points == [] then []
    else
      var last := |points| - 1;
      Descriptors(points[..last]) + DescriptorBytes(points[last], last)
  }

  function RuntimeHeaderBytes(p: Publication): (s: seq<byte>)
    requires p.count <= MAX_POINTS
    ensures |s| == RUNTIME_HEADER_SIZE
  {
    Words([RUNTIME_MAGIC]) + Halves([1, 0]) +
    Words([p.count, SDRAM_BASE + DESCRIPTORS_AT, SDRAM_BASE + STATES_AT, STATE_SIZE, p.epoch])
  }

  /** What preparing the slot's variables leaves: the catalog, what is published, and the writes to SDRAM. */
  datatype Prepared = Prepared(ok: bool, points: Points, publication: Publication, writes: seq<Write>)

  /** The states move with their points, and new variables have new states. */
  function MovedStates(board: Board, slot: u16, next: Points): seq<seq<byte>>
    requires board.Valid()
  {
    Moved(board.points, slot, States(board.memory, |board.points|), seq(|Variables(next, slot)|, _ => Zeros(STATE_SIZE)))
  }

  /** prepareSlotVariablePoints */
  function Prepare(board: Board, slot: u16, records: Option<seq<SymbolRecord>>, hash: u32): Prepared
    requires board.Valid()
  {
    var r := Reconcile(board.points, board.publication, slot, records, hash);
    ReconciledIs(board.points, board.publication, slot, records, hash);
    Prepared(r.ok, r.points, r.publication,
             (if r.changed then [Write(STATES_AT, Flat(MovedStates(board, slot, r.points)))] else []) +
             (if r.rebuilt then [Write(DESCRIPTORS_AT, Descriptors(r.points))] else []) +
             (if r.published then [Write(RUNTIME_AT, RuntimeHeaderBytes(r.publication))] else []))
  }

  /** What a program in the slot is linked against. */
  function ContextFor(points: Points, publication: Publication, slot: u16): Context {
    Context(publication.publisher, points, slot)
  }

  // Operations

  /** What a load does: what it reads to the code area, the preparation if it gets there, the linked code,
      and then, once linked, everything else. */
  datatype Load = Load(status: LoadStatus, read: seq<Write>, prepared: Option<Prepared>, code: seq<Write>, rest: seq<Write>)
  {
    function Preparation(): seq<Write> {
      if prepared.Some? then prepared.value.writes else []
    }

    function Writes(): seq<Write> {
      read + Preparation() + code + rest
    }
  }

  function Stopped(status: LoadStatus): Load {
    Load(status, [], None, [], [])
  }

  /** loadParsedObjectIntoSlot */
  function LoadParsed(prepared: Prepared, slot: u16, image: Image, maxInstructions: u32, maxTime: u32): Load
    requires |image.relocations| <= 0xFFFF && |image.symbols| <= 0xFFFF && |image.code| < 0x1_0000_0000
  {
    if SLOT_COUNT <= slot then Stopped(SlotOutOfRange)
    else if CodeCapacity(slot) < |image.code| then Stopped(BytecodeTooLarge)
    else if !Accepts(image.code) then Stopped(UnsupportedOpcode)
    else if !prepared.ok then Load(LinkFailed, [], Some(prepared), [], [])
    else
      var context := ContextFor(prepared.points, prepared.publication, slot);
      var linked := Link(context, image, CodeCapacity(slot));
      var code := if linked.1.Some? then [Write(CodeAt(slot), linked.1.value)] else [];
      if linked.0.status != LinkOk then Load(LinkFailed, [], Some(prepared), code, [])
      else
        var p := Loaded(|image.code|, image.entryOffset, |image.symbols|, |image.relocations|, maxInstructions, maxTime,
                         RUNTIME_HEADER, prepared.publication.epoch, Fnv.Checksum(linked.1.value));
        Load(LoadOk, [], Some(prepared), code, Metadata(slot, p))
  }

  predicate SnapshotFits(size: nat) {
    HEADER_SIZE <= size <= OBJECT_STRIDE - SNAPSHOT_HEADER_SIZE
  }

  /** writeObjectFileSnapshot */
  function StageSnapshot(slot: u16, file: seq<byte>): (bool, seq<Write>) {
    if SLOT_COUNT <= slot || !SnapshotFits(|file|) then (false, [])
    else
      (true, [Write(SnapshotAt(slot) + SNAPSHOT_HEADER_SIZE, file),
              Write(SnapshotAt(slot), SnapshotHeaderBytes(slot, |file|, Fnv.Checksum(file)))])
  }

  /** loadObjectFileIntoSlot */
  function LoadObject(prepared: Prepared, slot: u16, file: seq<byte>): Load {
    match ParseObject(file)
    case Err(_) => Stopped(ParseFailed)
    case Ok(parsed) =>
      var h := parsed.header;
      var load := LoadParsed(prepared, slot, parsed.image, h.maxInstructionsPerScan, h.maxScanTimeUs);
      if load.status != LoadOk then load
      else
        var staged := StageSnapshot(slot, file);
        load.(status := if staged.0 then LoadOk else BytecodeTooLarge, rest := load.rest + staged.1)
  }

  /** The code area after reading the code from flash, as far as that went. */
  function FlashCode(flash: Flash, offset: u32, h: Header): seq<byte> {
    var at := Address(offset, HEADER_SIZE);
    SpanBytes(flash, at, h.codeSize)[..Copied(flash, at, 0, h.codeSize)]
  }

  /** writeObjectFileSnapshotFromFlash */
  function StageFromFlash(slot: u16, flash: Flash, offset: u32, size: u32, checksum: u32): (bool, seq<Write>)
    requires slot < SLOT_COUNT
  {
    if !SnapshotFits(size) then (false, [])
    else
      var data := Write(SnapshotAt(slot) + SNAPSHOT_HEADER_SIZE,
                        SpanBytes(flash, offset, size)[..Copied(flash, offset, 0, size)]);
      if !SpanReadable(flash, offset, size) then (false, [data])
      else (true, [data, Write(SnapshotAt(slot), SnapshotHeaderBytes(slot, size, checksum))])
  }

  /** The symbol records in flash, as far as they can be read. */
  function FlashRecords(flash: Flash, offset: u32, h: Header, n: nat): Option<seq<SymbolRecord>> {
    if n == 0 then Some([])
    else
      var init := FlashRecords(flash, offset, h, n - 1);
      var symbol := Span(flash, RecordAddress(offset, h.symbolTableOffset, SYMBOL_SIZE, n - 1), SYMBOL_SIZE);
      if init.None? || symbol.None? then None else Some(init.value + [ReadSymbol(symbol.value)])
  }

  /** Linking from flash and what follows, with the code read to the code area. */
  function LoadLinked(prepared: Prepared, slot: u16, flash: Flash, offset: u32, h: Header, code: seq<byte>): Load
    requires slot < SLOT_COUNT && |code| == h.codeSize
  {
    var context := ContextFor(prepared.points, prepared.publication, slot);
    var linked := FlashLink(context, flash, offset, h, code, CodeCapacity(slot));
    var read, written := [Write(CodeAt(slot), code)], [Write(CodeAt(slot), linked.1)];
    if linked.0.status != LinkOk then Load(LinkFailed, read, Some(prepared), written, [])
    else
      var p := Loaded(h.codeSize, h.entryOffset, h.symbolCount, h.relocationCount, h.maxInstructionsPerScan,
                      h.maxScanTimeUs, h.runtimeHeaderAddress, prepared.publication.epoch, Fnv.Checksum(linked.1));
      var staged := StageFromFlash(slot, flash, offset, h.totalSize, h.checksum);
      Load(if staged.0 then LoadOk else BytecodeTooLarge, read, Some(prepared), written, Metadata(slot, p) + staged.1)
  }

  /** What loadObjectFileFromFlash does once the header is accepted and the code fits. */
  function LoadBehindHeader(prepared: Prepared, slot: u16, flash: Flash, offset: u32, h: Header): Load
    requires slot < SLOT_COUNT
  {
    var code := FlashCode(flash, offset, h);
    var read := [Write(CodeAt(slot), code)];
    if |code| != h.codeSize then Load(FlashReadFailed, read, None, [], [])
    else if !Accepts(code) then Load(UnsupportedOpcode, read, None, [], [])
    else if !prepared.ok then Load(LinkFailed, read, Some(prepared), [], [])
    else LoadLinked(prepared, slot, flash, offset, h, code)
  }

  /** loadObjectFileFromFlash */
  function LoadFlash(prepared: Prepared, slot: u16, flash: Flash, offset: u32, capacity: u32): Load {
    if SLOT_COUNT <= slot then Stopped(SlotOutOfRange)
    else
      match FlashHeader(flash, offset, capacity)
      case Err(status) => Stopped(status)
      case Ok(h) =>
        if CodeCapacity(slot) < h.codeSize then Stopped(BytecodeTooLarge)
        else LoadBehindHeader(prepared, slot, flash, offset, h)
  }

  /** The load epoch the parameters carry, if they start with a valid header. */
  function ParamsEpoch(params: seq<byte>): Option<u32> {
    if PARAMS_HEADER_SIZE <= |params| && Fetch32(params, 0) == PARAMS_MAGIC && Fetch16(params, 4) == 1 then
      Some(Fetch32(params, 12))
    else None
  }

  /** writeSlotParams. Without parameter bytes, only a size of zero succeeds. */
  function SetParams(slot: u16, params: Option<seq<byte>>, size: u32): (bool, seq<Write>)
    requires params.Some? ==> |params.value| == size
  {
    if SLOT_COUNT <= slot || PARAMS_SIZE < size then (false, [])
    else
      var cleared := [Write(ParamsAt(slot), Zeros(PARAMS_SIZE))];
      if size != 0 && params.None? then (false, cleared)
      else
        var bytes := params.GetOr([]);
        var epoch := ParamsEpoch(bytes);
        (true,
         cleared +
         [Write(ParamsAt(slot), bytes),
          Write(SlotBase(slot) + 32, Le32(size)),
          Write(ManifestAt(slot) + 44, Le32(Absolute(ParamsAt(slot)))),
          Write(ManifestAt(slot) + 48, Le32(size))] +
         (if epoch.Some? then [Write(ManifestAt(slot) + 68, Le32(epoch.value))] else []) +
         [Write(BlockAt(slot) + 64, Le32(Absolute(ParamsAt(slot)))),
          Write(BlockAt(slot) + 68, Le32(size))])
  }
}
