/** What a slot loaded straight from flash holds: the same program, wherever the linker in memory agrees. For
    files of the assembler it does. */
module FlashLoads {
  import opened Bytes
  import opened Memory
  import opened Lexer
  import opened Assembler
  import opened ObjectFile
  import opened ObjectParser
  import opened Catalog
  import opened SlotVariables
  import opened Linker
  import opened LinkedProgram
  import opened Placement
  import opened Staleness
  import opened FlashPages
  import opened FlashLinker
  import opened SlotMemory
  import opened SlotIsolation
  import Fnv

  lemma HeaderHeld(file: seq<byte>, flash: Flash, offset: u32, capacity: nat)
    requires ParseObject(file).Ok? && Holds(flash, offset, file) && FlashHeader(flash, offset, capacity).Ok?
    ensures FlashHeader(flash, offset, capacity).value == ParseObject(file).value.header
  {
    hide Holds, Span, FlashChecksum, HeaderAccepted, ReadSymbols, ReadRelocations, Fnv.Checksum, ReadHeader;
    HeldSpan(flash, offset, file, 0, HEADER_SIZE);
    assert (offset + 0) % 0x1_0000_0000 == offset;
    SameHeader(file[0..HEADER_SIZE], file);
  }

  lemma CodeHeld(file: seq<byte>, flash: Flash, offset: u32)
    requires ParseObject(file).Ok? && Holds(flash, offset, file)
    ensures FlashCode(flash, offset, ParseObject(file).value.header) == ParseObject(file).value.image.code
    ensures |ParseObject(file).value.image.code| == ParseObject(file).value.header.codeSize
  {
    hide ReadSymbols, ReadRelocations, Fnv.Checksum, ReadHeader;
    var h := ParseObject(file).value.header;
    assert HEADER_SIZE + h.codeSize <= |file|;
    var code := file[HEADER_SIZE..HEADER_SIZE + h.codeSize];
    assert ParseObject(file).value.image.code == code;
    assert Address(offset, HEADER_SIZE) == (offset + HEADER_SIZE) % 0x1_0000_0000;
    hide Holds, ParseObject, SpanReadable, SpanBytes, Copied, Address;
    HeldSpan(flash, offset, file, HEADER_SIZE, h.codeSize);
    var at := Address(offset, HEADER_SIZE);
    NothingReadable(flash, at);
    CopiedAll(flash, at, 0, h.codeSize);
  }

  lemma HeaderErrs(flash: Flash, offset: u32, capacity: nat)
    ensures FlashHeader(flash, offset, capacity) != Err(LoadOk)
  {
    hide Span, FlashChecksum, HeaderAccepted, ReadHeader;
  }

  /** What a successful load from flash went through. */
  lemma FlashLoadIs(prepared: Prepared, slot: u16, flash: Flash, offset: u32, capacity: u32)
    requires LoadFlash(prepared, slot, flash, offset, capacity).status == LoadOk
    ensures slot < SLOT_COUNT && prepared.ok && FlashHeader(flash, offset, capacity).Ok?
    ensures LoadFlash(prepared, slot, flash, offset, capacity).prepared == Some(prepared)
    ensures
      var h := FlashHeader(flash, offset, capacity).value;
      var code := FlashCode(flash, offset, h);
      && |code| == h.codeSize <= CodeCapacity(slot)
      && var context := ContextFor(prepared.points, prepared.publication, slot);
         var linked := FlashLink(context, flash, offset, h, code, CodeCapacity(slot));
         && linked.0.status == LinkOk
         && LoadFlash(prepared, slot, flash, offset, capacity).code == [Write(CodeAt(slot), linked.1)]
  {
    HeaderErrs(flash, offset, capacity);
    hide FlashHeader, FlashCode, Validator.Accepts, FlashLink, Metadata, StageFromFlash, CodeAt, CodeCapacity,
         Fnv.Checksum;
  }

  /** The points of the file's slot variables have their types. */
  predicate FileTyped(context: Context, file: seq<byte>) {
    ParseObject(file).Ok? && AllTyped(context, ParseObject(file).value.image, 0)
  }

  lemma FlashLinkedFor(context: Context, slot: u16, file: seq<byte>, flash: Flash, offset: u32)
    requires slot < SLOT_COUNT && context.slot == slot && ParseObject(file).Ok? && Holds(flash, offset, file)
    requires FileTyped(context, file)
    ensures |ParseObject(file).value.image.code| == ParseObject(file).value.header.codeSize
    ensures
      var parsed := ParseObject(file).value;
      var linked := FlashLink(context, flash, offset, parsed.header, parsed.image.code, CodeCapacity(slot));
      linked.0.status == LinkOk ==> LinkedFor(context, slot, file, linked.1)
  {
    hide ParseObject, Holds, FlashLink, Link, AllTyped;
    Layout(slot);
    FlashLinkRefined(context, file, flash, offset, CodeCapacity(slot));
  }

  /** A load from flash, in its parts. */
  lemma FlashOutcome(board: Board, slot: u16, flash: Flash, offset: u32, capacity: u32, hash: u32)
    requires board.Valid()
    ensures LoadingFlash(slot, flash, offset, capacity, hash).Valid()
    ensures
      var op := LoadingFlash(slot, flash, offset, capacity, hash);
      Outcomes(board, op) == OutcomeOf(LoadFlash(PreparedFor(board, op), slot, flash, offset, capacity))
  {
    hide LoadFlash, PreparedFor, OutcomeOf, Board.Valid;
  }

  lemma SlotIs(prepared: Prepared, slot: u16)
    ensures ContextFor(prepared.points, prepared.publication, slot).slot == slot
  {
  }

  /** After a successful load from flash the slot's code area holds the code as the linker in memory links
      it, if the points of the file's slot variables have their types. */
  lemma FlashLoadedCode(board: Board, slot: u16, flash: Flash, offset: u32, capacity: u32, hash: u32, file: seq<byte>)
    returns (code: seq<byte>)
    requires board.Valid() && Outcomes(board, LoadingFlash(slot, flash, offset, capacity, hash)).ok
    requires ParseObject(file).Ok? && Holds(flash, offset, file)
    requires
      var after := Perform(board, LoadingFlash(slot, flash, offset, capacity, hash));
      FileTyped(Contexts(after, slot), file)
    ensures
      var after := Perform(board, LoadingFlash(slot, flash, offset, capacity, hash));
      && LinkedFor(Contexts(after, slot), slot, file, code)
      && CodeAt(slot) + |code| <= StackAt(slot) <= SDRAM_SIZE
      && after.memory[CodeAt(slot)..CodeAt(slot) + |code|] == code
  {
    hide *;
    var op := LoadingFlash(slot, flash, offset, capacity, hash);
    var prepared := PreparedFor(board, op);
    var load := LoadFlash(prepared, slot, flash, offset, capacity);
    FlashOutcome(board, slot, flash, offset, capacity, hash);
    OutcomeParts(load);
    FlashLoadIs(prepared, slot, flash, offset, capacity);
    PerformIs(board, op, prepared);
    ContextAfter(Apply(board.memory, load.Writes()), prepared, slot);
    SlotIs(prepared, slot);
    HeaderHeld(file, flash, offset, capacity);
    CodeHeld(file, flash, offset);
    var context := ContextFor(prepared.points, prepared.publication, slot);
    var parsed := ParseObject(file).value;
    FlashLinkedFor(context, slot, file, flash, offset);
    code := FlashLink(context, flash, offset, parsed.header, parsed.image.code, CodeCapacity(slot)).1;
    PreparedIsSound(board, op);
    SoundIsRuntime(prepared);
    LoadFlashContained(prepared, slot, flash, offset, capacity);
    RestIsClear(slot, load);
    WritesAre(load);
    CapacityIs(slot);
    BoardSize(board);
    CodeReads(board.memory, slot, load.read + load.Preparation(), code, load.rest);
  }

  // Files of the assembler

  lemma BuiltParses(source: seq<string>, lines: seq<Line>, options: Options, host: Host)
    requires Builds(source, lines, options, host)
    ensures ParseObject(ObjectOf(source, options, host)).Ok?
  {
    hide ParseObject, ObjectBytes, Assemble, ReadLines, Representable;
    BuildThenParse(Assemble(source, options, host).value, options);
  }

  /** Reading the records from flash gives those of the file. */
  lemma {:induction false} RecordsHeld(file: seq<byte>, flash: Flash, offset: u32, n: nat)
    requires ParseObject(file).Ok? && Holds(flash, offset, file) && n <= |ParseObject(file).value.image.symbols|
    ensures FlashRecords(flash, offset, ParseObject(file).value.header, n) ==
            Some(ParseObject(file).value.image.symbols[..n])
  {
    hide ParseObject, Holds, Span, RecordAddress, ReadSymbol;
    if n != 0 {
      RecordsHeld(file, flash, offset, n - 1);
      SymbolHeld(file, flash, offset, n - 1);
      var symbols := ParseObject(file).value.image.symbols;
      assert symbols[..n] == symbols[..n - 1] + [symbols[n - 1]];
    }
  }

  lemma SymbolHeld(file: seq<byte>, flash: Flash, offset: u32, i: nat)
    requires ParseObject(file).Ok? && Holds(flash, offset, file) && i < |ParseObject(file).value.image.symbols|
    ensures
      var h := ParseObject(file).value.header;
      var symbol := Span(flash, RecordAddress(offset, h.symbolTableOffset, SYMBOL_SIZE, i), SYMBOL_SIZE);
      symbol.Some? && |symbol.value| == SYMBOL_SIZE && ReadSymbol(symbol.value) == ParseObject(file).value.image.symbols[i]
  {
    var h := ParseObject(file).value.header;
    SymbolAt(file, i);
    hide ParseObject, ReadSymbol;
    HeldRecord(flash, offset, file, h.symbolTableOffset, SYMBOL_SIZE, i);
  }

  lemma SymbolAt(file: seq<byte>, i: nat)
    requires ParseObject(file).Ok? && i < |ParseObject(file).value.image.symbols|
    ensures
      var h := ParseObject(file).value.header;
      && h.symbolTableOffset + SYMBOL_SIZE * i + SYMBOL_SIZE <= |file|
      && ParseObject(file).value.image.symbols[i] == ReadSymbol(Block(file, h.symbolTableOffset, SYMBOL_SIZE, i))
  {
    hide ReadHeader, ReadSymbol, Fnv.Checksum;
  }

  /** The assembler declares every name once. */
  lemma NamesDiffer(out: Output)
    requires Indexed(out)
    ensures DistinctNames(RecordsOf(out.symbols))
  {
    var records := RecordsOf(out.symbols);
    forall j, k | 0 <= j < k < |records| && records[j].kind == records[k].kind == SLOT_VAR
      ensures records[j].name != records[k].name
    {
      assert records[j].name == out.symbols[j].name && records[k].name == out.symbols[k].name;
    }
  }

  lemma PreparedParts(board: Board, slot: u16, records: seq<SymbolRecord>, hash: u32)
    requires board.Valid() && Prepare(board, slot, Some(records), hash).ok
    ensures Expected(board.points, slot, records).Some?
    ensures
      var added := Expected(board.points, slot, records).value;
      Replace(board.points, slot, added).Some?
      && Replace(board.points, slot, added).value.0 == Prepare(board, slot, Some(records), hash).points
  {
    hide Expected, Replace, NeedsPublish, Flat, MovedStates, Descriptors, RuntimeHeaderBytes;
    ReconciledIs(board.points, board.publication, slot, Some(records), hash);
  }

  /** After a preparation the linker in memory and the loader agree on the types of all slot variables, if no two
      have the same name. */
  lemma PreparedRecordIsTyped(board: Board, slot: u16, records: seq<SymbolRecord>, hash: u32, k: nat)
    requires board.Valid() && OnDevice(board.points, slot) && DistinctNames(records) && k < |records|
    requires Prepare(board, slot, Some(records), hash).ok
    ensures
      var prepared := Prepare(board, slot, Some(records), hash);
      Typed(ContextFor(prepared.points, prepared.publication, slot), records[k])
  {
    PreparedParts(board, slot, records, hash);
    hide Expected, Replace, Prepare, DistinctNames, OnDevice, SlotDevice, SlotFeature, FindIndex, BUILTIN_POINTS;
    var prepared := Prepare(board, slot, Some(records), hash);
    if records[k].kind == SLOT_VAR && SupportedSlotVariableType(records[k].expectedType) {
      PreparedIsTyped(board.points, slot, records, prepared.points, k);
    }
  }

  lemma AllRecordsTyped(context: Context, image: Image)
    requires forall k | 0 <= k < |image.symbols| :: Typed(context, image.symbols[k])
    ensures AllTyped(context, image, 0)
  {
    hide Typed;
  }

  lemma PreparedFromFlash(board: Board, slot: u16, flash: Flash, offset: u32, capacity: u32, hash: u32, file: seq<byte>)
    requires board.Valid() && ParseObject(file).Ok? && Holds(flash, offset, file)
    requires FlashHeader(flash, offset, capacity).Ok?
    ensures PreparedFor(board, LoadingFlash(slot, flash, offset, capacity, hash)) ==
            Prepare(board, slot, Some(ParseObject(file).value.image.symbols), hash)
  {
    hide Prepare, FlashHeader, Holds, FlashRecords;
    HeaderHeld(file, flash, offset, capacity);
    SymbolCount(file);
    hide ParseObject;
    var symbols := ParseObject(file).value.image.symbols;
    RecordsHeld(file, flash, offset, |symbols|);
    assert symbols[..|symbols|] == symbols;
  }

  lemma SymbolCount(file: seq<byte>)
    requires ParseObject(file).Ok?
    ensures |ParseObject(file).value.image.symbols| == ParseObject(file).value.header.symbolCount
  {
    hide ReadHeader, Fnv.Checksum;
  }

  /** Whatever the assembler builds is linked from flash as in memory, if the slot's points are local and on one
      device. */
  lemma BuiltIsTyped(source: seq<string>, lines: seq<Line>, options: Options, host: Host, board: Board, slot: u16,
                     flash: Flash, offset: u32, capacity: u32, hash: u32)
    requires Builds(source, lines, options, host) && board.Valid() && OnDevice(board.points, slot)
    requires Holds(flash, offset, ObjectOf(source, options, host))
    requires Outcomes(board, LoadingFlash(slot, flash, offset, capacity, hash)).ok
    ensures
      var after := Perform(board, LoadingFlash(slot, flash, offset, capacity, hash));
      FileTyped(Contexts(after, slot), ObjectOf(source, options, host))
  {
    hide *;
    var op := LoadingFlash(slot, flash, offset, capacity, hash);
    var file := ObjectOf(source, options, host);
    var prepared := PreparedFor(board, op);
    var load := LoadFlash(prepared, slot, flash, offset, capacity);
    FlashOutcome(board, slot, flash, offset, capacity, hash);
    OutcomeParts(load);
    FlashLoadIs(prepared, slot, flash, offset, capacity);
    PerformIs(board, op, prepared);
    ContextAfter(Apply(board.memory, load.Writes()), prepared, slot);
    var out := BuiltImage(source, lines, options, host);
    NamesDiffer(out);
    PreparedFromFlash(board, slot, flash, offset, capacity, hash, file);
    var image := ParseObject(file).value.image;
    var context := ContextFor(prepared.points, prepared.publication, slot);
    forall k | 0 <= k < |image.symbols|
      ensures Typed(context, image.symbols[k])
    {
      PreparedRecordIsTyped(board, slot, image.symbols, hash, k);
    }
    AllRecordsTyped(context, image);
    FileTypedIs(context, file);
  }

  lemma FileTypedIs(context: Context, file: seq<byte>)
    requires ParseObject(file).Ok? && AllTyped(context, ParseObject(file).value.image, 0)
    ensures FileTyped(context, file)
  {
    hide ParseObject, AllTyped;
  }

  /** From source text to a slot by way of flash: a source without `DB` that assembles, whose object is built,
      kept in flash and loads from there into a slot whose points are local and on one device, means the same
      there. While other slots are loaded and changed, its bytes stay; they go on to mean the same if and only
      if every symbol they use still resolves to the operand that was linked. */
  lemma FlashLoadedProgramMeans(source: seq<string>, lines: seq<Line>, options: Options, host: Host, board: Board,
                                slot: u16, flash: Flash, offset: u32, capacity: u32, hash: u32, ops: seq<Op>)
    returns (code: seq<byte>)
    requires Builds(source, lines, options, host) && board.Valid() && OnDevice(board.points, slot)
    requires Holds(flash, offset, ObjectOf(source, options, host))
    requires Outcomes(board, LoadingFlash(slot, flash, offset, capacity, hash)).ok
    requires AllValid(ops) && forall i | 0 <= i < |ops| :: ops[i].slot != slot
    ensures slot < SLOT_COUNT && ParseObject(ObjectOf(source, options, host)).Ok?
    ensures
      var file, symbols := ObjectOf(source, options, host), SymbolsOf(source, options, host);
      var loaded := Perform(board, LoadingFlash(slot, flash, offset, capacity, hash));
      var later := SlotIsolation.Run(loaded, ops);
      && CodeMeans(loaded, slot, |code|, lines, symbols, host)
      && later.memory[CodeAt(slot)..CodeAt(slot) + |code|] == code
      && (CodeMeans(later, slot, |code|, lines, symbols, host) <==>
          SameOperands(Contexts(loaded, slot), Contexts(later, slot), ImageOf(file)))
  {
    hide *;
    var file := ObjectOf(source, options, host);
    var op := LoadingFlash(slot, flash, offset, capacity, hash);
    FlashOutcome(board, slot, flash, offset, capacity, hash);
    BuiltParses(source, lines, options, host);
    BuiltIsTyped(source, lines, options, host, board, slot, flash, offset, capacity, hash);
    code := FlashLoadedCode(board, slot, flash, offset, capacity, hash, file);
    LinkedSlot(Contexts(Perform(board, op), slot), slot, file, code);
    HeldProgramMeans(source, lines, options, host, Perform(board, op), slot, code, ops);
  }
}
