/** The two ways to load a file, from memory and straight from flash: for what the assembler builds they are the
    same. */
module LoadsAgree {
  import opened Bytes
  import opened Memory
  import opened Isa
  import opened Lexer
  import opened Assembler
  import opened Code
  import opened Meaning
  import opened Placement
  import opened ObjectFile
  import opened ObjectParser
  import opened Catalog
  import opened SlotVariables
  import opened Linker
  import opened LinkedProgram
  import opened Staleness
  import opened FlashPages
  import opened FlashLinker
  import opened FlashLoads
  import opened Validator
  import opened SlotMemory
  import opened SlotIsolation
  import Fnv

  // When a load succeeds

  /** The file is parsed, its code fits, is accepted and links, and the file fits into its snapshot. */
  lemma ObjectLoadsExactly(prepared: Prepared, slot: u16, file: seq<byte>)
    ensures
      LoadObject(prepared, slot, file).status == LoadOk <==>
      && slot < SLOT_COUNT && ParseObject(file).Ok? && prepared.ok && SnapshotFits(|file|)
      && var image := ParseObject(file).value.image;
         && |image.code| <= CodeCapacity(slot) && Accepts(image.code) && |image.relocations| <= 0xFFFF
         && Link(ContextFor(prepared.points, prepared.publication, slot), image, CodeCapacity(slot)).0.status == LinkOk
  {
    hide ParseObject, Accepts, Link, Metadata, Fnv.Checksum, SnapshotHeaderBytes, SnapshotAt, CodeAt, CodeCapacity;
    if ParseObject(file).Ok? {
      SmallImage(file);
    }
  }

  lemma FlashLoadsExactly(prepared: Prepared, slot: u16, flash: Flash, offset: u32, capacity: u32)
    ensures
      LoadFlash(prepared, slot, flash, offset, capacity).status == LoadOk <==>
      && slot < SLOT_COUNT && FlashHeader(flash, offset, capacity).Ok? && prepared.ok
      && var h := FlashHeader(flash, offset, capacity).value;
         var code := FlashCode(flash, offset, h);
         && |code| == h.codeSize <= CodeCapacity(slot) && Accepts(code)
         && SnapshotFits(h.totalSize) && SpanReadable(flash, offset, h.totalSize)
         && FlashLink(ContextFor(prepared.points, prepared.publication, slot), flash, offset, h, code,
                      CodeCapacity(slot)).0.status == LinkOk
  {
    HeaderErrs(flash, offset, capacity);
    hide FlashHeader, FlashCode, Accepts, FlashLink, Metadata, SnapshotHeaderBytes, SnapshotAt, CodeAt, CodeCapacity,
         Fnv.Checksum, SpanReadable, SpanBytes, Copied;
  }

  // What the assembler builds

  /** The tables lie behind the code, and the header counts the whole file. */
  predicate WellLaid(file: seq<byte>) {
    && HEADER_SIZE <= |file| && ParseObject(file).Ok?
    && var h := ReadHeader(file);
       h.totalSize == |file| && HEADER_SIZE <= h.symbolTableOffset && HEADER_SIZE <= h.relocationTableOffset
  }

  lemma BuiltIsWellLaid(assembly: Assembly, options: Options)
    requires ObjectBytes(assembly, options).Ok? && Representable(assembly, options)
    ensures WellLaid(ObjectBytes(assembly, options).value)
  {
    BuildThenParse(assembly, options);
    Sections(assembly, options);
    var s := ObjectBytes(assembly, options).value;
    HeaderFields(assembly, options, Fnv.Checksum(s[HEADER_SIZE..]));
    hide RelocationTable, Fnv.Checksum, ReadHeader, HeaderFor, ParseObject, Representable, SymbolBytes;
  }

  lemma ObjectIsWellLaid(source: seq<string>, lines: seq<Line>, options: Options, host: Host)
    requires Builds(source, lines, options, host)
    ensures WellLaid(ObjectOf(source, options, host))
  {
    hide ReadLines, AllNoData, AssembleLines, ObjectBytes, Representable, WellLaid;
    BuiltIsWellLaid(Assemble(source, options, host).value, options);
  }

  predicate AccessKnown(symbols: seq<Symbol>) {
    forall i | 0 <= i < |symbols| :: symbols[i].access <= ACCESS_READ_WRITE
  }

  lemma UsedAccess(symbol: Symbol, valueType: byte, access: byte)
    requires symbol.access <= ACCESS_READ_WRITE
    ensures
      match Used(symbol, valueType, access)
      case Some(r) => r.access <= ACCESS_READ_WRITE
      case None => true
  {
  }

  lemma SymbolsAfterAccess(symbols: seq<Symbol>, instr: SourceInstr, index: map<string, nat>)
    requires Shaped(instr) && AccessKnown(symbols)
    ensures AccessKnown(SymbolsAfter(symbols, instr, index))
  {
    hide Used, OperandsOf, IsInstruction;
    if UsesPoint(instr) && instr.args[0].name in index && index[instr.args[0].name] < |symbols| {
      var operand := OperandsOf(instr.opcode)[0];
      UsedAccess(symbols[index[instr.args[0].name]], operand.valueType, operand.access);
    }
  }

  lemma DeclaredAccess(line: Line, options: Options)
    requires DeclarationOn(line, options).Some?
    ensures DeclarationOn(line, options).value.access <= ACCESS_READ_WRITE
  {
    hide KeywordOf, ValueTypeOf, RESERVED_NAMES, Upper;
  }

  lemma AddedAccess(out: Output, number: nat, symbol: Symbol)
    requires AccessKnown(out.symbols) && symbol.access <= ACCESS_READ_WRITE && AddSymbol(out, number, symbol).Ok?
    ensures AccessKnown(AddSymbol(out, number, symbol).value.symbols)
  {
    hide IsBlank;
  }

  lemma WriteLineAccess(out: Output, line: Line, labels: Labels, options: Options, host: Host)
    requires WellIndexed(out) && AccessKnown(out.symbols) && NoData(line)
    requires WriteLine(out, line, labels, options, host).Ok?
    ensures AccessKnown(WriteLine(out, line, labels, options, host).value.symbols)
  {
    hide WriteLine, InstrOf, DeclarationOn, Encode, SymbolsAfter, RelocationOf, AddSymbol, NoData, Meaning.Sound, Known,
         Shaped, AccessKnown;
    WriteLineMeaning(out, line, labels, options, host);
    match InstrOf(line, host)
    case Some(instr) => SymbolsAfterAccess(out.symbols, instr, out.index);
    case None =>
      match DeclarationOn(line, options)
      case Some(symbol) =>
        DeclaredAccess(line, options);
        AddedAccess(out, line.number, symbol);
      case None =>
  }

  lemma {:induction false} WriteLinesAccess(out: Output, lines: seq<Line>, labels: Labels, options: Options, host: Host)
    requires WellIndexed(out) && AccessKnown(out.symbols) && AllNoData(lines)
    requires WriteLines(out, lines, labels, options, host).Ok?
    ensures AccessKnown(WriteLines(out, lines, labels, options, host).value.symbols)
    decreases lines
  {
    hide WriteLine, WellIndexed, AccessKnown, NoData;
    if lines != [] {
      WriteLineAccess(out, lines[0], labels, options, host);
      WriteLinesAccess(WriteLine(out, lines[0], labels, options, host).value, lines[1..], labels, options, host);
    }
  }

  /** The assembler only knows the three kinds of access. */
  lemma SymbolsAccess(source: seq<string>, lines: seq<Line>, options: Options, host: Host)
    requires Builds(source, lines, options, host)
    ensures AccessKnown(SymbolsOf(source, options, host))
  {
    hide ReadLines, WriteLines, LabelLines, NoData, ObjectBytes, Representable;
    assert AccessKnown(EMPTY.symbols);
    WriteLinesAccess(EMPTY, lines, LabelLines(lines, 0, map[]).value, options, host);
  }

  // From memory to flash

  /** What preparation lets through has no built-in names. */
  lemma PreparedNames(board: Board, slot: u16, records: seq<SymbolRecord>, hash: u32, k: nat)
    requires board.Valid() && Prepare(board, slot, Some(records), hash).ok
    requires k < |records| && records[k].kind == SLOT_VAR
    ensures records[k].name != "" && records[k].name !in BUILTIN_POINTS
  {
    hide *;
    PreparedParts(board, slot, records, hash);
    ExpectedOf(board.points, slot, records, k);
    ExpectedPlace(board.points, slot, records[k]);
  }

  lemma PreparedAdmissible(board: Board, slot: u16, symbols: seq<Symbol>, hash: u32, image: Image)
    requires board.Valid() && image.symbols == RecordsOf(symbols) && AccessKnown(symbols)
    requires Prepare(board, slot, Some(image.symbols), hash).ok
    ensures AllAdmissible(image, 0)
  {
    hide Prepare, BUILTIN_POINTS, Board.Valid;
    forall k | 0 <= k < |image.symbols|
      ensures Admissible(image.symbols[k])
    {
      assert image.symbols[k].access == symbols[k].access;
      if image.symbols[k].kind == SLOT_VAR {
        PreparedNames(board, slot, image.symbols, hash, k);
      }
    }
  }

  lemma HeldWhole(flash: Flash, offset: u32, file: seq<byte>)
    requires Holds(flash, offset, file) && WellLaid(file)
    ensures FlashHeader(flash, offset, |file|).Ok?
    ensures FlashHeader(flash, offset, |file|).value == ParseObject(file).value.header
    ensures SpanReadable(flash, offset, |file|) && ParseObject(file).value.header.totalSize == |file|
  {
    hide *;
    LaidOut(file);
    HeaderIs(file);
    FlashHeaderAlike(file, flash, offset);
    HeldSpan(flash, offset, file, 0, |file|);
    HeldReads(flash, offset, file);
  }

  lemma LaidOut(file: seq<byte>)
    requires WellLaid(file)
    ensures HEADER_SIZE <= |file| && ParseObject(file).Ok? && ReadHeader(file).totalSize == |file|
    ensures HEADER_SIZE <= ReadHeader(file).symbolTableOffset && HEADER_SIZE <= ReadHeader(file).relocationTableOffset
  {
    hide ParseObject, ReadHeader;
  }

  lemma HeldReads(flash: Flash, offset: u32, file: seq<byte>)
    requires Span(flash, (offset + 0) % 0x1_0000_0000, |file|) == Some(file[0..|file|])
    ensures SpanReadable(flash, offset, |file|)
  {
    assert (offset + 0) % 0x1_0000_0000 == offset;
    hide SpanReadable, SpanBytes;
  }

  lemma HeaderIs(file: seq<byte>)
    requires ParseObject(file).Ok?
    ensures HEADER_SIZE <= |file| && ParseObject(file).value.header == ReadHeader(file)
    ensures HEADER_SIZE + ReadHeader(file).codeSize <= |file| && |ParseObject(file).value.image.relocations| <= 0xFFFF
    ensures ReadHeader(file).codeSize < 0x1_0000_0000
  {
    hide ReadHeader, ReadSymbols, ReadRelocations, Fnv.Checksum;
  }

  /** If the file loads from memory, it loads from flash exactly if its slot variables are admissible. */
  lemma FlashFollows(prepared: Prepared, slot: u16, flash: Flash, offset: u32, file: seq<byte>)
    requires Holds(flash, offset, file) && WellLaid(file) && |file| < 0x1_0000_0000
    requires LoadObject(prepared, slot, file).status == LoadOk
    ensures
      LoadFlash(prepared, slot, flash, offset, |file|).status == LoadOk <==>
      AllAdmissible(ParseObject(file).value.image, 0)
  {
    ObjectLoadsExactly(prepared, slot, file);
    FlashLoadsExactly(prepared, slot, flash, offset, |file|);
    HeldWhole(flash, offset, file);
    CodeHeld(file, flash, offset);
    hide LoadObject, LoadFlash, ParseObject, FlashHeader, FlashCode, Accepts, Link, FlashLink, CodeCapacity, SpanReadable,
         AllAdmissible, Holds, SnapshotFits;
    SlotIs(prepared, slot);
    NoSlotIs(slot);
    FlashLinkRefines(ContextFor(prepared.points, prepared.publication, slot), file, flash, offset, CodeCapacity(slot));
  }

  lemma NoSlotIs(slot: u16)
    ensures slot < SLOT_COUNT ==> slot != NO_SLOT && 0 <= CodeCapacity(slot)
  {
    if slot < SLOT_COUNT {
      Layout(slot);
    }
  }

  /** And the other way round, as long as its slot variables have their types. */
  lemma ObjectFollows(prepared: Prepared, slot: u16, flash: Flash, offset: u32, file: seq<byte>)
    requires Holds(flash, offset, file) && WellLaid(file) && |file| < 0x1_0000_0000
    requires LoadFlash(prepared, slot, flash, offset, |file|).status == LoadOk
    ensures
      LoadObject(prepared, slot, file).status == LoadOk <==>
      FileTyped(ContextFor(prepared.points, prepared.publication, slot), file)
  {
    ObjectLoadsExactly(prepared, slot, file);
    FlashLoadsExactly(prepared, slot, flash, offset, |file|);
    HeldWhole(flash, offset, file);
    CodeHeld(file, flash, offset);
    HeaderIs(file);
    hide LoadObject, LoadFlash, ParseObject, FlashHeader, FlashCode, Accepts, Link, FlashLink, CodeCapacity, SpanReadable,
         AllTyped, Holds, SnapshotFits;
    SlotIs(prepared, slot);
    NoSlotIs(slot);
    FlashLinkRefined(ContextFor(prepared.points, prepared.publication, slot), file, flash, offset, CodeCapacity(slot));
  }

  lemma FileIsSmall(flash: Flash, offset: u32, file: seq<byte>)
    requires Holds(flash, offset, file)
    ensures |file| < 0x1_0000_0000
  {
  }

  lemma ObjectPrepared(board: Board, slot: u16, file: seq<byte>, hash: u32)
    requires board.Valid() && ParseObject(file).Ok?
    ensures PreparedFor(board, LoadingObject(slot, file, hash)) ==
            Prepare(board, slot, Some(ParseObject(file).value.image.symbols), hash)
  {
    hide Prepare, ParseObject, Board.Valid;
  }

  /** Whatever the assembler builds loads from flash exactly when it loads from memory, to the same code and the
      same catalog, if the slot's points are local and on one device. */
  lemma LoadsAgree(source: seq<string>, lines: seq<Line>, options: Options, host: Host, board: Board, slot: u16,
                   flash: Flash, offset: u32, hash: u32)
    requires Builds(source, lines, options, host) && board.Valid() && OnDevice(board.points, slot)
    requires Holds(flash, offset, ObjectOf(source, options, host))
    ensures |ObjectOf(source, options, host)| < 0x1_0000_0000
    ensures
      var file := ObjectOf(source, options, host);
      var one, two := LoadingObject(slot, file, hash), LoadingFlash(slot, flash, offset, |file|, hash);
      && one.Valid() && two.Valid()
      && (Outcomes(board, one).ok <==> Outcomes(board, two).ok)
      && (Outcomes(board, one).ok ==>
            && Perform(board, one).points == Perform(board, two).points
            && Perform(board, one).publication == Perform(board, two).publication
            && exists code: seq<byte> ::
                 && CodeHolds(Perform(board, one), slot, code) && CodeHolds(Perform(board, two), slot, code)
                 && LinkedFor(Contexts(Perform(board, one), slot), slot, file, code))
  {
    hide *;
    var file := ObjectOf(source, options, host);
    FileIsSmall(flash, offset, file);
    ObjectIsWellLaid(source, lines, options, host);
    BuiltParses(source, lines, options, host);
    HeldWhole(flash, offset, file);
    var one, two := LoadingObject(slot, file, hash), LoadingFlash(slot, flash, offset, |file|, hash);
    ObjectOutcome(board, slot, file, hash);
    FlashOutcome(board, slot, flash, offset, |file|, hash);
    ObjectPrepared(board, slot, file, hash);
    PreparedFromFlash(board, slot, flash, offset, |file|, hash, file);
    var prepared := PreparedFor(board, one);
    OutcomeParts(LoadObject(prepared, slot, file));
    OutcomeParts(LoadFlash(prepared, slot, flash, offset, |file|));
    if Outcomes(board, one).ok {
      ObjectLoadsExactly(prepared, slot, file);
      var out := BuiltImage(source, lines, options, host);
      SymbolsAccess(source, lines, options, host);
      PreparedAdmissible(board, slot, out.symbols, hash, ParseObject(file).value.image);
      FlashFollows(prepared, slot, flash, offset, file);
    }
    if Outcomes(board, two).ok {
      BuiltIsTyped(source, lines, options, host, board, slot, flash, offset, |file|, hash);
      FlashLoadIs(prepared, slot, flash, offset, |file|);
      PerformIs(board, two, prepared);
      ContextAfter(Apply(board.memory, Outcomes(board, two).writes), prepared, slot);
      ObjectFollows(prepared, slot, flash, offset, file);
      SameCode(board, slot, flash, offset, hash, file, prepared);
    }
  }

  /** The code area of the slot begins with the code. */
  predicate CodeHolds(board: Board, slot: u16, code: seq<byte>) {
    && slot < SLOT_COUNT && CodeAt(slot) + |code| <= StackAt(slot) <= |board.memory|
    && board.memory[CodeAt(slot)..CodeAt(slot) + |code|] == code
  }

  lemma SameCode(board: Board, slot: u16, flash: Flash, offset: u32, hash: u32, file: seq<byte>, prepared: Prepared)
    requires board.Valid() && |file| < 0x1_0000_0000 && ParseObject(file).Ok? && Holds(flash, offset, file)
    requires LoadingObject(slot, file, hash).Valid() && LoadingFlash(slot, flash, offset, |file|, hash).Valid()
    requires
      var one, two := LoadingObject(slot, file, hash), LoadingFlash(slot, flash, offset, |file|, hash);
      && PreparedFor(board, one) == prepared == PreparedFor(board, two)
      && Outcomes(board, one).ok && Outcomes(board, two).ok
      && FileTyped(Contexts(Perform(board, two), slot), file)
    ensures
      var one, two := LoadingObject(slot, file, hash), LoadingFlash(slot, flash, offset, |file|, hash);
      && Perform(board, one).points == Perform(board, two).points
      && Perform(board, one).publication == Perform(board, two).publication
      && exists code: seq<byte> ::
           && CodeHolds(Perform(board, one), slot, code) && CodeHolds(Perform(board, two), slot, code)
           && LinkedFor(Contexts(Perform(board, one), slot), slot, file, code)
  {
    hide *;
    var one, two := LoadingObject(slot, file, hash), LoadingFlash(slot, flash, offset, |file|, hash);
    ObjectOutcome(board, slot, file, hash);
    FlashOutcome(board, slot, flash, offset, |file|, hash);
    OutcomeParts(LoadObject(prepared, slot, file));
    OutcomeParts(LoadFlash(prepared, slot, flash, offset, |file|));
    FlashLoadIs(prepared, slot, flash, offset, |file|);
    var ignored := LoadedIsLinked(prepared, slot, file);
    PerformIs(board, one, prepared);
    PerformIs(board, two, prepared);
    ContextAfter(Apply(board.memory, Outcomes(board, one).writes), prepared, slot);
    ContextAfter(Apply(board.memory, Outcomes(board, two).writes), prepared, slot);
    var code := LoadedCode(board, slot, file, hash);
    var again := FlashLoadedCode(board, slot, flash, offset, |file|, hash, file);
    var context := ContextFor(prepared.points, prepared.publication, slot);
    LinkedIs(context, slot, file, code);
    LinkedIs(context, slot, file, again);
    LinkedSlot(context, slot, file, code);
    BoardSize(Perform(board, one));
    BoardSize(Perform(board, two));
    CodeHoldsIs(Perform(board, one), slot, code);
    CodeHoldsIs(Perform(board, two), slot, code);
  }

  lemma CodeHoldsIs(board: Board, slot: u16, code: seq<byte>)
    requires slot < SLOT_COUNT && CodeAt(slot) + |code| <= StackAt(slot) <= SDRAM_SIZE == |board.memory|
    requires board.memory[CodeAt(slot)..CodeAt(slot) + |code|] == code
    ensures CodeHolds(board, slot, code)
  {
  }
}
