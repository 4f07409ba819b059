/** Which points a program may read and write: what linking admits, in memory and from flash. */
module PointAccess {
  import opened Bytes
  import opened Memory
  import opened Isa
  import opened Literals
  import opened Lexer
  import opened Assembler
  import opened Meaning
  import opened Placement
  import opened SymbolUses
  import opened ObjectFile
  import opened ObjectParser
  import opened Catalog
  import opened SlotVariables
  import opened Linker
  import opened LinkedProgram
  import opened Staleness
  import opened FlashPages
  import opened FlashLinker
  import opened LoadsAgree
  import opened SlotMemory
  import opened SlotIsolation
  import Fnv

  // One request

  /** The last point with the identity. */
  predicate IsPointOf(points: Points, id: Identity, i: nat) {
    i < |points| && points[i].id == id && forall k | i < k < |points| :: points[k].id != id
  }

  /** A type that links, for a point and for its use: the same one, but enumerations are 16-bit integers. */
  predicate SameType(actual: byte, expected: byte) {
    actual <= 6 && expected <= 6 && (actual == expected || ((actual == 2 || actual == 6) && (expected == 2 || expected == 6)))
  }

  /** A variable of a program: a point of a numbered slot, but none of those that every slot has. */
  predicate IsProgramVariable(id: Identity) {
    && 8 < |id.feature| && id.feature[..8] == "plc.slot"
    && (forall i | 8 <= i < |id.feature| :: '0' <= id.feature[i] <= '9')
    && id.point != "" && id.point !in BUILTIN_POINTS
  }

  /** The point may be written: it is an output, also an output, or a variable. */
  predicate MayBeWritten(p: Point) {
    p.direction == Direction.Output || p.direction == InOut || IsProgramVariable(p.id)
  }

  lemma ProgramVariableIs(id: Identity)
    ensures IsProgramVariable(id) <==> IsDynamicSlotVariable(id)
  {
    hide BUILTIN_POINTS;
    if |SLOT_FEATURE| < |id.feature| {
      var digits := id.feature[8..];
      assert forall i | 0 <= i < |digits| :: digits[i] == id.feature[i + 8];
      assert forall i | 8 <= i < |id.feature| :: id.feature[i] == digits[i - 8];
    }
  }

  lemma TypesExactly(actual: byte, expected: byte)
    ensures RuntimeType(actual).Some? && RuntimeType(expected) == RuntimeType(actual) <==> SameType(actual, expected)
    ensures RuntimeType(actual).Some? <==> actual <= 6
  {
  }

  /** What a request is answered: a point resolves exactly if it is published, has the type, and is read or may be
      written. */
  lemma RequestExactly(publisher: Publisher, points: Points, id: Identity, expectedType: byte, access: byte, i: nat)
    requires IsPointOf(points, id, i)
    ensures
      var r, p := ResolveLinkRequest(publisher, points, id, expectedType, access), points[i];
      var admitted := access == 0 || (access <= 2 && MayBeWritten(p));
      && (r.status == Resolved <==>
            publisher.ready && i < 1024 && SameType(p.valueType, expectedType) && admitted)
      && (r.status == Resolved ==> r.index == i && r.offset == i * publisher.stride % 0x1_0000_0000)
      && (r.status == AccessDenied <==> SameType(p.valueType, expectedType) && !admitted)
      && (r.status == TypeMismatch <==> p.valueType <= 6 && !SameType(p.valueType, expectedType))
      && r.status != NotFound
  {
    LastIs(points, id, i);
    TypesExactly(points[i].valueType, expectedType);
    ProgramVariableIs(points[i].id);
    hide FindIndex, RuntimeType, SameType, IsProgramVariable, IsDynamicSlotVariable;
  }

  lemma NoPointNotFound(publisher: Publisher, points: Points, id: Identity, expectedType: byte, access: byte)
    ensures ResolveLinkRequest(publisher, points, id, expectedType, access).status == NotFound <==> Lacks(points, id)
  {
    hide RuntimeType, AccessAllowed;
  }

  // A program's symbols

  /** The identity a symbol stands for. */
  function IdentityFor(context: Context, symbol: Symbol): Identity
    requires context.points != []
  {
    if symbol.kind == SLOT_VAR then
      Identity(SlotDevice(context.points, SlotFeature(context.slot)), SlotFeature(context.slot), symbol.name)
    else SymbolIdentity(symbol).GetOr(NO_IDENTITY)
  }

  predicate AnyUses(program: seq<SourceInstr>, name: string)
    requires forall k | 0 <= k < |program| :: Shaped(program[k])
  {
    exists k | 0 <= k < |program| :: Uses(program[k], name)
  }

  predicate AllUsesFit(program: seq<SourceInstr>, name: string, valueType: byte)
    requires forall k | 0 <= k < |program| :: Shaped(program[k])
  {
    forall k | 0 <= k < |program| :: Uses(program[k], name) ==> SameType(valueType, UsedType(program[k]))
  }

  /** Every use of a point has a relocation. */
  lemma {:induction false} RelocationOfUse(program: seq<SourceInstr>, at: nat, index: map<string, nat>, k: nat)
    returns (n: nat)
    requires forall i | 0 <= i < |program| :: Shaped(program[i]) && Known(program[i], index)
    requires k < |program| && UsesPoint(program[k])
    ensures n < |RelocationsOf(program, at, index)|
    ensures RelocationsOf(program, at, index)[n].symbolIndex == index[program[k].args[0].name]
    decreases program
  {
    hide Shaped, Known, OperandsOf, SizeOf;
    var first := RelocationOf(program[0], at, index);
    if k == 0 {
      OneRelocation(program[0], at, index);
      n := 0;
    } else {
      var m := RelocationOfUse(program[1..], at + SizeOf(program[0].opcode), index, k - 1);
      n := |first| + m;
    }
  }

  lemma UsedIndex(out: Output, program: seq<SourceInstr>, i: nat, k: nat)
    requires Indexed(out) && i < |out.symbols| && k < |program| && Shaped(program[k]) && Known(program[k], out.index)
    requires Uses(program[k], out.symbols[i].name)
    ensures UsesPoint(program[k]) && program[k].args[0].name in out.index && out.index[program[k].args[0].name] == i
  {
    hide OperandsOf, IsInstruction;
  }

  /** The relocation of a symbol that is used. */
  lemma UsedRelocation(source: seq<string>, lines: seq<Line>, options: Options, host: Host, i: nat) returns (n: nat)
    requires Builds(source, lines, options, host) && i < |SymbolsOf(source, options, host)|
    requires AnyUses(Program(lines, host), SymbolsOf(source, options, host)[i].name)
    ensures ParseObject(ObjectOf(source, options, host)).Ok?
    ensures
      var image := ImageOf(ObjectOf(source, options, host));
      && image.symbols == RecordsOf(SymbolsOf(source, options, host))
      && n < |image.relocations| && image.relocations[n].symbolIndex == i
  {
    var symbols, program := SymbolsOf(source, options, host), Program(lines, host);
    hide Builds, SymbolsOf, ObjectOf, Program, Uses, Shaped, Known, Indexed, RelocationsOf, RecordsOf, ParseObject;
    var out := BuiltImage(source, lines, options, host);
    KnownEach(program, out.index);
    var k :| 0 <= k < |program| && Uses(program[k], symbols[i].name);
    UsedIndex(out, program, i, k);
    n := RelocationOfUse(program, 0, out.index, k);
  }

  /** The record of a symbol says what the program makes of it. */
  lemma RecordUses(source: seq<string>, lines: seq<Line>, options: Options, host: Host, i: nat)
    requires Builds(source, lines, options, host) && i < |SymbolsOf(source, options, host)|
    ensures
      var symbol, program := SymbolsOf(source, options, host)[i], Program(lines, host);
      && RecordOf(symbol).name == symbol.name && RecordOf(symbol).kind == symbol.kind
      && RecordOf(symbol).expectedType == symbol.valueType
      && RecordOf(symbol).access == (if symbol.kind == SLOT_VAR || AnyStores(program, symbol.name) then 2 else 0)
      && AllTypesAre(program, symbol.name, symbol.valueType)
  {
    hide ReadLines, AllNoData, WriteLines, LabelLines, ObjectBytes, Representable, AnyStores, AllTypesAre, Program,
         SymbolIdentity;
    FinalUses(lines, options, host, i);
  }

  lemma FitAll(program: seq<SourceInstr>, name: string, valueType: byte, actual: byte)
    requires forall k | 0 <= k < |program| :: Shaped(program[k])
    requires AllTypesAre(program, name, valueType) && SameType(actual, valueType)
    ensures AllUsesFit(program, name, actual)
  {
    hide Shaped, Uses, UsedType, SameType;
  }

  /** A record that resolves by the linker's rules. */
  lemma ResolvedRecord(context: Context, symbol: Symbol) returns (j: nat)
    requires LinkOf(context, RecordOf(symbol)).status == Resolved && context.slot != NO_SLOT
    requires RecordOf(symbol).kind == symbol.kind && RecordOf(symbol).name == symbol.name
    requires RecordOf(symbol).expectedType == symbol.valueType
    ensures context.points != [] && IsPointOf(context.points, IdentityFor(context, symbol), j)
    ensures LinkOf(context, RecordOf(symbol)).index == j < 1024
    ensures LinkOf(context, RecordOf(symbol)).offset == j * context.publisher.stride % 0x1_0000_0000
    ensures SameType(context.points[j].valueType, symbol.valueType)
    ensures
      var access := RecordOf(symbol).access;
      symbol.kind != SLOT_VAR ==> access == 0 || (access <= 2 && MayBeWritten(context.points[j]))
    ensures symbol.kind == SLOT_VAR ==> IsProgramVariable(context.points[j].id) || symbol.name in BUILTIN_POINTS
  {
    var record := RecordOf(symbol);
    var id := IdentityOfRecord(context, symbol);
    j := FindIndex(context.points, id);
    if symbol.kind == SLOT_VAR {
      VariableIdentity(context.slot, id.device, symbol.name);
    } else {
      RequestExactly(context.publisher, context.points, id, record.expectedType, record.access, j);
    }
    hide BUILTIN_POINTS, SlotDevice, SlotFeature, FindIndex, IsProgramVariable, RuntimeType, AccessAllowed, SymbolIdentity,
         ResolveLinkRequest;
  }

  /** Linking resolves a symbol by its own identity. */
  lemma IdentityOfRecord(context: Context, symbol: Symbol) returns (id: Identity)
    requires LinkOf(context, RecordOf(symbol)).status == Resolved && context.slot != NO_SLOT
    ensures context.points != [] && id == IdentityFor(context, symbol) && FindIndex(context.points, id) < |context.points|
    ensures
      var record := RecordOf(symbol);
      symbol.kind != SLOT_VAR ==>
        LinkOf(context, record) ==
        ResolveLinkRequest(context.publisher, context.points, id, record.expectedType, record.access)
    ensures
      symbol.kind == SLOT_VAR ==>
        && symbol.name != "" && SupportedSlotVariableType(RecordOf(symbol).expectedType)
        && LinkOf(context, RecordOf(symbol)) ==
           ResolveSlotVariable(context.publisher, context.points, RecordOf(symbol).(id := id))
  {
    hide SlotDevice, SlotFeature, FindIndex, RuntimeType, AccessAllowed, SymbolIdentity;
    var record := RecordOf(symbol);
    if symbol.kind == SLOT_VAR {
      id := SlotVariableIdentity(context, symbol.name).value;
    } else {
      id := record.id;
    }
  }

  lemma VariableIdentity(slot: u16, device: string, name: string)
    requires name != ""
    ensures IsProgramVariable(Identity(device, SlotFeature(slot), name)) || name in BUILTIN_POINTS
  {
    hide BUILTIN_POINTS;
    var feature := SlotFeature(slot);
    DecimalIsDigits(slot);
    assert feature[..8] == SLOT_FEATURE && feature[8..] == Decimal(slot);
    assert forall i | 8 <= i < |feature| :: feature[i] == Decimal(slot)[i - 8];
  }

  // What linking admits

  lemma AllResolved(source: seq<string>, lines: seq<Line>, options: Options, host: Host, context: Context, capacity: nat,
                    n: nat)
    requires Builds(source, lines, options, host) && ParseObject(ObjectOf(source, options, host)).Ok?
    requires n < |ImageOf(ObjectOf(source, options, host)).relocations| <= 0xFFFF
    requires Link(context, ImageOf(ObjectOf(source, options, host)), capacity).0.status == LinkOk
    ensures
      var image := ImageOf(ObjectOf(source, options, host));
      image.relocations[n].symbolIndex < |image.symbols| &&
      LinkOf(context, image.symbols[image.relocations[n].symbolIndex]).status == Resolved
  {
    hide Builds, SymbolsOf, ObjectOf, ParseObject, Link, Means, LinkOf, PatchBytes;
    MeansExactly(source, lines, options, host, context, context, capacity);
    LinkingPreservesProgram(source, lines, options, host, context, capacity);
    var image := ImageOf(ObjectOf(source, options, host));
    assert SameOperand(context, context, image.symbols, image.relocations[n]);
  }

  lemma FewRelocationsIn(file: seq<byte>)
    requires ParseObject(file).Ok?
    ensures |ImageOf(file).relocations| <= 0xFFFF
  {
    hide ReadHeader, ReadSymbols, Fnv.Checksum;
  }

  /** What linking in memory admits. When a source links, every symbol it uses resolves to the last point of its
      identity, whose type is that of every use, and is linked to that point's index and to where its state is
      kept; and if any instruction stores to it, the point is an output, also an output, or a variable of a
      program, unless it is a slot variable with a built-in name. */
  lemma LinkedUses(source: seq<string>, lines: seq<Line>, options: Options, host: Host, context: Context, capacity: nat,
                   i: nat) returns (j: nat)
    requires Builds(source, lines, options, host) && i < |SymbolsOf(source, options, host)| && context.slot != NO_SLOT
    requires AnyUses(Program(lines, host), SymbolsOf(source, options, host)[i].name)
    requires ParseObject(ObjectOf(source, options, host)).Ok?
    requires |ImageOf(ObjectOf(source, options, host)).relocations| <= 0xFFFF
    requires Link(context, ImageOf(ObjectOf(source, options, host)), capacity).0.status == LinkOk
    ensures context.points != [] && j < 1024
    ensures
      var symbol, program := SymbolsOf(source, options, host)[i], Program(lines, host);
      && IsPointOf(context.points, IdentityFor(context, symbol), j)
      && LinkOf(context, RecordOf(symbol)) == LinkResult(Resolved, j, j * context.publisher.stride % 0x1_0000_0000)
      && AllUsesFit(program, symbol.name, context.points[j].valueType)
      && (AnyStores(program, symbol.name) ==>
            MayBeWritten(context.points[j]) || (symbol.kind == SLOT_VAR && symbol.name in BUILTIN_POINTS))
  {
    hide *;
    var symbol, program := SymbolsOf(source, options, host)[i], Program(lines, host);
    RecordUses(source, lines, options, host, i);
    var n := UsedRelocation(source, lines, options, host, i);
    AllResolved(source, lines, options, host, context, capacity, n);
    RecordAt(SymbolsOf(source, options, host), i);
    j := ResolvedRecord(context, symbol);
    IsPointIs(context.points, IdentityFor(context, symbol), j);
    FitAll(program, symbol.name, symbol.valueType, context.points[j].valueType);
    LinkParts(context, RecordOf(symbol));
    VariableMayBeWritten(context.points[j]);
  }

  lemma RecordAt(symbols: seq<Symbol>, i: nat)
    requires i < |symbols|
    ensures RecordsOf(symbols)[i] == RecordOf(symbols[i])
  {
    hide RecordOf;
  }

  lemma LinkParts(context: Context, record: SymbolRecord)
    ensures
      var r := LinkOf(context, record);
      r == LinkResult(r.status, r.index, r.offset)
  {
  }

  lemma IsPointIs(points: Points, id: Identity, j: nat)
    requires IsPointOf(points, id, j)
    ensures j < |points| && points[j].id == id
  {
  }

  lemma VariableMayBeWritten(p: Point)
    ensures IsProgramVariable(p.id) ==> MayBeWritten(p)
  {
    hide IsProgramVariable;
  }

  // From flash

  lemma FlashRelocatesExactly(context: Context, file: seq<byte>, flash: Flash, offset: u32, i: u16, code: seq<byte>,
                              report: Report)
    requires ParseObject(file).Ok? && Holds(flash, offset, file) && report.status == LinkOk
    requires i < |ParseObject(file).value.image.relocations| && |code| == ParseObject(file).value.header.codeSize
    ensures
      var parsed := ParseObject(file).value;
      var r := parsed.image.relocations[i];
      FlashRelocate(context, flash, offset, parsed.header, i, code, report).0.status == LinkOk <==>
      && r.symbolIndex < |parsed.image.symbols| && PatchSize(r.kind) != 0 && r.codeOffset + PatchSize(r.kind) <= |code|
      && FlashRecord(context, parsed.image.symbols[r.symbolIndex]).Some?
      && var record := FlashRecord(context, parsed.image.symbols[r.symbolIndex]).value;
         ResolveLinkRequest(context.publisher, context.points, record.id, record.expectedType, record.access).status ==
         Resolved
  {
    hide ReadHeader, Fnv.Checksum, ReadSymbol, ReadRelocation, Block, RecordAddress, Span, FlashRecord, ResolveLinkRequest,
         Holds, Patch, PatchBytes;
    var parsed := ParseObject(file).value;
    var h, relocation := parsed.header, parsed.image.relocations[i];
    HeldRecord(flash, offset, file, h.relocationTableOffset, RELOCATION_SIZE, i);
    if relocation.symbolIndex < |parsed.image.symbols| {
      HeldRecord(flash, offset, file, h.symbolTableOffset, SYMBOL_SIZE, relocation.symbolIndex);
    }
  }

  /** What a record links to by the loader's rules. */
  function FlashLinkOf(context: Context, record: SymbolRecord): LinkResult {
    match FlashRecord(context, record)
    case None => Failed(UnsupportedPointType)
    case Some(r) => ResolveLinkRequest(context.publisher, context.points, r.id, r.expectedType, r.access)
  }

  lemma {:induction false} FlashAllResolved(context: Context, file: seq<byte>, flash: Flash, offset: u32, i: nat,
                                            code: seq<byte>, report: Report, n: nat)
    requires ParseObject(file).Ok? && Holds(flash, offset, file) && report.status == LinkOk
    requires
      var parsed := ParseObject(file).value;
      && i <= n < |parsed.image.relocations| == parsed.header.relocationCount
      && |code| == parsed.header.codeSize
      && FlashRelocateFrom(context, flash, offset, parsed.header, i, code, report).0.status == LinkOk
    ensures
      var image := ParseObject(file).value.image;
      && image.relocations[n].symbolIndex < |image.symbols|
      && FlashLinkOf(context, image.symbols[image.relocations[n].symbolIndex]).status == Resolved
    decreases |ParseObject(file).value.image.relocations| - i
  {
    hide ParseObject, Holds, FlashRelocate, FlashRecord, ResolveLinkRequest;
    var parsed := ParseObject(file).value;
    FlashRelocatesExactly(context, file, flash, offset, i, code, report);
    if i < n {
      var next := FlashRelocate(context, flash, offset, parsed.header, i, code, report);
      FlashAllResolved(context, file, flash, offset, i + 1, next.1, next.0, n);
    }
  }

  lemma FlashResolvedRecord(context: Context, symbol: Symbol) returns (j: nat)
    requires FlashLinkOf(context, RecordOf(symbol)).status == Resolved
    requires RecordOf(symbol).kind == symbol.kind && RecordOf(symbol).name == symbol.name
    requires RecordOf(symbol).expectedType == symbol.valueType
    requires symbol.kind == SLOT_VAR ==> RecordOf(symbol).access == 2
    ensures context.points != [] && IsPointOf(context.points, IdentityFor(context, symbol), j)
    ensures FlashLinkOf(context, RecordOf(symbol)).index == j < 1024
    ensures FlashLinkOf(context, RecordOf(symbol)).offset == j * context.publisher.stride % 0x1_0000_0000
    ensures SameType(context.points[j].valueType, symbol.valueType)
    ensures
      var access := RecordOf(symbol).access;
      access == 0 || (access <= 2 && MayBeWritten(context.points[j]))
  {
    var record := RecordOf(symbol);
    var found := FlashRecord(context, record).value;
    FlashIdentity(context, symbol);
    j := FindIndex(context.points, found.id);
    NoPointNotFound(context.publisher, context.points, found.id, found.expectedType, found.access);
    RequestExactly(context.publisher, context.points, found.id, found.expectedType, found.access, j);
    hide BUILTIN_POINTS, SlotDevice, SlotFeature, FindIndex, IsProgramVariable, RuntimeType, AccessAllowed, SymbolIdentity,
         ResolveLinkRequest, FlashRecord;
  }

  lemma FlashIdentity(context: Context, symbol: Symbol)
    requires FlashLinkOf(context, RecordOf(symbol)).status == Resolved
    requires RecordOf(symbol).kind == symbol.kind && RecordOf(symbol).name == symbol.name
    ensures context.points != [] && FlashRecord(context, RecordOf(symbol)).Some?
    ensures
      var found := FlashRecord(context, RecordOf(symbol)).value;
      && found.id == IdentityFor(context, symbol) && found.expectedType == RecordOf(symbol).expectedType
      && found.access == RecordOf(symbol).access && FindIndex(context.points, found.id) < |context.points|
  {
    hide SlotDevice, SlotFeature, FindIndex, RuntimeType, AccessAllowed, SymbolIdentity, BUILTIN_POINTS;
  }

  /** What linking from flash admits: the same, and there is no exception. */
  lemma FlashLinkedUses(source: seq<string>, lines: seq<Line>, options: Options, host: Host, context: Context,
                        flash: Flash, offset: u32, capacity: nat, i: nat) returns (j: nat)
    requires Builds(source, lines, options, host) && i < |SymbolsOf(source, options, host)|
    requires AnyUses(Program(lines, host), SymbolsOf(source, options, host)[i].name)
    requires ParseObject(ObjectOf(source, options, host)).Ok? && Holds(flash, offset, ObjectOf(source, options, host))
    requires
      var parsed := ParseObject(ObjectOf(source, options, host)).value;
      |parsed.image.code| == parsed.header.codeSize &&
      FlashLink(context, flash, offset, parsed.header, parsed.image.code, capacity).0.status == LinkOk
    ensures context.points != [] && j < 1024
    ensures
      var symbol, program := SymbolsOf(source, options, host)[i], Program(lines, host);
      && IsPointOf(context.points, IdentityFor(context, symbol), j)
      && FlashLinkOf(context, RecordOf(symbol)) == LinkResult(Resolved, j, j * context.publisher.stride % 0x1_0000_0000)
      && AllUsesFit(program, symbol.name, context.points[j].valueType)
      && (AnyStores(program, symbol.name) ==> MayBeWritten(context.points[j]))
  {
    hide *;
    var file := ObjectOf(source, options, host);
    var symbol, program := SymbolsOf(source, options, host)[i], Program(lines, host);
    RecordUses(source, lines, options, host, i);
    var n := UsedRelocation(source, lines, options, host, i);
    FlashLoops(context, file, flash, offset, capacity);
    var parsed := ParseObject(file).value;
    ImageIs(file);
    FlashAllResolved(context, file, flash, offset, 0, parsed.image.code, BeginFlash(parsed.header), n);
    RecordAt(SymbolsOf(source, options, host), i);
    j := FlashResolvedRecord(context, symbol);
    IsPointIs(context.points, IdentityFor(context, symbol), j);
    FitAll(program, symbol.name, symbol.valueType, context.points[j].valueType);
    FlashLinkParts(context, RecordOf(symbol));
  }

  lemma ImageIs(file: seq<byte>)
    requires ParseObject(file).Ok?
    ensures ImageOf(file) == ParseObject(file).value.image
  {
    hide ParseObject;
  }

  lemma FlashLinkParts(context: Context, record: SymbolRecord)
    ensures
      var r := FlashLinkOf(context, record);
      r == LinkResult(r.status, r.index, r.offset)
  {
  }

  lemma FlashLoops(context: Context, file: seq<byte>, flash: Flash, offset: u32, capacity: nat)
    requires ParseObject(file).Ok?
    requires
      var parsed := ParseObject(file).value;
      |parsed.image.code| == parsed.header.codeSize &&
      FlashLink(context, flash, offset, parsed.header, parsed.image.code, capacity).0.status == LinkOk
    ensures
      var parsed := ParseObject(file).value;
      && |parsed.image.relocations| == parsed.header.relocationCount && BeginFlash(parsed.header).status == LinkOk
      && FlashRelocateFrom(context, flash, offset, parsed.header, 0, parsed.image.code, BeginFlash(parsed.header)).0.status ==
         LinkOk
  {
    hide ReadHeader, ReadSymbols, Fnv.Checksum, FlashRelocate;
  }

  // What it refuses

  /** A program that stores to a point that is only an input does not link, neither in memory nor from flash, and at
      the symbol the answer is that access is denied. */
  lemma InputsAreNotStored(source: seq<string>, lines: seq<Line>, options: Options, host: Host, context: Context,
                           flash: Flash, offset: u32, capacity: nat, i: nat, j: nat)
    requires Builds(source, lines, options, host) && i < |SymbolsOf(source, options, host)| && context.slot != NO_SLOT
    requires SymbolsOf(source, options, host)[i].kind != SLOT_VAR
    requires AnyStores(Program(lines, host), SymbolsOf(source, options, host)[i].name)
    requires context.points != [] && IsPointOf(context.points, IdentityFor(context, SymbolsOf(source, options, host)[i]), j)
    requires context.points[j].direction == Input && !IsProgramVariable(context.points[j].id)
    ensures ParseObject(ObjectOf(source, options, host)).Ok?
    ensures |ImageOf(ObjectOf(source, options, host)).relocations| <= 0xFFFF
    ensures Link(context, ImageOf(ObjectOf(source, options, host)), capacity).0.status != LinkOk
    ensures
      var parsed := ParseObject(ObjectOf(source, options, host)).value;
      |parsed.image.code| == parsed.header.codeSize &&
      (Holds(flash, offset, ObjectOf(source, options, host)) ==>
         FlashLink(context, flash, offset, parsed.header, parsed.image.code, capacity).0.status != LinkOk)
    ensures
      var symbol := SymbolsOf(source, options, host)[i];
      SameType(context.points[j].valueType, symbol.valueType) ==>
        LinkOf(context, RecordOf(symbol)).status == AccessDenied
  {
    hide *;
    var file, symbol := ObjectOf(source, options, host), SymbolsOf(source, options, host)[i];
    StoredIsUsed(Program(lines, host), symbol.name);
    var n := UsedRelocation(source, lines, options, host, i);
    FewRelocationsIn(file);
    CodeSizeIs(file);
    IsPointIs(context.points, IdentityFor(context, symbol), j);
    InputMayNotBeWritten(context.points[j]);
    if Link(context, ImageOf(file), capacity).0.status == LinkOk {
      var other := LinkedUses(source, lines, options, host, context, capacity, i);
      OnePointOf(context.points, IdentityFor(context, symbol), j, other);
    }
    var parsed := ParseObject(file).value;
    if Holds(flash, offset, file) &&
       FlashLink(context, flash, offset, parsed.header, parsed.image.code, capacity).0.status == LinkOk {
      var other := FlashLinkedUses(source, lines, options, host, context, flash, offset, capacity, i);
      OnePointOf(context.points, IdentityFor(context, symbol), j, other);
    }
    RecordUses(source, lines, options, host, i);
    RequestIs(context, symbol);
    RequestExactly(context.publisher, context.points, IdentityFor(context, symbol), symbol.valueType, 2, j);
  }

  lemma StoredIsUsed(program: seq<SourceInstr>, name: string)
    requires (forall k | 0 <= k < |program| :: Shaped(program[k])) && AnyStores(program, name)
    ensures AnyUses(program, name)
  {
    hide Uses, Stores, Shaped;
  }

  lemma CodeSizeIs(file: seq<byte>)
    requires ParseObject(file).Ok?
    ensures |ParseObject(file).value.image.code| == ParseObject(file).value.header.codeSize
  {
    hide ReadHeader, ReadSymbols, Fnv.Checksum;
  }

  lemma InputMayNotBeWritten(p: Point)
    requires p.direction == Input && !IsProgramVariable(p.id)
    ensures !MayBeWritten(p)
  {
    hide IsProgramVariable;
  }

  lemma OnePointOf(points: Points, id: Identity, i: nat, j: nat)
    requires IsPointOf(points, id, i) && IsPointOf(points, id, j)
    ensures i == j
  {
  }

  lemma RequestIs(context: Context, symbol: Symbol)
    requires symbol.kind != SLOT_VAR && context.points != [] && RecordOf(symbol).kind == symbol.kind
    ensures
      var record := RecordOf(symbol);
      LinkOf(context, record) ==
      ResolveLinkRequest(context.publisher, context.points, IdentityFor(context, symbol), record.expectedType, record.access)
  {
    hide SlotDevice, SlotFeature, FindIndex, RuntimeType, AccessAllowed, SymbolIdentity;
  }

  // What loading admits

  /** Once a file is loaded, no exception is left: whatever its program stores to may be written. And every point it
      uses is linked to where its state is kept in SDRAM. */
  lemma LoadedUses(source: seq<string>, lines: seq<Line>, options: Options, host: Host, board: Board, slot: u16,
                   hash: u32, i: nat) returns (j: nat)
    requires Builds(source, lines, options, host) && i < |SymbolsOf(source, options, host)| && board.Valid()
    requires AnyUses(Program(lines, host), SymbolsOf(source, options, host)[i].name)
    requires Outcomes(board, LoadingObject(slot, ObjectOf(source, options, host), hash)).ok
    ensures
      var after := Perform(board, LoadingObject(slot, ObjectOf(source, options, host), hash));
      var context, symbol := Contexts(after, slot), SymbolsOf(source, options, host)[i];
      var offset := LinkOf(context, RecordOf(symbol)).offset;
      && context.points != [] && IsPointOf(after.points, IdentityFor(context, symbol), j)
      && AllUsesFit(Program(lines, host), symbol.name, after.points[j].valueType)
      && (AnyStores(Program(lines, host), symbol.name) ==> MayBeWritten(after.points[j]))
      && STATES_AT + offset + STATE_SIZE <= SDRAM_SIZE == |after.memory| && |after.points| <= MAX_POINTS
      && States(after.memory, |after.points|)[j] == after.memory[STATES_AT + offset..STATES_AT + offset + STATE_SIZE]
  {
    hide *;
    var file := ObjectOf(source, options, host);
    var op := LoadingObject(slot, file, hash);
    var code := LoadedCode(board, slot, file, hash);
    var after := Perform(board, op);
    var context := Contexts(after, slot);
    LinkedIs(context, slot, file, code);
    LinkedSlot(context, slot, file, code);
    SlotOfContext(after, slot);
    NoSlotIs(slot);
    j := LinkedUses(source, lines, options, host, context, CodeCapacity(slot), i);
    IsPointIs(context.points, IdentityFor(context, SymbolsOf(source, options, host)[i]), j);
    if SymbolsOf(source, options, host)[i].kind == SLOT_VAR {
      LoadedName(source, lines, options, host, board, slot, hash, i);
    }
    BoardParts(after);
    StateIsThere(after, j);
  }

  lemma SlotOfContext(board: Board, slot: u16)
    requires slot < SLOT_COUNT
    ensures Contexts(board, slot).slot == slot != NO_SLOT && Contexts(board, slot).points == board.points
    ensures Contexts(board, slot).publisher == board.publication.publisher
  {
  }

  lemma BoardParts(board: Board)
    requires board.Valid()
    ensures |board.memory| == SDRAM_SIZE && |board.points| <= MAX_POINTS
    ensures board.publication.publisher.stride == STATE_SIZE
  {
  }

  lemma StateIsThere(board: Board, j: nat)
    requires |board.memory| == SDRAM_SIZE && j < |board.points| <= MAX_POINTS
    ensures
      var offset := j * STATE_SIZE % 0x1_0000_0000;
      && STATES_AT + offset + STATE_SIZE <= SDRAM_SIZE
      && States(board.memory, |board.points|)[j] == board.memory[STATES_AT + offset..STATES_AT + offset + STATE_SIZE]
  {
    assert j * STATE_SIZE % 0x1_0000_0000 == STATE_SIZE * j;
  }

  /** The preparation has refused built-in names. */
  lemma LoadedName(source: seq<string>, lines: seq<Line>, options: Options, host: Host, board: Board, slot: u16, hash: u32,
                   i: nat)
    requires Builds(source, lines, options, host) && i < |SymbolsOf(source, options, host)| && board.Valid()
    requires SymbolsOf(source, options, host)[i].kind == SLOT_VAR
    requires Outcomes(board, LoadingObject(slot, ObjectOf(source, options, host), hash)).ok
    ensures SymbolsOf(source, options, host)[i].name !in BUILTIN_POINTS
  {
    hide *;
    var file, symbols := ObjectOf(source, options, host), SymbolsOf(source, options, host);
    var op := LoadingObject(slot, file, hash);
    var out := BuiltImage(source, lines, options, host);
    ObjectOutcome(board, slot, file, hash);
    OutcomeParts(LoadObject(PreparedFor(board, op), slot, file));
    ObjectLoadsExactly(PreparedFor(board, op), slot, file);
    ObjectPrepared(board, slot, file, hash);
    RecordUses(source, lines, options, host, i);
    RecordAt(symbols, i);
    PreparedNames(board, slot, ParseObject(file).value.image.symbols, hash, i);
  }
}
