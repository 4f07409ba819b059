/** Inputs on which loading is not what it seems: a slot gone stale, a file that only loads from flash, and a name
    the loader keeps for itself. */
module LoadFailures {
  import opened Bytes
  import opened Memory
  import opened Isa
  import opened Lexer
  import opened Assembler
  import opened ObjectFile
  import opened ObjectParser
  import opened Catalog
  import opened SlotVariables
  import opened Linker
  import opened LinkedProgram
  import opened FlashLinker
  import opened Validator
  import opened OneVariable
  import opened SlotMemory
  import opened SlotIsolation
  import opened FlashPages
  import opened FlashLoads
  import opened LoadsAgree
  import opened StaleSlots
  import opened PointAccess
  import Fnv

  // One variable in the catalog

  function VarPoint(device: string, slot: u16, name: string): Point {
    Point.Point(Identity(device, SlotFeature(slot), name), name, true, InOut, TYPE_BOOL, SLOT_DETAILS)
  }

  lemma ExpectedOne(points: Points, slot: u16, name: string)
    requires points != [] && name != "" && name !in BUILTIN_POINTS
    ensures Expected(points, slot, [VarRecord(name)]) == Some([VarPoint(SlotDevice(points, SlotFeature(slot)), slot, name)])
  {
    hide BUILTIN_POINTS, SlotDevice, SlotFeature;
    var records := [VarRecord(name)];
    var v := VarPoint(SlotDevice(points, SlotFeature(slot)), slot, name);
    assert ExpectedPoint(points, slot, VarRecord(name)) == Some(v);
    assert records[..0] == [] && [] + [v] == [v];
    assert Expected(points, slot, []) == Some([]);
  }

  /** Preparing a slot that has no variables, for a program that has some. */
  lemma PreparedFirst(board: Board, slot: u16, records: seq<SymbolRecord>, added: Points, hash: u32)
    requires board.Valid() && |board.points| + |added| <= MAX_POINTS && board.publication.publisher.ready
    requires Variables(board.points, slot) == [] && added != [] && Expected(board.points, slot, records) == Some(added)
    ensures
      var prepared := Prepare(board, slot, Some(records), hash);
      && prepared.ok && prepared.points == Replaced(board.points, slot, added)
      && prepared.publication.publisher == board.publication.publisher
  {
    KeptOrVariable(board.points, slot);
    hide Expected, Replaced, Variables, Kept, NeedsPublish, Flat, MovedStates, Descriptors, RuntimeHeaderBytes;
  }

  lemma PreparedOne(board: Board, slot: u16, name: string, hash: u32)
    requires board.Valid() && board.points != [] && |board.points| < MAX_POINTS && board.publication.publisher.ready
    requires Variables(board.points, slot) == [] && name != "" && name !in BUILTIN_POINTS
    ensures
      var prepared := Prepare(board, slot, Some([VarRecord(name)]), hash);
      && prepared.ok
      && prepared.points ==
         Replaced(board.points, slot, [VarPoint(SlotDevice(board.points, SlotFeature(slot)), slot, name)])
      && prepared.publication.publisher == board.publication.publisher
  {
    ExpectedOne(board.points, slot, name);
    hide Prepare, Expected, Replaced, Variables, BUILTIN_POINTS, SlotDevice, SlotFeature, Board.Valid;
    PreparedFirst(board, slot, [VarRecord(name)], [VarPoint(SlotDevice(board.points, SlotFeature(slot)), slot, name)], hash);
  }

  lemma VarIsVariable(device: string, slot: u16, name: string)
    requires name != "" && name !in BUILTIN_POINTS
    ensures
      var v := VarPoint(device, slot, name);
      && IsSlotVariable(v, slot) && (forall other: u16 | other != slot :: !IsSlotVariable(v, other))
      && (forall other: u16 | other < slot :: IsBehind(v, other))
  {
    SlotOfFeature(slot);
    CommandsAreBuiltIn();
    hide SlotOf, SlotFeature, BUILTIN_POINTS, SLOT_COMMANDS;
  }

  lemma CommandsAreBuiltIn()
    ensures forall name | name in SLOT_COMMANDS :: name in BUILTIN_POINTS
  {
  }

  // The two catalogs

  /** A point that belongs to no slot. */
  predicate OfNoSlot(p: Point) {
    SlotOf(p.id.feature).None? && p.id.device != ""
  }

  lemma OfNoSlotIs(p: Point, slot: u16)
    requires OfNoSlot(p)
    ensures !IsSlotVariable(p, slot) && !IsBehind(p, slot) && p.id.feature != SlotFeature(slot)
    ensures SlotDevice([p], SlotFeature(slot)) == p.id.device
  {
    SlotOfFeature(slot);
    hide SlotOf, SlotFeature, BUILTIN_POINTS, SLOT_COMMANDS;
    assert [p][1..] == [];
    assert FirstLocalDevice([], SlotFeature(slot)) == None;
    assert FirstLocalDevice([p], SlotFeature(slot)) == None;
  }

  lemma SecondAdded(p: Point, other: u16, w: Point, v: Point)
    requires OfNoSlot(p) && !IsSlotVariable(v, other) && IsBehind(v, other)
    ensures Replaced([p, v], other, [w]) == [p, w, v] && Variables([p, v], other) == []
    ensures InsertAt(Kept([p, v], other, [p, v]), other) == 1 && Rank([p, v], other, 1) == 1
    ensures Variables([p, v][..1], other) == []
  {
    OfNoSlotIs(p, other);
    hide IsSlotVariable, IsBehind;
    NoneAreVariables([p, v], other);
    assert [p, v][..1] == [p] && [p, v][1..] == [v];
    NoneAreVariables([p], other);
  }

  // Loading it

  lemma VarLinks(context: Context, name: string, options: Options, capacity: nat)
    requires options.entryOffset <= 5 <= capacity && LinkOf(context, VarRecord(name)).status == Resolved
    ensures Link(context, VarImage(name, options), capacity).0.status == LinkOk
    ensures Link(context, VarImage(name, options), capacity).1 ==
            Some([0x10] + Le32(LinkOf(context, VarRecord(name)).offset))
  {
    hide ResolveRecord, ResolveResolved, Le32;
    var image := VarImage(name, options);
    var next := Relocate(context, image.symbols, image.relocations[0], 0, image.code, Begin(image));
    assert next.0.status == LinkOk;
    var bytes := Le32(LinkOf(context, VarRecord(name)).offset);
    assert next.1 == Patch(VAR_CODE, 1, bytes) == [0x10] + bytes;
    assert RelocateFrom(context, image, 1, next.1, next.0).0.status == LinkOk;
    assert RelocateFrom(context, image, 1, next.1, next.0).1 == next.1;
  }

  lemma VarLoads(prepared: Prepared, slot: u16, name: string, options: Options, file: seq<byte>)
    requires slot < SLOT_COUNT && prepared.ok && options.entryOffset <= 5
    requires ParseObject(file).Ok? && ParseObject(file).value.image == VarImage(name, options)
    requires |file| == HEADER_SIZE + 5 + SYMBOL_SIZE + RELOCATION_SIZE
    requires LinkOf(ContextFor(prepared.points, prepared.publication, slot), VarRecord(name)).status == Resolved
    ensures LoadObject(prepared, slot, file).status == LoadOk
  {
    VarAccepted();
    Layout(slot);
    hide CodeAt, StackAt, ScratchAt, AlignUp, ParseObject, Accepts, Link, LinkOf, LoadObject;
    VarLinks(ContextFor(prepared.points, prepared.publication, slot), name, options, CodeCapacity(slot));
    ObjectLoadsExactly(prepared, slot, file);
  }

  /** The variable resolves wherever it is the only point with its identity. */
  lemma VarResolves(context: Context, name: string, i: nat)
    requires context.slot != NO_SLOT && context.publisher.ready && name != "" && i < |context.points| <= MAX_POINTS
    requires
      var v := VarPoint(SlotDevice(context.points, SlotFeature(context.slot)), context.slot, name);
      context.points[i] == v && FindIndex(context.points, v.id) == i
    ensures LinkOf(context, VarRecord(name)) ==
            LinkResult(Resolved, StateIndex(context.publisher, i), StateOffset(context.publisher, i))
    ensures PointOf(context, VarRecord(name)) == i
  {
    hide SlotDevice, SlotFeature, FindIndex;
  }

  /** Loading a program with one variable into a slot without variables. */
  lemma VarLoaded(board: Board, slot: u16, name: string, options: Options, host: Host, hash: u32, next: Points, i: nat)
    requires Usable(name) && name !in BUILTIN_POINTS && options.abiVersion == ABI_VERSION && options.entryOffset <= 5
    requires board.Valid() && board.publication.publisher.ready && slot < SLOT_COUNT
    requires board.points != [] && |board.points| < MAX_POINTS && Variables(board.points, slot) == []
    requires
      var v := VarPoint(SlotDevice(board.points, SlotFeature(slot)), slot, name);
      && next == Replaced(board.points, slot, [v]) && i < |next| <= MAX_POINTS && next[i] == v
      && FindIndex(next, v.id) == i
      && SlotDevice(next, SlotFeature(slot)) == v.id.device
    ensures
      var op := LoadingObject(slot, ObjectOf(VarSource(name), options, host), hash);
      && op.Valid() && Outcomes(board, op).ok && Perform(board, op).points == next
      && Perform(board, op).publication.publisher == board.publication.publisher
      && PointOf(Contexts(Perform(board, op), slot), VarRecord(name)) == i
  {
    hide *;
    VarBuilds(name, options, host);
    NotEmpty(name);
    var file := ObjectOf(VarSource(name), options, host);
    var op := LoadingObject(slot, file, hash);
    PreparedOne(board, slot, name, hash);
    PreparedIs(board, slot, file, hash, name, options);
    var prepared := PreparedFor(board, op);
    var context := ContextFor(prepared.points, prepared.publication, slot);
    ContextIs(prepared, slot);
    ReadyIs(board, slot);
    VarPointIs(SlotDevice(board.points, SlotFeature(slot)), slot, name);
    VarResolves(context, name, i);
    VarLoads(prepared, slot, name, options, file);
    var load := LoadObject(prepared, slot, file);
    ObjectOutcome(board, slot, file, hash);
    OutcomeParts(load);
    var code := LoadedIsLinked(prepared, slot, file);
    PerformIs(board, op, prepared);
    ContextAfter(Apply(board.memory, load.Writes()), prepared, slot);
  }

  lemma VarPointIs(device: string, slot: u16, name: string)
    ensures VarPoint(device, slot, name).id == Identity(device, SlotFeature(slot), name)
    ensures VarPoint(device, slot, name).local
  {
    hide SlotFeature;
  }

  lemma NotEmpty(name: string)
    requires Usable(name)
    ensures name != ""
  {
  }

  lemma ContextIs(prepared: Prepared, slot: u16)
    ensures ContextFor(prepared.points, prepared.publication, slot) ==
            Context(prepared.publication.publisher, prepared.points, slot)
  {
  }

  lemma ReadyIs(board: Board, slot: u16)
    requires slot < SLOT_COUNT
    ensures slot != NO_SLOT
  {
  }

  lemma PreparedIs(board: Board, slot: u16, file: seq<byte>, hash: u32, name: string, options: Options)
    requires board.Valid() && ParseObject(file).Ok? && ParseObject(file).value.image == VarImage(name, options)
    ensures PreparedFor(board, LoadingObject(slot, file, hash)) == Prepare(board, slot, Some([VarRecord(name)]), hash)
  {
    hide Prepare, ParseObject, Board.Valid;
  }

  // Two slots

  lemma FewPoints()
    ensures 3 < MAX_POINTS
  {
  }

  lemma FirstLoad(board: Board, p: Point, slot: u16, name: string, options: Options, host: Host, hash: u32)
    requires Usable(name) && name !in BUILTIN_POINTS && options.abiVersion == ABI_VERSION && options.entryOffset <= 5
    requires board.Valid() && board.publication.publisher.ready && slot < SLOT_COUNT
    requires board.points == [p] && OfNoSlot(p)
    ensures
      var op := LoadingObject(slot, ObjectOf(VarSource(name), options, host), hash);
      && op.Valid() && Outcomes(board, op).ok
      && Perform(board, op).points == [p, VarPoint(p.id.device, slot, name)]
      && Perform(board, op).publication.publisher == board.publication.publisher
      && PointOf(Contexts(Perform(board, op), slot), VarRecord(name)) == 1
      && HasDevice(Perform(board, op).points, slot)
  {
    hide *;
    FewPoints();
    var v := VarPoint(p.id.device, slot, name);
    OfNoSlotIs(p, slot);
    FirstAdded(p, slot, [v]);
    assert [p] + [v] == [p, v];
    LastIs([p, v], v.id, 1);
    VarPointIs(p.id.device, slot, name);
    FirstDevice(p, slot, v);
    VarLoaded(board, slot, name, options, host, hash, [p, v], 1);
  }

  lemma FirstDevice(p: Point, slot: u16, v: Point)
    requires OfNoSlot(p) && v.local && v.id.feature == SlotFeature(slot) && v.id.device == p.id.device
    ensures SlotDevice([p, v], SlotFeature(slot)) == v.id.device && HasDevice([p, v], slot)
  {
    OfNoSlotIs(p, slot);
    hide SlotFeature, SlotOf, IsSlotVariable;
    assert [p, v][1..] == [v];
    assert FirstLocalDevice([v], SlotFeature(slot)) == Some(v.id.device);
  }

  lemma SecondLoad(board: Board, p: Point, v: Point, other: u16, name: string, options: Options, host: Host, hash: u32)
    requires Usable(name) && name !in BUILTIN_POINTS && options.abiVersion == ABI_VERSION && options.entryOffset <= 5
    requires board.Valid() && board.publication.publisher.ready && other < SLOT_COUNT
    requires board.points == [p, v] && OfNoSlot(p)
    requires !IsSlotVariable(v, other) && IsBehind(v, other) && v.id.feature != SlotFeature(other)
    ensures
      var op := LoadingObject(other, ObjectOf(VarSource(name), options, host), hash);
      && op.Valid() && Outcomes(board, op).ok
      && Perform(board, op).points == [p, VarPoint(p.id.device, other, name), v]
  {
    hide *;
    FewPoints();
    var w := VarPoint(p.id.device, other, name);
    var next := [p, w, v];
    VarPointIs(p.id.device, other, name);
    SecondAdded(p, other, w, v);
    SecondDevice(p, v, w, other);
    LastIs(next, w.id, 1);
    VarLoaded(board, other, name, options, host, hash, next, 1);
  }

  lemma SecondDevice(p: Point, v: Point, w: Point, other: u16)
    requires OfNoSlot(p) && v.id.feature != SlotFeature(other)
    requires w.local && w.id.feature == SlotFeature(other) && w.id.device == p.id.device
    ensures SlotDevice([p, v], SlotFeature(other)) == p.id.device
    ensures SlotDevice([p, w, v], SlotFeature(other)) == p.id.device
  {
    OfNoSlotIs(p, other);
    hide SlotFeature, SlotOf, IsSlotVariable;
    assert [p, v][1..] == [v] && [v][1..] == [];
    assert FirstLocalDevice([v], SlotFeature(other)) == None;
    assert [p, w, v][1..] == [w, v];
    assert FirstLocalDevice([w, v], SlotFeature(other)) == Some(w.id.device);
  }

  lemma OtherFeature(slot: u16, other: u16)
    requires slot != other
    ensures SlotFeature(slot) != SlotFeature(other)
  {
    SlotOfFeature(slot);
    SlotOfFeature(other);
    hide SlotFeature, SlotOf;
  }

  /** The variable of the other slot comes before the point the program uses. */
  lemma NowStale(context: Context, p: Point, v: Point, w: Point, other: u16, name: string, options: Options)
    requires context.points == [p, v] && OfNoSlot(p) && !IsSlotVariable(v, other) && IsBehind(v, other)
    requires PointOf(context, VarRecord(name)) == 1
    requires w.id != v.id && Identified(context, VarRecord(name)).id == v.id
    ensures AllForeign(context, VarImage(name, options), other, [w])
    ensures !AllStayPut(context, VarImage(name, options), other, [w])
  {
    SecondAdded(p, other, w, v);
    hide PointOf, Identified, IsSlotVariable, IsBehind, Kept, Variables, InsertAt, Rank;
    var image := VarImage(name, options);
    assert image.relocations[0].symbolIndex == 0 && image.symbols[0] == VarRecord(name);
    assert !StaysPut(context.points, other, [w], 1);
  }

  lemma FoundIs(context: Context, record: SymbolRecord, i: nat)
    requires PointOf(context, record) == i < |context.points|
    ensures Identified(context, record).id == context.points[i].id
  {
    hide ResolveRecord;
  }

  lemma VariableAfter(p: Point, w: Point, v: Point, other: u16)
    requires OfNoSlot(p) && IsSlotVariable(w, other) && !IsSlotVariable(v, other)
    ensures Variables([p, w, v], other) == [w]
  {
    OfNoSlotIs(p, other);
    hide IsSlotVariable, OfNoSlot;
    VariablesOne(p, other);
    VariablesOne(w, other);
    VariablesOne(v, other);
    VariablesConcat([p], [w], other);
    VariablesConcat([p, w], [v], other);
    assert [p] + [w] == [p, w] && [p, w] + [v] == [p, w, v];
  }

  /** The program `VAR BOOL v`, `LB v` in a slot, and `VAR BOOL w`, `LB w` loaded into a slot before it: both loads
      succeed, the first program's bytes stay, and they load `w` from then on. */
  lemma LoadingMovesPoints(board: Board, p: Point, slot: u16, other: u16, v: string, w: string, options: Options,
                           host: Host, first: u32, second: u32) returns (code: seq<byte>)
    requires Usable(v) && v !in BUILTIN_POINTS && Usable(w) && w !in BUILTIN_POINTS
    requires options.abiVersion == ABI_VERSION && options.entryOffset <= 5
    requires board.Valid() && board.publication.publisher.ready && other < slot < SLOT_COUNT
    requires board.points == [p] && OfNoSlot(p)
    ensures
      var one := LoadingObject(slot, ObjectOf(VarSource(v), options, host), first);
      var two := LoadingObject(other, ObjectOf(VarSource(w), options, host), second);
      && one.Valid() && two.Valid() && Outcomes(board, one).ok
      && var loaded := Perform(board, one);
         && Outcomes(loaded, two).ok
         && var after := Perform(loaded, two);
            && loaded.points == [p, VarPoint(p.id.device, slot, v)]
            && after.points == [p, VarPoint(p.id.device, other, w), VarPoint(p.id.device, slot, v)]
            && code == [0x10] + Le32(STATE_SIZE)
            && CodeMeans(loaded, slot, |code|, VarLines(v), SymbolsOf(VarSource(v), options, host), host)
            && CodeAt(slot) + |code| <= SDRAM_SIZE && after.memory[CodeAt(slot)..CodeAt(slot) + |code|] == code
            && !CodeMeans(after, slot, |code|, VarLines(v), SymbolsOf(VarSource(v), options, host), host)
  {
    hide *;
    var one := LoadingObject(slot, ObjectOf(VarSource(v), options, host), first);
    var two := LoadingObject(other, ObjectOf(VarSource(w), options, host), second);
    var vp, wp := VarPoint(p.id.device, slot, v), VarPoint(p.id.device, other, w);
    NotEmpty(v);
    NotEmpty(w);
    VarPointIs(p.id.device, slot, v);
    VarPointIs(p.id.device, other, w);
    VarIsVariable(p.id.device, slot, v);
    VarIsVariable(p.id.device, other, w);
    OtherFeature(slot, other);
    VarBuilds(v, options, host);
    FirstLoad(board, p, slot, v, options, host, first);
    var loaded := Perform(board, one);
    code := LoadedCode(board, slot, ObjectOf(VarSource(v), options, host), first);
    CodeIs(loaded, slot, ObjectOf(VarSource(v), options, host), v, options, code);
    SecondLoad(loaded, p, vp, other, w, options, host, second);
    var after := Perform(loaded, two);
    var context := Contexts(loaded, slot);
    PointsAfter(loaded, two);
    ContextsAre(loaded, after, slot);
    FoundIs(context, VarRecord(v), 1);
    NowStale(context, p, vp, wp, other, v, options);
    VariableAfter(p, wp, vp, other);
    ImageIs(ObjectOf(VarSource(v), options, host));
    StaleExactly(VarSource(v), VarLines(v), options, host, loaded, slot, code, two);
    OneOp(loaded, two);
    HeldProgramMeans(VarSource(v), VarLines(v), options, host, loaded, slot, code, [two]);
  }

  lemma CodeIs(board: Board, slot: u16, file: seq<byte>, name: string, options: Options, code: seq<byte>)
    requires LinkedFor(Contexts(board, slot), slot, file, code) && ParseObject(file).value.image == VarImage(name, options)
    requires board.Valid() && board.publication.publisher.ready && options.entryOffset <= 5
    requires PointOf(Contexts(board, slot), VarRecord(name)) == 1
    ensures code == [0x10] + Le32(STATE_SIZE)
  {
    hide ParseObject, Link, LinkOf, Le32, PointOf;
    var context := Contexts(board, slot);
    LinkedIs(context, slot, file, code);
    Layout(slot);
    VarLinkResolves(context, name, options, CodeCapacity(slot));
    VarLinks(context, name, options, CodeCapacity(slot));
    LinkIs(context, VarRecord(name));
  }

  lemma VarLinkResolves(context: Context, name: string, options: Options, capacity: nat)
    requires Link(context, VarImage(name, options), capacity).0.status == LinkOk
    ensures LinkOf(context, VarRecord(name)).status == Resolved
  {
    hide ResolveRecord, ResolveResolved, PatchBytes;
    var image := VarImage(name, options);
    var next := Relocate(context, image.symbols, image.relocations[0], 0, image.code, Begin(image));
    assert next.0.status == LinkOk;
  }

  lemma NotBuiltIn(name: string)
    requires |name| == 1
    ensures name !in BUILTIN_POINTS
  {
    assert forall other | other in BUILTIN_POINTS :: |other| > 3;
  }

  lemma NotReserved(name: string)
    requires |name| == 1
    ensures name !in RESERVED_NAMES
  {
    assert forall other | other in RESERVED_NAMES :: |other| > 3;
  }

  /** There are such names. */
  lemma ShortNames(name: string)
    requires |name| == 1 && 'a' <= name[0] <= 'z'
    ensures Usable(name) && name !in BUILTIN_POINTS
  {
    NotBuiltIn(name);
    NotReserved(name);
    hide BUILTIN_POINTS, RESERVED_NAMES;
  }

  // Two variables of one name

  function TwiceSymbol(name: string, valueType: byte): Symbol {
    Symbol(name, SLOT_VAR, "", valueType, ACCESS_READ_WRITE, FLAG_NONE)
  }

  /** A file that declares one name as a 16-bit integer and as an enumeration, and loads the first. */
  function TwiceAssembly(name: string): Assembly {
    Assembly([0x12, 0, 0, 0, 0], [TwiceSymbol(name, TYPE_INT16), TwiceSymbol(name, TYPE_ENUM)],
             [Relocation(1, 0, RELOCATION_OFFSET_U32)])
  }

  function TwiceRecord(name: string, valueType: byte): SymbolRecord {
    SymbolRecord(name, SLOT_VAR, FLAG_NONE, NO_IDENTITY, valueType, ACCESS_READ_WRITE)
  }

  function TwiceImage(name: string, options: Options): Image {
    Image([0x12, 0, 0, 0, 0], options.entryOffset, [TwiceRecord(name, TYPE_INT16), TwiceRecord(name, TYPE_ENUM)],
          [Relocation(1, 0, RELOCATION_OFFSET_U32)])
  }

  function TwicePoint(device: string, slot: u16, name: string, valueType: byte): Point {
    Point.Point(Identity(device, SlotFeature(slot), name), name, true, InOut, valueType, SLOT_DETAILS)
  }

  lemma TwiceBuilds(name: string, options: Options)
    requires name != "" && PlainText(name) && |name| < NAME_SIZE
    requires options.abiVersion == ABI_VERSION && options.entryOffset <= 5
    ensures ObjectBytes(TwiceAssembly(name), options).Ok? && Representable(TwiceAssembly(name), options)
    ensures
      |ObjectBytes(TwiceAssembly(name), options).value| == HEADER_SIZE + 5 + 2 * SYMBOL_SIZE + RELOCATION_SIZE
  {
    var a, b := TwiceSymbol(name, TYPE_INT16), TwiceSymbol(name, TYPE_ENUM);
    SymbolFits(a);
    SymbolFits(b);
    hide SymbolBytes, PlainSymbol, HeaderBytes, TwiceSymbol;
    assert [a][..0] == [] && [a, b][..1] == [a];
    assert SymbolTable([a][..0]) == Ok([]);
    assert SymbolTable([a]).Ok?;
    RelocationsSize([Relocation(1, 0, RELOCATION_OFFSET_U32)]);
    hide RelocationTable;
  }

  lemma TwiceParses(name: string, options: Options, file: seq<byte>)
    requires name != "" && PlainText(name) && |name| < NAME_SIZE
    requires options.abiVersion == ABI_VERSION && options.entryOffset <= 5
    requires ObjectBytes(TwiceAssembly(name), options) == Ok(file)
    ensures ParseObject(file).Ok? && ParseObject(file).value.image == TwiceImage(name, options) && WellLaid(file)
  {
    TwiceBuilds(name, options);
    hide ObjectBytes, Representable, ParseObject, WellLaid;
    BuildThenParse(TwiceAssembly(name), options);
    BuiltIsWellLaid(TwiceAssembly(name), options);
    var symbols := TwiceAssembly(name).symbols;
    assert RecordsOf(symbols) == [TwiceRecord(name, TYPE_INT16), TwiceRecord(name, TYPE_ENUM)];
  }

  lemma TwiceAccepted()
    ensures Accepts([0x12, 0, 0, 0, 0])
  {
    var code: seq<byte> := [0x12, 0, 0, 0, 0];
    AcceptsExactly(code);
    hide Accepts;
    assert Sweeps(code, 5);
    assert Sweeps(code, 4);
    assert Sweeps(code, 3);
    assert Sweeps(code, 0);
  }

  lemma ExpectedTwice(points: Points, slot: u16, name: string)
    requires points != [] && name != "" && name !in BUILTIN_POINTS
    ensures
      var device := SlotDevice(points, SlotFeature(slot));
      Expected(points, slot, [TwiceRecord(name, TYPE_INT16), TwiceRecord(name, TYPE_ENUM)]) ==
      Some([TwicePoint(device, slot, name, TYPE_INT16), TwicePoint(device, slot, name, TYPE_ENUM)])
  {
    hide BUILTIN_POINTS, SlotDevice, SlotFeature;
    var device := SlotDevice(points, SlotFeature(slot));
    var one, two := TwiceRecord(name, TYPE_INT16), TwiceRecord(name, TYPE_ENUM);
    var a, b := TwicePoint(device, slot, name, TYPE_INT16), TwicePoint(device, slot, name, TYPE_ENUM);
    assert ExpectedPoint(points, slot, one) == Some(a) && ExpectedPoint(points, slot, two) == Some(b);
    assert [one][..0] == [] && [one, two][..1] == [one];
    assert Expected(points, slot, []) == Some([]);
    assert [] + [a] == [a] && [a] + [b] == [a, b];
    assert Expected(points, slot, [one]) == Some([a]);
  }

  lemma PreparedTwice(board: Board, p: Point, slot: u16, name: string, hash: u32)
    requires board.Valid() && board.points == [p] && OfNoSlot(p) && board.publication.publisher.ready
    requires name != "" && name !in BUILTIN_POINTS
    ensures
      var prepared := Prepare(board, slot, Some([TwiceRecord(name, TYPE_INT16), TwiceRecord(name, TYPE_ENUM)]), hash);
      var a, b := TwicePoint(p.id.device, slot, name, TYPE_INT16), TwicePoint(p.id.device, slot, name, TYPE_ENUM);
      && prepared.ok && prepared.points == [p, a, b]
      && prepared.publication.publisher == board.publication.publisher
  {
    hide *;
    FewPoints();
    var a, b := TwicePoint(p.id.device, slot, name, TYPE_INT16), TwicePoint(p.id.device, slot, name, TYPE_ENUM);
    ExpectedTwice(board.points, slot, name);
    OfNoSlotIs(p, slot);
    FirstAdded(p, slot, [a, b]);
    assert [p] + [a, b] == [p, a, b];
    PreparedFirst(board, slot, [TwiceRecord(name, TYPE_INT16), TwiceRecord(name, TYPE_ENUM)], [a, b], hash);
  }

  lemma FirstAdded(p: Point, slot: u16, added: Points)
    requires OfNoSlot(p)
    ensures Replaced([p], slot, added) == [p] + added && Variables([p], slot) == []
  {
    OfNoSlotIs(p, slot);
    hide IsSlotVariable, IsBehind, OfNoSlot;
    NoneAreVariables([p], slot);
    BehindNone(p, slot);
    hide InsertAt, Kept;
  }

  lemma BehindNone(p: Point, slot: u16)
    requires !IsBehind(p, slot)
    ensures InsertAt([p], slot) == 1
  {
    hide IsBehind;
    assert [p][1..] == [];
    assert InsertAt([], slot) == 0;
  }

  lemma TwiceFound(context: Context, p: Point, name: string)
    requires
      var a := TwicePoint(p.id.device, context.slot, name, TYPE_INT16);
      context.points == [p, a, TwicePoint(p.id.device, context.slot, name, TYPE_ENUM)]
    requires OfNoSlot(p) && context.publisher.ready && name != "" && name !in BUILTIN_POINTS
    ensures
      var record := TwiceRecord(name, TYPE_INT16);
      && FlashRecord(context, record).Some? && !Typed(context, record)
      && var found := FlashRecord(context, record).value;
         ResolveLinkRequest(context.publisher, context.points, found.id, found.expectedType, found.access).status == Resolved
  {
    var a := TwicePoint(p.id.device, context.slot, name, TYPE_INT16);
    var b := TwicePoint(p.id.device, context.slot, name, TYPE_ENUM);
    TwiceDevice(p, a, b, context.slot);
    LastIs([p, a, b], b.id, 2);
    hide SlotFeature, BUILTIN_POINTS, SlotDevice, FindIndex, IsDynamicSlotVariable;
  }

  lemma TwiceDevice(p: Point, a: Point, b: Point, slot: u16)
    requires OfNoSlot(p) && a.local && a.id.feature == SlotFeature(slot) && a.id.device == p.id.device
    ensures SlotDevice([p, a, b], SlotFeature(slot)) == p.id.device
  {
    OfNoSlotIs(p, slot);
    hide SlotFeature, SlotOf, IsSlotVariable;
    assert [p, a, b][1..] == [a, b];
    assert FirstLocalDevice([a, b], SlotFeature(slot)) == Some(a.id.device);
  }

  lemma TwiceLinks(context: Context, p: Point, name: string, options: Options, file: seq<byte>, flash: Flash, offset: u32,
                   capacity: nat)
    requires
      var a := TwicePoint(p.id.device, context.slot, name, TYPE_INT16);
      context.points == [p, a, TwicePoint(p.id.device, context.slot, name, TYPE_ENUM)]
    requires OfNoSlot(p) && context.publisher.ready && name != "" && name !in BUILTIN_POINTS && 5 <= capacity
    requires ParseObject(file).Ok? && ParseObject(file).value.image == TwiceImage(name, options)
    requires Holds(flash, offset, file)
    ensures ParseObject(file).value.header.codeSize == 5
    ensures
      var linked := FlashLink(context, flash, offset, ParseObject(file).value.header, [0x12, 0, 0, 0, 0], capacity);
      linked.0.status == LinkOk
    ensures !FileTyped(context, file)
  {
    TwiceFound(context, p, name);
    CodeHeld(file, flash, offset);
    OneRelocationIn(file);
    hide ParseObject, Holds, FlashRecord, ResolveLinkRequest, FlashRelocate, Typed, OfNoSlot, TwicePoint;
    var h, code := ParseObject(file).value.header, [0x12, 0, 0, 0, 0];
    FlashRelocatesExactly(context, file, flash, offset, 0, code, BeginFlash(h));
    var next := FlashRelocate(context, flash, offset, h, 0, code, BeginFlash(h));
    assert FlashRelocateFrom(context, flash, offset, h, 1, next.1, next.0).0.status == LinkOk;
  }

  lemma OneRelocationIn(file: seq<byte>)
    requires ParseObject(file).Ok?
    ensures |ParseObject(file).value.image.relocations| == ParseObject(file).value.header.relocationCount
  {
    hide ReadHeader, Fnv.Checksum, ReadSymbols;
  }

  /** A whole file that loads from flash and not from memory: preparation puts the variable into the catalog under
      both types, the second one is found, and only the linker in memory minds. The assembler does not build
      it. */
  lemma EnumerationTaken(board: Board, p: Point, slot: u16, name: string, options: Options, flash: Flash, hash: u32,
                         file: seq<byte>)
    requires name != "" && name !in BUILTIN_POINTS && PlainText(name) && |name| < NAME_SIZE
    requires options.abiVersion == ABI_VERSION && options.entryOffset <= 5
    requires board.Valid() && board.publication.publisher.ready && slot < SLOT_COUNT
    requires board.points == [p] && OfNoSlot(p)
    requires ObjectBytes(TwiceAssembly(name), options) == Ok(file) && Holds(flash, 0, file) && |file| < 0x1_0000_0000
    ensures LoadingFlash(slot, flash, 0, |file|, hash).Valid() && LoadingObject(slot, file, hash).Valid()
    ensures Outcomes(board, LoadingFlash(slot, flash, 0, |file|, hash)).ok
    ensures !Outcomes(board, LoadingObject(slot, file, hash)).ok
  {
    hide *;
    TwiceParses(name, options, file);
    HeldWhole(flash, 0, file);
    CodeHeld(file, flash, 0);
    var one, two := LoadingObject(slot, file, hash), LoadingFlash(slot, flash, 0, |file|, hash);
    ObjectOutcome(board, slot, file, hash);
    FlashOutcome(board, slot, flash, 0, |file|, hash);
    ObjectPrepared(board, slot, file, hash);
    PreparedFromFlash(board, slot, flash, 0, |file|, hash, file);
    var prepared := PreparedFor(board, one);
    OutcomeParts(LoadObject(prepared, slot, file));
    OutcomeParts(LoadFlash(prepared, slot, flash, 0, |file|));
    TwiceImageIs(name, options);
    PreparedTwice(board, p, slot, name, hash);
    var context := ContextFor(prepared.points, prepared.publication, slot);
    ContextIs(prepared, slot);
    TwiceAccepted();
    TwiceSize(slot, name, options, file);
    TwiceLinks(context, p, name, options, file, flash, 0, CodeCapacity(slot));
    FlashLoadsExactly(prepared, slot, flash, 0, |file|);
    ObjectFollows(prepared, slot, flash, 0, file);
  }

  lemma TwiceImageIs(name: string, options: Options)
    ensures TwiceImage(name, options).code == [0x12, 0, 0, 0, 0]
    ensures TwiceImage(name, options).symbols == [TwiceRecord(name, TYPE_INT16), TwiceRecord(name, TYPE_ENUM)]
  {
  }

  lemma TwiceSize(slot: u16, name: string, options: Options, file: seq<byte>)
    requires name != "" && PlainText(name) && |name| < NAME_SIZE && slot < SLOT_COUNT
    requires options.abiVersion == ABI_VERSION && options.entryOffset <= 5
    requires ObjectBytes(TwiceAssembly(name), options) == Ok(file)
    ensures SnapshotFits(|file|) && 5 <= CodeCapacity(slot)
  {
    TwiceBuilds(name, options);
    Layout(slot);
    hide ObjectBytes, Representable, TwiceAssembly, CodeCapacity;
  }

  // A name the loader keeps for itself

  /** The assembler's own list of reserved names does not have it. */
  lemma Unreserved()
    ensures "loadEpoch" !in RESERVED_NAMES && "loadEpoch" in BUILTIN_POINTS
  {
    var name := "loadEpoch";
    assert |name| == 9 && name[0] == 'l';
    assert forall other | other in RESERVED_NAMES :: |other| != 9 || other[0] != 'l';
  }

  lemma LoadEpochIsUsable()
    ensures Usable("loadEpoch") && "loadEpoch" in BUILTIN_POINTS
  {
    Unreserved();
    hide RESERVED_NAMES, BUILTIN_POINTS;
    var name := "loadEpoch";
    assert forall i | 0 <= i < |name| :: 'A' <= name[i] <= 'z';
  }

  /** A catalog with the slot's point of that name. */
  function BuiltInContext(slot: u16, stride: u32, name: string): Context {
    Context(Publisher(true, stride), [VarPoint("d", slot, name)], slot)
  }

  lemma BuiltInResolves(slot: u16, stride: u32, name: string)
    requires slot != NO_SLOT && name != ""
    ensures LinkOf(BuiltInContext(slot, stride, name), VarRecord(name)).status == Resolved
  {
    var context := BuiltInContext(slot, stride, name);
    BuiltInDevice(slot, name);
    LastIs(context.points, context.points[0].id, 0);
    hide SlotFeature, SlotDevice, FindIndex;
    VarResolves(context, name, 0);
  }

  lemma BuiltInDevice(slot: u16, name: string)
    ensures SlotDevice([VarPoint("d", slot, name)], SlotFeature(slot)) == "d"
  {
    hide SlotFeature;
    assert FirstLocalDevice([VarPoint("d", slot, name)], SlotFeature(slot)) == Some("d");
  }

  /** A slot variable with a built-in name: the lines `VAR BOOL loadEpoch` and `LB loadEpoch` are such. The object is
      built and the linker in memory links it, but the one for flash does not. */
  lemma BuiltInNameRefused(name: string, options: Options, host: Host, slot: u16, stride: u32, capacity: nat)
    returns (flash: Flash)
    requires Usable(name) && name in BUILTIN_POINTS
    requires options.abiVersion == ABI_VERSION && options.entryOffset <= 5 <= capacity && slot != NO_SLOT
    ensures Builds(VarSource(name), VarLines(name), options, host)
    ensures
      var file := ObjectOf(VarSource(name), options, host);
      && ParseObject(file).Ok?
      && var parsed := ParseObject(file).value;
         && |parsed.image.relocations| <= 0xFFFF && |parsed.image.code| == parsed.header.codeSize
         && Link(BuiltInContext(slot, stride, name), parsed.image, capacity).0.status == LinkOk
         && Holds(flash, 0, file)
         && FlashLink(BuiltInContext(slot, stride, name), flash, 0, parsed.header, parsed.image.code, capacity).0.status !=
            LinkOk
  {
    hide *;
    VarBuilds(name, options, host);
    NotEmpty(name);
    BuiltInResolves(slot, stride, name);
    var context := BuiltInContext(slot, stride, name);
    VarLinks(context, name, options, capacity);
    var file := ObjectOf(VarSource(name), options, host);
    ParsedCode(file);
    BuiltInSlot(slot, stride, name);
    VarIsSmall(file);
    flash := HeldSomewhere(file);
    FlashLinkRefines(context, file, flash, 0, capacity);
    BuiltInInadmissible(name, options);
  }

  lemma BuiltInInadmissible(name: string, options: Options)
    requires name in BUILTIN_POINTS
    ensures !AllAdmissible(VarImage(name, options), 0)
  {
    hide BUILTIN_POINTS;
    var image := VarImage(name, options);
    assert image.relocations[0].symbolIndex == 0 && !Admissible(image.symbols[0]);
  }

  lemma BuiltInSlot(slot: u16, stride: u32, name: string)
    ensures BuiltInContext(slot, stride, name).slot == slot
  {
  }

  lemma VarIsSmall(file: seq<byte>)
    requires |file| == HEADER_SIZE + 5 + SYMBOL_SIZE + RELOCATION_SIZE
    ensures |file| <= FLASH_SIZE
  {
  }

  lemma ParsedCode(file: seq<byte>)
    requires ParseObject(file).Ok?
    ensures |ParseObject(file).value.image.code| == ParseObject(file).value.header.codeSize
    ensures |ParseObject(file).value.image.relocations| <= 0xFFFF
  {
    hide ReadHeader, ReadSymbols, Fnv.Checksum;
  }

  /** There is a flash that holds a file. */
  lemma HeldSomewhere(file: seq<byte>) returns (flash: Flash)
    requires |file| <= FLASH_SIZE
    ensures Holds(flash, 0, file)
  {
    flash := Flash(file + Zeros(FLASH_SIZE - |file|), _ => true);
    forall i | 0 <= i < |file|
      ensures HasByte(flash, 0 + i, file[i])
    {
      assert i - i % PAGE_SIZE + PAGE_SIZE <= FLASH_SIZE;
    }
  }

  /** The loader never gets that far: whatever the catalog, no load of a file with such a variable succeeds. */
  lemma BuiltInNameNotLoaded(board: Board, slot: u16, file: seq<byte>, flash: Flash, offset: u32, capacity: u32, hash: u32,
                             k: nat)
    requires board.Valid() && ParseObject(file).Ok? && Holds(flash, offset, file)
    requires k < |ParseObject(file).value.image.symbols|
    requires
      var record := ParseObject(file).value.image.symbols[k];
      record.kind == SLOT_VAR && record.name in BUILTIN_POINTS
    ensures LoadingObject(slot, file, hash).Valid() && !Outcomes(board, LoadingObject(slot, file, hash)).ok
    ensures
      var op := LoadingFlash(slot, flash, offset, capacity, hash);
      op.Valid() && !Outcomes(board, op).ok
  {
    hide *;
    var one, two := LoadingObject(slot, file, hash), LoadingFlash(slot, flash, offset, capacity, hash);
    ObjectOutcome(board, slot, file, hash);
    FlashOutcome(board, slot, flash, offset, capacity, hash);
    OutcomeParts(LoadObject(PreparedFor(board, one), slot, file));
    OutcomeParts(LoadFlash(PreparedFor(board, two), slot, flash, offset, capacity));
    var symbols := ParseObject(file).value.image.symbols;
    if Outcomes(board, one).ok {
      ObjectLoadsExactly(PreparedFor(board, one), slot, file);
      ObjectPrepared(board, slot, file, hash);
      PreparedNames(board, slot, symbols, hash, k);
    }
    if Outcomes(board, two).ok {
      FlashLoadsExactly(PreparedFor(board, two), slot, flash, offset, capacity);
      PreparedFromFlash(board, slot, flash, offset, capacity, hash, file);
      PreparedNames(board, slot, symbols, hash, k);
    }
  }

  /** The two lists of names, the assembler's and the firmware's, differ: two names assemble and are then refused, and five
      are reserved for nothing. */
  lemma NamesDiffer(name: string)
    ensures name in BUILTIN_POINTS && name !in RESERVED_NAMES <==> name == "loadEpoch" || name == "objectSize"
    ensures name in RESERVED_NAMES && name !in BUILTIN_POINTS <==>
            || name == "source" || name == "programType" || name == "inputChannel" || name == "outputChannel"
            || name == "runtimeMapOk"
  {
  }
}
