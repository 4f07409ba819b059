/** A loaded slot after other slots have been loaded: its bytes are still there, but the points may have moved
    under them. */
module StaleSlots {
  import opened Bytes
  import opened Memory
  import opened Isa
  import opened Lexer
  import opened Assembler
  import opened ObjectFile
  import opened ObjectParser
  import opened Catalog
  import opened SlotVariables
  import opened Linker
  import opened LinkedProgram
  import opened Staleness
  import opened FlashLinker
  import opened SlotMemory
  import opened SlotIsolation

  // The device of a slot

  lemma {:induction false} FirstLocalConcat(a: Points, b: Points, feature: string)
    ensures FirstLocalDevice(a + b, feature) ==
            if FirstLocalDevice(a, feature).Some? then FirstLocalDevice(a, feature) else FirstLocalDevice(b, feature)
    decreases a
  {
    if a == [] {
      assert a + b == b;
    } else {
      assert (a + b)[1..] == a[1..] + b;
      FirstLocalConcat(a[1..], b, feature);
    }
  }

  lemma {:induction false} NoFirstLocal(points: Points, slot: u16, other: u16)
    requires AllVariables(points, other) && slot != other
    ensures FirstLocalDevice(points, SlotFeature(slot)) == None
    decreases points
  {
    if points != [] {
      SlotOfFeature(slot);
      hide SlotFeature, SlotOf;
      assert IsSlotVariable(points[0], other);
      assert forall i | 0 <= i < |points[1..]| :: points[1..][i] == points[i + 1] && IsSlotVariable(points[i + 1], other);
      NoFirstLocal(points[1..], slot, other);
    }
  }

  lemma {:induction false} FirstLocalKept(points: Points, slot: u16, other: u16)
    requires slot != other
    ensures FirstLocalDevice(Kept(points, other, points), SlotFeature(slot)) == FirstLocalDevice(points, SlotFeature(slot))
  {
    if points != [] {
      var last := |points| - 1;
      FirstLocalKept(points[..last], slot, other);
      var kept := Kept(points[..last], other, points[..last]);
      hide SlotFeature, IsSlotVariable, FirstLocalDevice;
      var feature := SlotFeature(slot);
      FirstLocalConcat(kept, [points[last]], feature);
      FirstLocalConcat(points[..last], [points[last]], feature);
      assert points[..last] + [points[last]] == points;
      if IsSlotVariable(points[last], other) {
        assert Kept(points, other, points) == kept;
        NoFirstLocal([points[last]], slot, other);
      } else {
        assert Kept(points, other, points) == kept + [points[last]];
      }
    }
  }

  /** Loading one slot does not change the device of another. */
  lemma FirstLocalReplaced(points: Points, slot: u16, other: u16, added: Points)
    requires slot != other && AllVariables(added, other)
    ensures FirstLocalDevice(Replaced(points, other, added), SlotFeature(slot)) ==
            FirstLocalDevice(points, SlotFeature(slot))
  {
    hide FirstLocalDevice, SlotFeature, Kept, InsertAt, AllVariables;
    var kept, feature := Kept(points, other, points), SlotFeature(slot);
    var at := InsertAt(kept, other);
    FirstLocalKept(points, slot, other);
    NoFirstLocal(added, slot, other);
    FirstLocalConcat(kept[..at], kept[at..], feature);
    assert kept[..at] + kept[at..] == kept;
    FirstLocalConcat(kept[..at], added, feature);
    FirstLocalConcat(kept[..at] + added, kept[at..], feature);
  }

  // One symbol

  /** The slot has a point on a device with a name, which is its device then. */
  predicate HasDevice(points: Points, slot: u16) {
    var device := FirstLocalDevice(points, SlotFeature(slot));
    device.Some? && device.value != ""
  }

  /** The record with its identity, if it resolves. */
  function Identified(context: Context, record: SymbolRecord): SymbolRecord {
    ResolveRecord(context, record).GetOr(record)
  }

  /** The point the record resolves to. */
  function PointOf(context: Context, record: SymbolRecord): nat {
    FindIndex(context.points, Identified(context, record).id)
  }

  /** The symbol does not stand for a variable of the other slot. */
  predicate Foreign(context: Context, record: SymbolRecord, other: u16, added: Points) {
    var i := PointOf(context, record);
    i < |context.points| && !IsSlotVariable(context.points[i], other) && Lacks(added, Identified(context, record).id)
  }

  /** As many variables of the other slot are put in before the point as are taken out before it. */
  predicate StaysPut(points: Points, other: u16, added: Points, i: nat)
    requires i <= |points|
  {
    var before := InsertAt(Kept(points, other, points), other) <= Rank(points, other, i);
    |Variables(points[..i], other)| == if before then |added| else 0
  }

  lemma IdentifiedAgain(context: Context, later: Context, record: SymbolRecord, other: u16, added: Points)
    requires later == context.(points := Replaced(context.points, other, added)) && context.slot != other
    requires HasDevice(context.points, context.slot) && AllVariables(added, other)
    requires ResolveRecord(context, record).Some?
    ensures ResolveRecord(later, record) == ResolveRecord(context, record)
  {
    hide FirstLocalDevice, SlotFeature, Replaced, AllVariables;
    FirstLocalReplaced(context.points, context.slot, other, added);
    SomePoint(later.points, SlotFeature(context.slot));
  }

  lemma SomePoint(points: Points, feature: string)
    requires FirstLocalDevice(points, feature).Some?
    ensures points != []
  {
  }

  /** What a resolved symbol links to, by its point. */
  lemma LinkIs(context: Context, record: SymbolRecord)
    requires LinkOf(context, record).status == Resolved
    ensures ResolveRecord(context, record).Some? && PointOf(context, record) < |context.points|
    ensures
      var i := PointOf(context, record);
      LinkOf(context, record) == LinkResult(Resolved, StateIndex(context.publisher, i), StateOffset(context.publisher, i))
  {
    hide FindIndex, SlotVariableIdentity, RuntimeType, AccessAllowed;
  }

  /** Whether it resolves depends on the point alone, as long as there is a state for it. */
  lemma LinkAgain(context: Context, later: Context, record: SymbolRecord)
    requires LinkOf(context, record).status == Resolved && later.publisher == context.publisher
    requires ResolveRecord(later, record) == ResolveRecord(context, record)
    requires PointOf(context, record) < |context.points| && PointOf(later, record) < |later.points| <= MAX_POINTS
    requires later.points[PointOf(later, record)] == context.points[PointOf(context, record)]
    ensures LinkOf(later, record).status == Resolved
  {
    hide FindIndex, SlotVariableIdentity, RuntimeType, AccessAllowed;
  }

  lemma SamePlace(publisher: Publisher, i: nat, j: nat, kind: byte)
    requires publisher.ready && publisher.stride == STATE_SIZE && i < MAX_POINTS && j < MAX_POINTS && PatchSize(kind) != 0
    ensures
      var a := LinkResult(Resolved, StateIndex(publisher, i), StateOffset(publisher, i));
      var b := LinkResult(Resolved, StateIndex(publisher, j), StateOffset(publisher, j));
      PatchBytes(kind, a) == PatchBytes(kind, b) <==> i == j
  {
    hide Le16, Le32;
    if kind == RELOCATION_INDEX_U16 {
      SameHalves(i, j);
    } else {
      SameWords(i * STATE_SIZE, j * STATE_SIZE);
    }
  }

  lemma SameHalves(v: u16, w: u16)
    ensures Le16(v) == Le16(w) <==> v == w
  {
    FetchLe16(v, Le16(v), 0);
    FetchLe16(w, Le16(w), 0);
    assert Le16(v)[0..2] == Le16(v) && Le16(w)[0..2] == Le16(w);
  }

  lemma SameWords(v: u32, w: u32)
    ensures Le32(v) == Le32(w) <==> v == w
  {
    assert Le32(v)[0..4] == Le32(v) && Le32(w)[0..4] == Le32(w);
    FetchLe32(v, Le32(v), 0);
    FetchLe32(w, Le32(w), 0);
  }

  /** A symbol of a loaded program, after another slot's variables have been replaced: it still resolves, and to
      the same operand if and only if as many variables are put in before its point as are taken out. */
  lemma OperandStaysExactly(context: Context, later: Context, records: seq<SymbolRecord>, r: Relocation, other: u16,
                            added: Points)
    requires later == context.(points := Replaced(context.points, other, added)) && context.slot != other
    requires context.publisher.stride == STATE_SIZE && |context.points| <= MAX_POINTS && |later.points| <= MAX_POINTS
    requires HasDevice(context.points, context.slot) && AllVariables(added, other)
    requires r.symbolIndex < |records| && PatchSize(r.kind) != 0
    requires LinkOf(context, records[r.symbolIndex]).status == Resolved
    requires Foreign(context, records[r.symbolIndex], other, added)
    ensures LinkOf(later, records[r.symbolIndex]).status == Resolved
    ensures
      SameOperand(context, later, records, r) <==>
      StaysPut(context.points, other, added, PointOf(context, records[r.symbolIndex]))
  {
    hide FindIndex, Kept, InsertAt, Variables, IsSlotVariable, Lacks, LinkOf, ResolveRecord, Replaced, NewIndex, Rank,
         PatchBytes, AllVariables, HasDevice, StateIndex, StateOffset;
    var record := records[r.symbolIndex];
    var i := PointOf(context, record);
    LinkIs(context, record);
    IdentifiedAgain(context, later, record, other, added);
    FoundAgain(context.points, other, added, Identified(context, record).id);
    LinkAgain(context, later, record);
    LinkIs(later, record);
    LinkedIsReady(context, record);
    SamePlace(context.publisher, i, PointOf(later, record), r.kind);
    StaysExactly(context.points, other, i, |added|);
  }

  lemma LinkedIsReady(context: Context, record: SymbolRecord)
    requires LinkOf(context, record).status == Resolved
    ensures context.publisher.ready
  {
    hide FindIndex, SlotVariableIdentity, RuntimeType, AccessAllowed;
  }

  // A whole program

  lemma {:induction false} VariablesAreAll(points: Points, slot: u16)
    ensures AllVariables(Variables(points, slot), slot)
  {
    hide IsSlotVariable;
    if points != [] {
      VariablesAreAll(points[..|points| - 1], slot);
    }
  }

  lemma PreparedPoints(board: Board, slot: u16, records: Option<seq<SymbolRecord>>, hash: u32)
    requires board.Valid()
    ensures
      var prepared := Prepare(board, slot, records, hash);
      && prepared.publication.publisher == board.publication.publisher
      && (prepared.points == board.points ||
          prepared.points == Replaced(board.points, slot, Variables(prepared.points, slot)))
  {
    hide Reconcile, Expected, Replace, Replaced, Variables, MovedStates, Flat, Descriptors, RuntimeHeaderBytes;
    var r := Reconcile(board.points, board.publication, slot, records, hash);
    ReconciledIs(board.points, board.publication, slot, records, hash);
    if r.changed {
      ReplaceIs(board.points, slot, records.value);
    }
  }

  lemma PreparedForPoints(board: Board, op: Op)
    requires board.Valid()
    ensures
      var prepared := PreparedFor(board, op);
      && prepared.publication.publisher == board.publication.publisher
      && (prepared.points == board.points ||
          prepared.points == Replaced(board.points, op.slot, Variables(prepared.points, op.slot)))
  {
    hide Prepare, ParseObject, FlashHeader, FlashRecords, Replaced, Variables, Board.Valid;
    match op
    case LoadingParsed(slot, image, _, _, hash) => PreparedPoints(board, slot, Some(image.symbols), hash);
    case LoadingObject(slot, file, hash) =>
      if ParseObject(file).Ok? {
        PreparedPoints(board, slot, Some(ParseObject(file).value.image.symbols), hash);
      }
    case LoadingFlash(slot, flash, offset, capacity, hash) =>
      if FlashHeader(flash, offset, capacity).Ok? {
        var h := FlashHeader(flash, offset, capacity).value;
        PreparedPoints(board, slot, FlashRecords(flash, offset, h, h.symbolCount), hash);
      }
    case _ =>
  }

  /** An operation leaves the catalog as it is or replaces its slot's variables, and keeps the publisher. */
  lemma PointsAfter(board: Board, op: Op)
    requires board.Valid() && op.Valid()
    ensures
      var after := Perform(board, op);
      && after.publication.publisher == board.publication.publisher
      && (after.points == board.points || after.points == Replaced(board.points, op.slot, Variables(after.points, op.slot)))
  {
    PreparedForPoints(board, op);
    OutcomeIs(board, op);
    hide PreparedFor, Outcomes, Apply, Replaced, Variables, Board.Valid, Op.Valid;
  }

  /** Over any run, the variables of a slot stay the same, in the same order, while only other slots are worked
      on. */
  lemma {:induction false} VariablesStay(board: Board, ops: seq<Op>, slot: u16)
    requires AllValid(ops) && board.Valid() && forall i | 0 <= i < |ops| :: ops[i].slot != slot
    ensures Variables(SlotIsolation.Run(board, ops).points, slot) == Variables(board.points, slot)
    decreases ops
  {
    hide Perform, Variables, Replaced, Board.Valid, Op.Valid;
    if ops != [] {
      var after, other := Perform(board, ops[0]), ops[0].slot;
      PointsAfter(board, ops[0]);
      VariablesAreAll(after.points, other);
      ReplacedIs(board.points, other, Variables(after.points, other));
      VariablesStay(after, ops[1..], slot);
    }
  }

  predicate AllForeign(context: Context, image: Image, other: u16, added: Points) {
    forall k | 0 <= k < |image.relocations| && image.relocations[k].symbolIndex < |image.symbols| ::
      Foreign(context, image.symbols[image.relocations[k].symbolIndex], other, added)
  }

  predicate AllStayPut(context: Context, image: Image, other: u16, added: Points) {
    forall k | 0 <= k < |image.relocations| && image.relocations[k].symbolIndex < |image.symbols| ::
      var i := PointOf(context, image.symbols[image.relocations[k].symbolIndex]);
      i <= |context.points| && StaysPut(context.points, other, added, i)
  }

  lemma OperandsStayExactly(context: Context, later: Context, image: Image, other: u16, added: Points)
    requires later == context.(points := Replaced(context.points, other, added)) && context.slot != other
    requires context.publisher.stride == STATE_SIZE && |context.points| <= MAX_POINTS && |later.points| <= MAX_POINTS
    requires HasDevice(context.points, context.slot) && AllVariables(added, other)
    requires SameOperands(context, context, image) && AllForeign(context, image, other, added)
    ensures SameOperands(context, later, image) <==> AllStayPut(context, image, other, added)
  {
    hide StaysPut, Foreign, HasDevice, PointOf, AllVariables, Replaced, LinkOf, PatchBytes;
    forall k | 0 <= k < |image.relocations|
      ensures
        var i := PointOf(context, image.symbols[image.relocations[k].symbolIndex]);
        && i <= |context.points|
        && (SameOperand(context, later, image.symbols, image.relocations[k]) <==> StaysPut(context.points, other, added, i))
    {
      assert SameOperand(context, context, image.symbols, image.relocations[k]);
      LinkIs(context, image.symbols[image.relocations[k].symbolIndex]);
      OperandStaysExactly(context, later, image.symbols, image.relocations[k], other, added);
    }
  }

  /** When a loaded program goes stale. One more operation on another slot, whatever it is, leaves the program with
      its meaning if and only if the catalog has not changed, or before every point the program uses as many
      variables have been put in as were taken out. The program does not use the other slot's variables. */
  lemma StaleExactly(source: seq<string>, lines: seq<Line>, options: Options, host: Host, loaded: Board, slot: u16,
                     code: seq<byte>, op: Op)
    requires Builds(source, lines, options, host)
    requires slot < SLOT_COUNT && LinkedFor(Contexts(loaded, slot), slot, ObjectOf(source, options, host), code)
    requires loaded.Valid() && CodeAt(slot) + |code| <= StackAt(slot) <= SDRAM_SIZE
    requires loaded.memory[CodeAt(slot)..CodeAt(slot) + |code|] == code
    requires op.Valid() && op.slot != slot && HasDevice(loaded.points, slot)
    requires ParseObject(ObjectOf(source, options, host)).Ok?
    requires
      AllForeign(Contexts(loaded, slot), ImageOf(ObjectOf(source, options, host)), op.slot,
                 Variables(Perform(loaded, op).points, op.slot))
    ensures
      var after := Perform(loaded, op);
      CodeMeans(after, slot, |code|, lines, SymbolsOf(source, options, host), host) <==>
      (after.points == loaded.points ||
       AllStayPut(Contexts(loaded, slot), ImageOf(ObjectOf(source, options, host)), op.slot,
                  Variables(after.points, op.slot)))
  {
    hide *;
    var file := ObjectOf(source, options, host);
    var after := Perform(loaded, op);
    var context, later := Contexts(loaded, slot), Contexts(after, slot);
    var added := Variables(after.points, op.slot);
    OneOp(loaded, op);
    HeldProgramMeans(source, lines, options, host, loaded, slot, code, [op]);
    HeldProgramMeans(source, lines, options, host, loaded, slot, code, []);
    PointsAfter(loaded, op);
    VariablesAreAll(after.points, op.slot);
    ContextsAre(loaded, after, slot);
    if after.points != loaded.points {
      OperandsStayExactly(context, later, ImageOf(file), op.slot, added);
    }
  }

  lemma OneOp(board: Board, op: Op)
    requires board.Valid() && op.Valid()
    ensures AllValid([op]) && SlotIsolation.Run(board, [op]) == Perform(board, op)
    ensures AllValid([]) && SlotIsolation.Run(board, []) == board
  {
    hide Perform, Board.Valid, Op.Valid;
    assert [op][1..] == [];
  }

  lemma ContextsAre(board: Board, after: Board, slot: u16)
    requires board.Valid() && after.Valid() && after.publication.publisher == board.publication.publisher
    ensures Contexts(board, slot).slot == slot && Contexts(board, slot).points == board.points
    ensures Contexts(after, slot) == Contexts(board, slot).(points := after.points)
    ensures Contexts(board, slot).publisher.stride == STATE_SIZE
    ensures |board.points| <= MAX_POINTS && |after.points| <= MAX_POINTS
  {
  }
}
