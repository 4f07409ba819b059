/** The states the firmware keeps for its points in SDRAM: an operation on a slot moves them along with their
    points. */
module PointStates {
  import opened Bytes
  import opened Memory
  import opened ObjectFile
  import opened ObjectParser
  import opened Catalog
  import opened SlotVariables
  import opened FlashLinker
  import opened SlotMemory
  import opened SlotIsolation

  /** The state kept for a point. */
  function StateOf(memory: seq<byte>, i: nat): seq<byte>
    requires |memory| == SDRAM_SIZE && i < MAX_POINTS
  {
    memory[STATES_AT + STATE_SIZE * i..STATES_AT + STATE_SIZE * i + STATE_SIZE]
  }

  // Writes below the states

  predicate Below(w: Write) {
    w.at + |w.bytes| <= STATES_AT
  }

  predicate AllBelow(writes: seq<Write>) {
    forall i | 0 <= i < |writes| :: Below(writes[i])
  }

  lemma BelowConcat(a: seq<Write>, b: seq<Write>)
    requires AllBelow(a) && AllBelow(b)
    ensures AllBelow(a + b)
  {
    hide Below;
  }

  lemma OwnIsBelow(slot: nat, writes: seq<Write>)
    requires (writes != [] ==> slot < SLOT_COUNT) && AllOwn(slot, writes)
    ensures AllBelow(writes)
  {
    if writes != [] {
      Layout(slot);
    }
    hide AlignUp, ScratchAt;
  }

  lemma CodeIsBelow(slot: u16, writes: seq<Write>)
    requires (writes != [] ==> slot < SLOT_COUNT) && AllInCode(slot, writes)
    ensures AllBelow(writes)
  {
    if writes != [] {
      CodeIsOwn(slot, writes);
      OwnIsBelow(slot, writes);
    }
  }

  lemma BelowKeeps(memory: seq<byte>, writes: seq<Write>, i: nat)
    requires InMemory(memory, writes) && AllBelow(writes) && |memory| == SDRAM_SIZE && i < MAX_POINTS
    ensures StateOf(Apply(memory, writes), i) == StateOf(memory, i)
  {
    var low := STATES_AT + STATE_SIZE * i;
    ApplyKeepsSlice(memory, writes, low, low + STATE_SIZE);
    hide Apply;
  }

  // What a preparation writes

  /** A list of writes that are all below the states, but for one, if any, that replaces them. */
  predicate Replaces(writes: seq<Write>, states: Option<seq<seq<byte>>>, before: seq<Write>, after: seq<Write>) {
    && AllBelow(before) && AllBelow(after)
    && writes == before + (if states.Some? then [Write(STATES_AT, Flat(states.value))] else []) + after
  }

  /** The catalog stays as it is, or its states move with it. */
  predicate MovesStates(board: Board, slot: u16, next: Points, states: Option<seq<seq<byte>>>)
    requires board.Valid()
  {
    match states
    case None => next == board.points
    case Some(moved) =>
      && next == Replaced(board.points, slot, Variables(next, slot)) && |next| <= MAX_POINTS
      && moved == MovedStates(board, slot, next)
  }

  lemma PublishedIsBelow(points: Points, p: Publication)
    requires |points| <= MAX_POINTS && p.count <= MAX_POINTS
    ensures Below(Write(DESCRIPTORS_AT, Descriptors(points))) && Below(Write(RUNTIME_AT, RuntimeHeaderBytes(p)))
  {
    hide Descriptors, RuntimeHeaderBytes;
  }

  lemma PreparationMoves(board: Board, slot: u16, records: Option<seq<SymbolRecord>>, hash: u32)
    returns (states: Option<seq<seq<byte>>>, after: seq<Write>)
    requires board.Valid()
    ensures Replaces(Prepare(board, slot, records, hash).writes, states, [], after)
    ensures MovesStates(board, slot, Prepare(board, slot, records, hash).points, states)
  {
    hide Reconcile, Expected, Replace, Replaced, Variables, MovedStates, Flat, Descriptors, RuntimeHeaderBytes, Below;
    var r := Reconcile(board.points, board.publication, slot, records, hash);
    ReconciledIs(board.points, board.publication, slot, records, hash);
    PublishedIsBelow(r.points, r.publication);
    after := (if r.rebuilt then [Write(DESCRIPTORS_AT, Descriptors(r.points))] else []) +
             (if r.published then [Write(RUNTIME_AT, RuntimeHeaderBytes(r.publication))] else []);
    states := if r.changed then Some(MovedStates(board, slot, r.points)) else None;
    if r.changed {
      ReplaceIs(board.points, slot, records.value);
      ReplaceChanges(board.points, slot, Expected(board.points, slot, records.value).value);
    }
  }

  lemma NothingMoves(board: Board, slot: u16)
    requires board.Valid()
    ensures Replaces([], None, [], []) && MovesStates(board, slot, board.points, None)
  {
  }

  lemma PreparedMoves(board: Board, op: Op) returns (states: Option<seq<seq<byte>>>, after: seq<Write>)
    requires board.Valid()
    ensures Replaces(PreparedFor(board, op).writes, states, [], after)
    ensures MovesStates(board, op.slot, PreparedFor(board, op).points, states)
  {
    hide Prepare, ParseObject, FlashHeader, FlashRecords, Replaces, MovesStates, Board.Valid;
    NothingMoves(board, op.slot);
    states, after := None, [];
    match op
    case LoadingParsed(slot, image, _, _, hash) =>
      states, after := PreparationMoves(board, slot, Some(image.symbols), hash);
    case LoadingObject(slot, file, hash) =>
      if ParseObject(file).Ok? {
        states, after := PreparationMoves(board, slot, Some(ParseObject(file).value.image.symbols), hash);
      }
    case LoadingFlash(slot, flash, offset, capacity, hash) =>
      if FlashHeader(flash, offset, capacity).Ok? {
        var h := FlashHeader(flash, offset, capacity).value;
        states, after := PreparationMoves(board, slot, FlashRecords(flash, offset, h, h.symbolCount), hash);
      }
    case _ =>
  }

  // What an operation does to the states

  lemma PartsReplace(read: seq<Write>, preparation: seq<Write>, states: Option<seq<seq<byte>>>, tail: seq<Write>,
                     code: seq<Write>, rest: seq<Write>)
    requires AllBelow(read) && AllBelow(code) && AllBelow(rest) && Replaces(preparation, states, [], tail)
    ensures Replaces(read + preparation + code + rest, states, read, tail + (code + rest))
  {
    hide AllBelow, Flat;
    BelowConcat(code, rest);
    BelowConcat(tail, code + rest);
    var w := if states.Some? then [Write(STATES_AT, Flat(states.value))] else [];
    assert preparation == w + tail;
    assert read + (w + tail) + code + rest == read + w + (tail + (code + rest));
  }

  lemma LoadIsBelow(slot: u16, load: Load)
    requires Contained(slot, load)
    ensures AllBelow(load.read) && AllBelow(load.code) && AllBelow(load.rest)
  {
    hide AllBelow, AllInCode, AllOwn, AllClear, AllRuntime;
    CodeIsBelow(slot, load.read);
    CodeIsBelow(slot, load.code);
    OwnIsBelow(slot, load.rest);
  }

  lemma LoadMoves(board: Board, slot: u16, load: Load, prepared: Prepared, states: Option<seq<seq<byte>>>, tail: seq<Write>)
    returns (moved: Option<seq<seq<byte>>>, before: seq<Write>, after: seq<Write>)
    requires board.Valid() && Contained(slot, load) && (load.prepared.Some? ==> load.prepared.value == prepared)
    requires Replaces(prepared.writes, states, [], tail) && MovesStates(board, slot, prepared.points, states)
    ensures Replaces(load.Writes(), moved, before, after)
    ensures MovesStates(board, slot, load.prepared.GetOr(Unprepared(board)).points, moved)
  {
    LoadIsBelow(slot, load);
    NothingMoves(board, slot);
    hide AllBelow, MovesStates, Replaces, Contained, Board.Valid;
    before := load.read;
    if load.prepared.Some? {
      PartsReplace(load.read, prepared.writes, states, tail, load.code, load.rest);
      moved, after := states, tail + (load.code + load.rest);
    } else {
      PartsReplace(load.read, [], None, [], load.code, load.rest);
      moved, after := None, [] + (load.code + load.rest);
    }
  }

  lemma OutcomeMoves(board: Board, op: Op)
    returns (moved: Option<seq<seq<byte>>>, before: seq<Write>, after: seq<Write>)
    requires board.Valid() && op.Valid()
    ensures Replaces(Outcomes(board, op).writes, moved, before, after)
    ensures MovesStates(board, op.slot, Outcomes(board, op).prepared.GetOr(Unprepared(board)).points, moved)
  {
    hide LoadParsed, LoadObject, LoadFlash, SetParams, StageSnapshot, AllRuntime, AllBelow, PreparedFor, Replaces,
         MovesStates, Contained, Load.Writes, Board.Valid;
    PreparedIsSound(board, op);
    SoundIsRuntime(PreparedFor(board, op));
    var prepared := PreparedFor(board, op);
    var states, tail := PreparedMoves(board, op);
    match op
    case LoadingParsed(slot, image, maxInstructions, maxTime, _) =>
      LoadParsedContained(prepared, slot, image, maxInstructions, maxTime);
      moved, before, after := LoadMoves(board, slot, LoadParsed(prepared, slot, image, maxInstructions, maxTime), prepared,
                                        states, tail);
    case LoadingObject(slot, file, _) =>
      LoadObjectContained(prepared, slot, file);
      moved, before, after := LoadMoves(board, slot, LoadObject(prepared, slot, file), prepared, states, tail);
    case LoadingFlash(slot, flash, offset, capacity, _) =>
      LoadFlashContained(prepared, slot, flash, offset, capacity);
      moved, before, after := LoadMoves(board, slot, LoadFlash(prepared, slot, flash, offset, capacity), prepared, states,
                                        tail);
    case SettingParams(slot, params, size) =>
      SetParamsIsOwn(slot, params, size);
      moved, before, after := OwnMoves(board, slot, SetParams(slot, params, size).1);
    case Staging(slot, file) =>
      SnapshotIsOwn(slot, file);
      moved, before, after := OwnMoves(board, slot, StageSnapshot(slot, file).1);
  }

  lemma OwnMoves(board: Board, slot: u16, writes: seq<Write>)
    returns (moved: Option<seq<seq<byte>>>, before: seq<Write>, after: seq<Write>)
    requires board.Valid() && (writes != [] ==> slot < SLOT_COUNT) && AllOwn(slot, writes)
    ensures Replaces(writes, moved, before, after) && MovesStates(board, slot, board.points, moved)
  {
    NothingMoves(board, slot);
    OwnIsBelow(slot, writes);
    hide AllBelow, MovesStates;
    moved, before, after := None, [], writes;
    assert AllBelow([]) by {
      NoWriteIsBelow();
    }
    assert [] + [] + writes == writes;
  }

  lemma NoWriteIsBelow()
    ensures AllBelow([])
  {
  }

  lemma {:induction false} FlatAt(records: seq<seq<byte>>, j: nat)
    requires AllStates(records) && j < |records|
    ensures |Flat(records)| == STATE_SIZE * |records|
    ensures Flat(records)[STATE_SIZE * j..STATE_SIZE * j + STATE_SIZE] == records[j]
    decreases records
  {
    var last := |records| - 1;
    FlatSize(records);
    FlatSize(records[..last]);
    if j < last {
      FlatAt(records[..last], j);
      assert records[..last][j] == records[j];
      var lo := STATE_SIZE * j;
      assert Flat(records)[lo..lo + STATE_SIZE] == Flat(records[..last])[lo..lo + STATE_SIZE];
    }
  }

  /** What is in memory after writes that replace the states. */
  lemma ReplacedStates(memory: seq<byte>, writes: seq<Write>, states: seq<seq<byte>>, before: seq<Write>, after: seq<Write>,
                       j: nat)
    requires |memory| == SDRAM_SIZE && InMemory(memory, writes) && Replaces(writes, Some(states), before, after)
    requires AllStates(states) && j < |states| <= MAX_POINTS
    ensures StateOf(Apply(memory, writes), j) == states[j]
  {
    hide Apply, InMemory, Flat, AllBelow, StateOf, AllStates;
    var w := Write(STATES_AT, Flat(states));
    ApplyAll(memory, before + [w], after);
    ApplyAll(memory, before, [w]);
    var first := Apply(memory, before);
    ApplyOne(first, w);
    var second := Patch(first, STATES_AT, Flat(states));
    BelowKeeps(second, after, j);
    FlatAt(states, j);
    StateWritten(first, Flat(states), j);
  }

  lemma StateWritten(memory: seq<byte>, bytes: seq<byte>, j: nat)
    requires |memory| == SDRAM_SIZE && STATES_AT + |bytes| <= SDRAM_SIZE && STATE_SIZE * j + STATE_SIZE <= |bytes|
    requires j < MAX_POINTS
    ensures StateOf(Patch(memory, STATES_AT, bytes), j) == bytes[STATE_SIZE * j..STATE_SIZE * j + STATE_SIZE]
  {
    var lo := STATE_SIZE * j;
    assert Patch(memory, STATES_AT, bytes)[STATES_AT + lo..STATES_AT + lo + STATE_SIZE] == bytes[lo..lo + STATE_SIZE];
  }

  lemma KeptStates(memory: seq<byte>, writes: seq<Write>, before: seq<Write>, after: seq<Write>, j: nat)
    requires |memory| == SDRAM_SIZE && InMemory(memory, writes) && Replaces(writes, None, before, after) && j < MAX_POINTS
    ensures StateOf(Apply(memory, writes), j) == StateOf(memory, j)
  {
    hide Apply, InMemory, StateOf, AllBelow;
    assert writes == before + after;
    BelowConcat(before, after);
    BelowKeeps(memory, writes, j);
  }

  lemma MovedState(board: Board, slot: u16, next: Points, i: nat)
    requires board.Valid() && i < |board.points| && !IsSlotVariable(board.points[i], slot)
    requires next == Replaced(board.points, slot, Variables(next, slot)) && |next| <= MAX_POINTS
    ensures
      var j := NewIndex(board.points, slot, i, |Variables(next, slot)|);
      && j < |next| == |MovedStates(board, slot, next)| && next[j] == board.points[i]
      && MovedStates(board, slot, next)[j] == StateOf(board.memory, i)
      && AllStates(MovedStates(board, slot, next))
  {
    MovedSizes(board, slot, next);
    hide Kept, InsertAt, IsSlotVariable, Variables, NewIndex;
    var added := Variables(next, slot);
    MovedAt(board.points, slot, board.points, added, i);
    MovedAt(board.points, slot, States(board.memory, |board.points|), seq(|added|, _ => Zeros(STATE_SIZE)), i);
    MovedAllStates(board, slot, next);
  }

  lemma MovedAllStates(board: Board, slot: u16, next: Points)
    requires board.Valid()
    ensures AllStates(MovedStates(board, slot, next))
  {
    hide Kept, InsertAt, IsSlotVariable, Variables;
    var states := States(board.memory, |board.points|);
    KeptLength(board.points, slot, states, board.points);
    KeptSizes(board.points, slot, states);
  }

  /** No operation on a slot loses or mixes up the state of a point that is no variable of the slot: the point is
      still in the catalog, and the state kept for it in SDRAM is byte by byte what it was. */
  lemma StatesFollowPoints(board: Board, op: Op, i: nat) returns (j: nat)
    requires board.Valid() && op.Valid() && i < |board.points| && !IsSlotVariable(board.points[i], op.slot)
    ensures
      var after := Perform(board, op);
      && j < |after.points| && after.points[j] == board.points[i]
      && StateOf(after.memory, j) == StateOf(board.memory, i)
  {
    WritesFit(board, op);
    var moved, before, tail := OutcomeMoves(board, op);
    var writes := Outcomes(board, op).writes;
    hide Outcomes, Apply, InMemory, IsSlotVariable, Replaced, Variables, MovedStates, Replaces, StateOf, NewIndex, AllStates,
         Op.Valid;
    match moved
    case None =>
      j := i;
      KeptStates(board.memory, writes, before, tail, i);
    case Some(states) =>
      var next := Perform(board, op).points;
      MovedState(board, op.slot, next, i);
      j := NewIndex(board.points, op.slot, i, |Variables(next, op.slot)|);
      ReplacedStates(board.memory, writes, states, before, tail, j);
  }

  /** Nor does any run of operations, in particular on slots the point is no variable of. */
  lemma {:induction false} StatesFollowRuns(board: Board, ops: seq<Op>, i: nat) returns (j: nat)
    requires board.Valid() && AllValid(ops) && i < |board.points|
    requires forall k | 0 <= k < |ops| :: !IsSlotVariable(board.points[i], ops[k].slot)
    ensures
      var after := Run(board, ops);
      && j < |after.points| && after.points[j] == board.points[i]
      && StateOf(after.memory, j) == StateOf(board.memory, i)
    decreases ops
  {
    hide Perform, IsSlotVariable, StateOf, Board.Valid, Op.Valid;
    j := i;
    if ops != [] {
      var next := StatesFollowPoints(board, ops[0], i);
      j := StatesFollowRuns(Perform(board, ops[0]), ops[1..], next);
    }
  }
}
