/** How the firmware notices that a slot has gone stale: the manifest keeps the epoch of the catalog the program was
    linked against. */
module Refresh {
  import opened Bytes
  import opened Memory
  import opened Lexer
  import opened Assembler
  import opened ObjectFile
  import opened ObjectParser
  import opened Catalog
  import opened SlotVariables
  import opened LinkedProgram
  import opened FlashPages
  import opened FlashLinker
  import opened FlashLoads
  import opened LoadsAgree
  import opened SlotMemory
  import opened SlotIsolation
  import opened SlotRecords
  import opened StaleSlots
  import Fnv

  const LOAD_EPOCH_AT: nat := 68

  /** The epoch in the slot's manifest. */
  function LoadEpoch(memory: seq<byte>, slot: u16): u32
    requires |memory| == SDRAM_SIZE && slot < SLOT_COUNT
  {
    Layout(slot);
    Fetch32(memory, ManifestAt(slot) + LOAD_EPOCH_AT)
  }

  /** What plc_slot_manifest_runtime_map_ok compares in the end. */
  predicate MapOk(board: Board, slot: u16)
    requires board.Valid() && slot < SLOT_COUNT
  {
    LoadEpoch(board.memory, slot) == board.publication.epoch
  }

  // The epoch of a load

  /** After a successful load, from memory or from flash, the manifest has the epoch of the publisher. */
  lemma LoadedMapOk(board: Board, slot: u16, file: seq<byte>, hash: u32)
    requires board.Valid() && Outcomes(board, LoadingObject(slot, file, hash)).ok
    ensures LoadingObject(slot, file, hash).Valid() && slot < SLOT_COUNT
    ensures MapOk(Perform(board, LoadingObject(slot, file, hash)), slot)
  {
    hide *;
    var code := LoadedSlotIsReady(board, slot, file, hash);
    SlotBelow(slot);
    ReadyMap(Perform(board, LoadingObject(slot, file, hash)), slot, code, ParseObject(file).value.header, 0x2010_0000);
  }

  lemma FlashLoadedMapOk(board: Board, slot: u16, flash: Flash, offset: u32, capacity: u32, hash: u32)
    requires board.Valid() && Outcomes(board, LoadingFlash(slot, flash, offset, capacity, hash)).ok
    ensures LoadingFlash(slot, flash, offset, capacity, hash).Valid() && slot < SLOT_COUNT
    ensures MapOk(Perform(board, LoadingFlash(slot, flash, offset, capacity, hash)), slot)
  {
    hide *;
    var code := FlashLoadedSlotIsReady(board, slot, flash, offset, capacity, hash);
    SlotBelow(slot);
    var h := FlashHeader(flash, offset, capacity).value;
    ReadyMap(Perform(board, LoadingFlash(slot, flash, offset, capacity, hash)), slot, code, h, h.runtimeHeaderAddress);
  }

  lemma SlotBelow(slot: u16)
    requires slot < 16
    ensures slot < SLOT_COUNT
  {
  }

  lemma ReadyMap(board: Board, slot: u16, code: seq<byte>, h: Header, runtimeHeader: u32)
    requires board.Valid() && slot < SLOT_COUNT && slot < 16 && |board.memory| == SDRAM_SIZE
    requires SlotReady(board.memory, slot, code, h, runtimeHeader, board.publication.epoch)
    ensures MapOk(board, slot)
  {
    Addresses(slot);
    hide BlockReady, HeaderReady, DirectoryReady, ZeroedAt, Fetch16, Fetch32, Fnv.Checksum;
  }

  lemma MapIs(board: Board, slot: u16)
    requires board.Valid() && slot < SLOT_COUNT
    ensures MapOk(board, slot) <==> LoadEpoch(board.memory, slot) == board.publication.epoch
  {
    hide LoadEpoch;
  }

  // The epoch over a run

  function HashOf(op: Op): Option<u32> {
    match op
    case LoadingParsed(_, _, _, _, hash) => Some(hash)
    case LoadingObject(_, _, hash) => Some(hash)
    case LoadingFlash(_, _, _, _, hash) => Some(hash)
    case _ => None
  }

  /** Another catalog has another hash than the one published last. */
  predicate Tells(board: Board, op: Op)
    requires board.Valid() && op.Valid()
  {
    Perform(board, op).points != board.points ==> HashOf(op) != Some(board.publication.hash)
  }

  predicate AllTell(board: Board, ops: seq<Op>)
    requires board.Valid() && AllValid(ops)
    decreases ops
  {
    ops == [] || (Tells(board, ops[0]) && AllTell(Perform(board, ops[0]), ops[1..]))
  }

  function NextEpoch(epoch: u32, k: nat): u32 {
    (epoch + k) % 0x1_0000_0000
  }

  /** What a preparation makes of the publication. */
  predicate Published(board: Board, points: Points, next: Publication, hash: u32) {
    && (next.epoch == board.publication.epoch || next.epoch == NextEpoch(board.publication.epoch, 1))
    && (points != board.points && hash != board.publication.hash ==> next.epoch == NextEpoch(board.publication.epoch, 1))
  }

  lemma PreparePublishes(board: Board, slot: u16, records: Option<seq<SymbolRecord>>, hash: u32)
    requires board.Valid() && board.publication.publisher.ready
    ensures
      var prepared := Prepare(board, slot, records, hash);
      Published(board, prepared.points, prepared.publication, hash)
  {
    hide Expected, Kept, Variables, Replaced, NeedsPublish, Flat, MovedStates, Descriptors, RuntimeHeaderBytes;
  }

  lemma PreparedForPublishes(board: Board, op: Op)
    requires board.Valid() && board.publication.publisher.ready
    ensures
      var prepared := PreparedFor(board, op);
      match HashOf(op)
      case Some(hash) => Published(board, prepared.points, prepared.publication, hash)
      case None => prepared == Unprepared(board)
  {
    hide Prepare, ParseObject, FlashHeader, FlashRecords, Board.Valid;
    match op
    case LoadingParsed(slot, image, _, _, hash) => PreparePublishes(board, slot, Some(image.symbols), hash);
    case LoadingObject(slot, file, hash) =>
      if ParseObject(file).Ok? {
        PreparePublishes(board, slot, Some(ParseObject(file).value.image.symbols), hash);
      }
    case LoadingFlash(slot, flash, offset, capacity, hash) =>
      if FlashHeader(flash, offset, capacity).Ok? {
        var h := FlashHeader(flash, offset, capacity).value;
        PreparePublishes(board, slot, FlashRecords(flash, offset, h, h.symbolCount), hash);
      }
    case _ =>
  }

  /** The epoch goes on by one, or stays; it does not stay with another catalog. */
  lemma EpochAfter(board: Board, op: Op)
    requires board.Valid() && op.Valid() && board.publication.publisher.ready && Tells(board, op)
    ensures
      var after := Perform(board, op);
      && (after.publication.epoch == board.publication.epoch ||
          after.publication.epoch == NextEpoch(board.publication.epoch, 1))
      && (after.points != board.points ==> after.publication.epoch == NextEpoch(board.publication.epoch, 1))
      && after.publication.publisher == board.publication.publisher
  {
    PreparedForPublishes(board, op);
    OutcomeIs(board, op);
    PointsAfter(board, op);
    hide PreparedFor, Outcomes, Apply, HashOf, Replaced, Variables, NextEpoch, Board.Valid, Op.Valid;
  }

  lemma {:induction false} EpochOver(board: Board, ops: seq<Op>) returns (k: nat)
    requires board.Valid() && AllValid(ops) && board.publication.publisher.ready && AllTell(board, ops)
    ensures k <= |ops| && SlotIsolation.Run(board, ops).publication.epoch == NextEpoch(board.publication.epoch, k)
    ensures k == 0 ==> SlotIsolation.Run(board, ops).points == board.points
    ensures SlotIsolation.Run(board, ops).publication.publisher == board.publication.publisher
    decreases ops
  {
    hide Perform, Tells, Board.Valid, Op.Valid;
    k := 0;
    if ops != [] {
      EpochAfter(board, ops[0]);
      k := EpochOver(Perform(board, ops[0]), ops[1..]);
      if Perform(board, ops[0]).publication.epoch != board.publication.epoch {
        k := k + 1;
      }
    }
  }

  lemma EpochDiffers(epoch: u32, k: nat)
    requires 0 < k < 0x1_0000_0000
    ensures NextEpoch(epoch, k) != epoch
  {
  }

  lemma EpochStays(board: Board, ops: seq<Op>, slot: u16)
    requires board.Valid() && AllValid(ops) && slot < SLOT_COUNT
    requires forall i | 0 <= i < |ops| :: ops[i].slot != slot
    ensures LoadEpoch(SlotIsolation.Run(board, ops).memory, slot) == LoadEpoch(board.memory, slot)
  {
    hide *;
    Layout(slot);
    var at := ManifestAt(slot) + LOAD_EPOCH_AT;
    var later := SlotIsolation.Run(board, ops).memory;
    EpochIsArea(slot);
    BoardSize(board);
    BoardSize(SlotIsolation.Run(board, ops));
    SlotsAreIsolated(board, ops, slot, at);
    SlotsAreIsolated(board, ops, slot, at + 1);
    SlotsAreIsolated(board, ops, slot, at + 2);
    SlotsAreIsolated(board, ops, slot, at + 3);
    SameEpoch(board.memory, later, slot);
  }

  lemma EpochIsArea(slot: nat)
    requires slot < SLOT_COUNT
    ensures
      var at := ManifestAt(slot) + LOAD_EPOCH_AT;
      && at + 3 < SDRAM_SIZE && Area(slot, at) && Area(slot, at + 1) && Area(slot, at + 2) && Area(slot, at + 3)
  {
    Layout(slot);
    hide AlignUp;
  }

  lemma SameEpoch(memory: seq<byte>, later: seq<byte>, slot: u16)
    requires |memory| == |later| == SDRAM_SIZE && slot < SLOT_COUNT
    requires ManifestAt(slot) + LOAD_EPOCH_AT + 3 < SDRAM_SIZE
    requires
      var at := ManifestAt(slot) + LOAD_EPOCH_AT;
      && later[at] == memory[at] && later[at + 1] == memory[at + 1] && later[at + 2] == memory[at + 2]
      && later[at + 3] == memory[at + 3]
    ensures LoadEpoch(later, slot) == LoadEpoch(memory, slot)
  {
  }

  /** No stale slot goes unnoticed. While other slots are loaded and changed, fewer than 2^32 times and with another
      hash for another catalog, the slot's manifest has the epoch of the publisher only if the catalog is the one
      the program was linked against, and then the program still means its source. */
  lemma StaleIsNoticed(source: seq<string>, lines: seq<Line>, options: Options, host: Host, loaded: Board, slot: u16,
                       code: seq<byte>, ops: seq<Op>)
    requires Builds(source, lines, options, host)
    requires slot < SLOT_COUNT && LinkedFor(Contexts(loaded, slot), slot, ObjectOf(source, options, host), code)
    requires loaded.Valid() && CodeAt(slot) + |code| <= StackAt(slot) <= SDRAM_SIZE
    requires loaded.memory[CodeAt(slot)..CodeAt(slot) + |code|] == code
    requires MapOk(loaded, slot) && loaded.publication.publisher.ready
    requires AllValid(ops) && |ops| < 0x1_0000_0000 && AllTell(loaded, ops)
    requires forall i | 0 <= i < |ops| :: ops[i].slot != slot
    ensures
      var later := SlotIsolation.Run(loaded, ops);
      MapOk(later, slot) ==>
        later.points == loaded.points && CodeMeans(later, slot, |code|, lines, SymbolsOf(source, options, host), host)
  {
    hide *;
    var later := SlotIsolation.Run(loaded, ops);
    MapIs(loaded, slot);
    MapIs(later, slot);
    EpochStays(loaded, ops, slot);
    var k := EpochOver(loaded, ops);
    if 0 < k {
      EpochDiffers(loaded.publication.epoch, k);
    } else {
      NoOp(loaded);
      HeldProgramMeans(source, lines, options, host, loaded, slot, code, []);
      HeldProgramMeans(source, lines, options, host, loaded, slot, code, ops);
      SameContexts(loaded, later, slot);
    }
  }

  lemma NoOp(board: Board)
    requires board.Valid()
    ensures AllValid([]) && SlotIsolation.Run(board, []) == board
  {
    hide Board.Valid;
  }

  lemma SameContexts(board: Board, after: Board, slot: u16)
    requires after.points == board.points && after.publication.publisher == board.publication.publisher
    ensures Contexts(after, slot) == Contexts(board, slot)
  {
  }

  // Reloading

  /** The slot's variables are already those the file asks for. */
  predicate Settled(points: Points, slot: u16, records: seq<SymbolRecord>) {
    Expected(points, slot, records) == Some(Variables(points, slot))
  }

  lemma {:induction false} ExpectedAgain(points: Points, next: Points, slot: u16, records: seq<SymbolRecord>)
    requires points != [] && next != [] && SlotDevice(next, SlotFeature(slot)) == SlotDevice(points, SlotFeature(slot))
    ensures Expected(next, slot, records) == Expected(points, slot, records)
    decreases records
  {
    hide SlotDevice, SlotFeature, BUILTIN_POINTS;
    if records != [] {
      ExpectedAgain(points, next, slot, records[..|records| - 1]);
    }
  }

  /** After a preparation they are, if the slot's points are local and on one device. */
  lemma PreparedSettles(board: Board, slot: u16, records: seq<SymbolRecord>, hash: u32)
    requires board.Valid() && OnDevice(board.points, slot) && Prepare(board, slot, Some(records), hash).ok
    ensures
      var next := Prepare(board, slot, Some(records), hash).points;
      Variables(next, slot) == [] || (Settled(next, slot, records) && HasDevice(next, slot))
  {
    hide *;
    PreparedParts(board, slot, records, hash);
    ReplaceIs(board.points, slot, records);
    var next := Prepare(board, slot, Some(records), hash).points;
    var added := Expected(board.points, slot, records).value;
    if added != [] {
      DeviceStays(board.points, slot, records, next, added[0]);
      OnDeviceIs(board.points, slot);
      OnDeviceIs(next, slot);
      ExpectedAgain(board.points, next, slot, records);
      SettledIs(next, slot, records);
      VariablesAre(next, slot, added[0]);
      var k := ExpectedHas(board.points, slot, records, added[0]);
      ExpectedPlace(board.points, slot, records[k]);
      HasDeviceIs(next, slot, added[0]);
    }
  }

  lemma OnDeviceIs(points: Points, slot: u16)
    requires OnDevice(points, slot)
    ensures points != []
  {
  }

  lemma SettledIs(points: Points, slot: u16, records: seq<SymbolRecord>)
    requires Expected(points, slot, records) == Some(Variables(points, slot))
    ensures Settled(points, slot, records)
  {
  }

  lemma HasDeviceIs(points: Points, slot: u16, p: Point)
    requires OnDevice(points, slot) && p in points && p.id.feature == SlotFeature(slot)
    ensures HasDevice(points, slot)
  {
    hide SlotDevice, SlotFeature;
    FirstLocalIs(points, SlotFeature(slot), SlotDevice(points, SlotFeature(slot)), p);
  }

  /** Operations on other slots leave it so. */
  lemma {:induction false} SettledStays(board: Board, ops: seq<Op>, slot: u16, records: seq<SymbolRecord>)
    requires board.Valid() && AllValid(ops) && forall i | 0 <= i < |ops| :: ops[i].slot != slot
    requires Settled(board.points, slot, records) && HasDevice(board.points, slot)
    ensures Settled(SlotIsolation.Run(board, ops).points, slot, records)
    ensures HasDevice(SlotIsolation.Run(board, ops).points, slot)
    decreases ops
  {
    hide Perform, Variables, Replaced, Expected, Board.Valid, Op.Valid, HasDevice, SlotFeature;
    if ops != [] {
      var after, other := Perform(board, ops[0]), ops[0].slot;
      PointsAfter(board, ops[0]);
      if after.points != board.points {
        var added := Variables(after.points, other);
        VariablesAreAll(after.points, other);
        ReplacedIs(board.points, other, added);
        DeviceAfter(board.points, slot, other, added);
        ExpectedAgain(board.points, after.points, slot, records);
      }
      SettledStays(after, ops[1..], slot, records);
    }
  }

  lemma DeviceAfter(points: Points, slot: u16, other: u16, added: Points)
    requires slot != other && AllVariables(added, other) && HasDevice(points, slot)
    ensures points != [] && Replaced(points, other, added) != []
    ensures HasDevice(Replaced(points, other, added), slot)
    ensures SlotDevice(Replaced(points, other, added), SlotFeature(slot)) == SlotDevice(points, SlotFeature(slot))
  {
    FirstLocalReplaced(points, slot, other, added);
    hide FirstLocalDevice, SlotFeature, Replaced, AllVariables;
    SomePoint(points, SlotFeature(slot));
    SomePoint(Replaced(points, other, added), SlotFeature(slot));
  }

  /** Reloading a stale slot makes no other slot stale: the catalog stays as it is, and its epoch too, as long as the
      same catalog has the same hash. */
  lemma ReloadSettles(board: Board, slot: u16, file: seq<byte>, hash: u32)
    requires board.Valid() && board.publication.publisher.ready
    requires ParseObject(file).Ok? && Settled(board.points, slot, ParseObject(file).value.image.symbols)
    ensures LoadingObject(slot, file, hash).Valid()
    ensures
      var after := Perform(board, LoadingObject(slot, file, hash));
      && after.points == board.points
      && (board.publication.written && hash == board.publication.hash ==> after.publication == board.publication)
  {
    hide *;
    var op := LoadingObject(slot, file, hash);
    ObjectOutcome(board, slot, file, hash);
    ObjectPrepared(board, slot, file, hash);
    SettledPrepares(board, slot, ParseObject(file).value.image.symbols, hash);
    AfterOutcome(board, op);
  }

  lemma SettledPrepares(board: Board, slot: u16, records: seq<SymbolRecord>, hash: u32)
    requires board.Valid() && board.publication.publisher.ready && Settled(board.points, slot, records)
    ensures
      var prepared := Prepare(board, slot, Some(records), hash);
      && prepared.points == board.points
      && (board.publication.written && hash == board.publication.hash ==> prepared.publication == board.publication)
  {
    KeptOrVariable(board.points, slot);
    hide Expected, Kept, Variables, Replaced, NeedsPublish, Flat, MovedStates, Descriptors, RuntimeHeaderBytes;
  }

  lemma AfterOutcome(board: Board, op: Op)
    requires board.Valid() && op.Valid()
    ensures
      var after, prepared := Perform(board, op), PreparedFor(board, op);
      || (after.points == board.points && after.publication == board.publication)
      || (after.points == prepared.points && after.publication == prepared.publication)
  {
    OutcomeIs(board, op);
    hide PreparedFor, Outcomes, Apply, Board.Valid, Op.Valid;
  }
}
