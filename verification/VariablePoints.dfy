/** The points that a load makes of a program's variables, and when it can. */
module VariablePoints {
  import opened Bytes
  import opened Literals
  import opened ObjectFile
  import opened Catalog
  import opened SlotVariables
  import opened Linker
  import opened FlashLinker
  import opened SlotMemory

  // The device

  predicate IsLocalOf(p: Point, feature: string) {
    p.local && p.id.feature == feature
  }

  /** The device of the first local point with the feature; without one, or if it has none, that of the first point. */
  predicate IsDeviceOf(points: Points, feature: string, device: string)
    requires points != []
  {
    if exists i | 0 <= i < |points| :: IsLocalOf(points[i], feature) then
      exists i | 0 <= i < |points| ::
        && IsLocalOf(points[i], feature) && (forall k | 0 <= k < i :: !IsLocalOf(points[k], feature))
        && device == if points[i].id.device != "" then points[i].id.device else points[0].id.device
    else device == points[0].id.device
  }

  lemma {:induction false} FirstLocalIs(points: Points, feature: string)
    ensures
      match FirstLocalDevice(points, feature)
      case None => forall i | 0 <= i < |points| :: !IsLocalOf(points[i], feature)
      case Some(device) =>
        exists i | 0 <= i < |points| ::
          && IsLocalOf(points[i], feature) && (forall k | 0 <= k < i :: !IsLocalOf(points[k], feature))
          && device == points[i].id.device
  {
    if points != [] && !IsLocalOf(points[0], feature) {
      var rest := points[1..];
      FirstLocalIs(rest, feature);
      if FirstLocalDevice(rest, feature).Some? {
        var i :| 0 <= i < |rest| && IsLocalOf(rest[i], feature) && (forall k | 0 <= k < i :: !IsLocalOf(rest[k], feature))
                 && FirstLocalDevice(rest, feature).value == rest[i].id.device;
        assert points[i + 1] == rest[i];
        assert forall k | 0 <= k < i + 1 :: k == 0 || points[k] == rest[k - 1];
      } else {
        assert forall k | 0 <= k < |points| :: k == 0 || points[k] == rest[k - 1];
      }
    }
  }

  lemma SlotDeviceIs(points: Points, feature: string)
    requires points != []
    ensures IsDeviceOf(points, feature, SlotDevice(points, feature))
  {
    FirstLocalIs(points, feature);
    hide FirstLocalDevice, IsLocalOf;
  }

  // The points

  /** A name the firmware takes for a variable. */
  predicate MayBeVariable(name: string) {
    name != "" && name !in BUILTIN_POINTS
  }

  /** The point of a variable: private ones are inputs, and a type that is not supported leaves a blank point. */
  predicate IsPointFor(points: Points, slot: u16, record: SymbolRecord, p: Point)
    requires points != []
  {
    && p.id.point == record.name && p.id.feature == "plc.slot" + Decimal(slot) && p.local
    && IsDeviceOf(points, p.id.feature, p.id.device)
    && if record.expectedType <= 6 then
         && p.display == record.name && p.valueType == record.expectedType && p.details == SLOT_DETAILS
         && p.direction == if record.flags % 2 == 1 then Direction.Input else Direction.InOut
       else p.display == "" && p.valueType == 0 && p.details == DEFAULT_DETAILS && p.direction == Direction.Input
  }

  lemma ExpectedPointIs(points: Points, slot: u16, record: SymbolRecord)
    ensures ExpectedPoint(points, slot, record).Some? <==> points != [] && MayBeVariable(record.name)
    ensures ExpectedPoint(points, slot, record).Some? ==>
              IsPointFor(points, slot, record, ExpectedPoint(points, slot, record).value)
  {
    hide BUILTIN_POINTS, IsDeviceOf, SlotDevice, Decimal;
    if points != [] {
      SlotDeviceIs(points, SlotFeature(slot));
    }
  }

  /** Which records get an identity to be resolved by, when linking in memory and from flash: without a slot, variables
      have none in memory, and with a built-in name none from flash. */
  lemma IdentifiedExactly(context: Context, record: SymbolRecord)
    ensures ResolveRecord(context, record).Some? <==>
            record.kind == 2 ==>
            record.expectedType <= 6 && context.points != [] && record.name != "" && context.slot != 0xFFFF
    ensures FlashRecord(context, record).Some? <==>
            record.kind == 2 ==> record.expectedType <= 6 && context.points != [] && MayBeVariable(record.name)
  {
    hide BUILTIN_POINTS, SlotDevice, SlotFeature;
  }

  predicate IsVariable(record: SymbolRecord) {
    record.kind == 2
  }

  /** The variables among the records, in their order. */
  function VariablesIn(records: seq<SymbolRecord>): (variables: seq<SymbolRecord>) {
    if records == [] then []
    else
      var last := |records| - 1;
      VariablesIn(records[..last]) + (if IsVariable(records[last]) then [records[last]] else [])
  }

  /** There is a point to take the device from, and the names may be those of variables. */
  predicate AllMayBe(points: Points, variables: seq<SymbolRecord>) {
    forall k | 0 <= k < |variables| :: points != [] && MayBeVariable(variables[k].name)
  }

  predicate AllPointsFor(points: Points, slot: u16, variables: seq<SymbolRecord>, expected: Points) {
    && |expected| == |variables|
    && forall k | 0 <= k < |variables| :: points != [] && IsPointFor(points, slot, variables[k], expected[k])
  }

  lemma OneMore(points: Points, init: seq<SymbolRecord>, record: SymbolRecord)
    ensures AllMayBe(points, init + [record]) <==>
            AllMayBe(points, init) && points != [] && MayBeVariable(record.name)
  {
    hide MayBeVariable;
    var variables := init + [record];
    assert forall k | 0 <= k < |init| :: variables[k] == init[k];
    assert variables[|init|] == record;
    if AllMayBe(points, variables) {
      assert forall k | 0 <= k < |init| :: MayBeVariable(variables[k].name);
    }
  }

  /** One point for each variable, in their order, unless a name cannot be one's. */
  lemma {:induction false} ExpectedIs(points: Points, slot: u16, records: seq<SymbolRecord>)
    ensures
      var variables, expected := VariablesIn(records), Expected(points, slot, records);
      && (expected.Some? <==> AllMayBe(points, variables))
      && (expected.Some? ==> AllPointsFor(points, slot, variables, expected.value))
  {
    hide ExpectedPoint, IsPointFor, MayBeVariable, AllMayBe;
    if records == [] {
      NoneMayBe(points);
    } else {
      var last := |records| - 1;
      ExpectedIs(points, slot, records[..last]);
      ExpectedPointIs(points, slot, records[last]);
      var init := VariablesIn(records[..last]);
      assert init + [] == init;
      OneMore(points, init, records[last]);
    }
  }

  lemma NoneMayBe(points: Points)
    ensures AllMayBe(points, [])
  {
  }

  // When a preparation succeeds

  lemma CountedIsVariable(p: Point, slot: u16)
    requires IsCounted(p, slot)
    ensures IsSlotVariable(p, slot)
  {
    SlotOfFeature(slot);
    hide SlotOf, BUILTIN_POINTS, SlotFeature;
  }

  lemma {:induction false} NoneCounted(points: Points, slot: u16)
    requires Variables(points, slot) == []
    ensures Counted(points, slot) == 0
  {
    hide IsCounted, IsSlotVariable;
    if points != [] {
      var last := |points| - 1;
      NoneCounted(points[..last], slot);
      if IsCounted(points[last], slot) {
        CountedIsVariable(points[last], slot);
      }
    }
  }

  /** Without a region to publish into, every point lags. */
  lemma AllLag(points: Points, publisher: Publisher, slot: u16, expected: Points)
    requires !publisher.ready && expected != []
    ensures NeedsPublish(points, publisher, slot, expected)
  {
    hide FindIndex, Counted;
    assert Lags(points, publisher, expected[0]);
  }

  lemma NothingNeeded(points: Points, publisher: Publisher, slot: u16)
    requires Variables(points, slot) == []
    ensures !NeedsPublish(points, publisher, slot, [])
  {
    NoneCounted(points, slot);
    hide Counted, Lags;
  }

  /** A preparation succeeds exactly if the records are read, each variable among them may be one, there is room for
      them in the catalog, and there is a region to publish them into or nothing to publish: no variables, neither
      before nor now. */
  lemma PreparesExactly(board: Board, slot: u16, records: Option<seq<SymbolRecord>>, hash: u32)
    requires board.Valid()
    ensures
      Prepare(board, slot, records, hash).ok <==>
      && records.Some?
      && var added, before := VariablesIn(records.value), Variables(board.points, slot);
         && AllMayBe(board.points, added)
         && |board.points| - |before| + |added| <= 1024
         && (board.publication.publisher.ready || (added == [] && before == []))
  {
    KeptOrVariable(board.points, slot);
    if records.Some? {
      ExpectedIs(board.points, slot, records.value);
      var expected := Expected(board.points, slot, records.value);
      if expected.Some? && expected.value != [] && !board.publication.publisher.ready {
        AllLag(board.points, board.publication.publisher, slot, expected.value);
      }
      if Variables(board.points, slot) == [] {
        NothingNeeded(board.points, board.publication.publisher, slot);
      }
    }
    PrepareOk(board, slot, records, hash);
    hide Prepare, Expected, NeedsPublish, Variables, Kept, VariablesIn, AllMayBe, IsPointFor, Board.Valid;
  }

  lemma PrepareOk(board: Board, slot: u16, records: Option<seq<SymbolRecord>>, hash: u32)
    requires board.Valid()
    ensures
      Prepare(board, slot, records, hash).ok <==>
      && records.Some? && Expected(board.points, slot, records.value).Some?
      && var expected := Expected(board.points, slot, records.value).value;
         && |Kept(board.points, slot, board.points)| + |expected| <= MAX_POINTS
         && (board.publication.publisher.ready ||
             (Variables(board.points, slot) == expected &&
              !NeedsPublish(board.points, board.publication.publisher, slot, expected)))
  {
    hide Expected, NeedsPublish, Variables, Kept, Replaced, MovedStates, Flat, Descriptors, RuntimeHeaderBytes;
  }

  // Where they go

  predicate NamesSlot(feature: string, slot: nat) {
    && 8 < |feature| && feature[..8] == "plc.slot" && (forall i | 8 <= i < |feature| :: '0' <= feature[i] <= '9')
    && DigitsValue(feature[8..], 10) == Some(slot) && slot <= 0xFFFF
  }

  lemma NamedSlot(feature: string, slot: u16)
    ensures SlotOf(feature) == Some(slot) <==> NamesSlot(feature, slot)
  {
    hide DigitsValue;
    if 8 < |feature| {
      var digits := feature[8..];
      assert forall i | 0 <= i < |digits| :: digits[i] == feature[i + 8];
      assert forall i | 8 <= i < |feature| :: feature[i] == digits[i - 8];
    }
  }

  /** A point of a slot behind this one; commands stand where they are. */
  predicate StandsBehind(p: Point, slot: u16) {
    && p.local && (exists other: u16 | slot < other :: NamesSlot(p.id.feature, other))
    && p.id.point != "start" && p.id.point != "stop" && p.id.point != "reset" && p.id.point != "clearFault"
  }

  lemma StandsBehindIs(p: Point, slot: u16)
    ensures IsBehind(p, slot) <==> StandsBehind(p, slot)
  {
    if SlotOf(p.id.feature).Some? {
      NamedSlot(p.id.feature, SlotOf(p.id.feature).value);
    }
    forall other: u16
      ensures NamesSlot(p.id.feature, other) <==> SlotOf(p.id.feature) == Some(other)
    {
      NamedSlot(p.id.feature, other);
    }
    hide SlotOf, NamesSlot;
  }

  /** A slot's variables go before the first point of a slot behind it, and all other points stay in their order. */
  lemma InsertedBefore(points: Points, slot: u16, added: Points)
    ensures
      var kept := Kept(points, slot, points);
      var at := InsertAt(kept, slot);
      && Replaced(points, slot, added) == kept[..at] + added + kept[at..]
      && (forall i | 0 <= i < at :: !StandsBehind(kept[i], slot))
      && (at < |kept| ==> StandsBehind(kept[at], slot))
  {
    var kept := Kept(points, slot, points);
    forall i | 0 <= i < |kept|
      ensures IsBehind(kept[i], slot) <==> StandsBehind(kept[i], slot)
    {
      StandsBehindIs(kept[i], slot);
    }
    hide Kept, IsBehind, StandsBehind;
  }
}
