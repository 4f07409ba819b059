/** What setting a slot's parameters leaves in SDRAM, read back. */
module SlotParameters {
  import opened Bytes
  import opened Memory
  import opened SlotMemory
  import opened SlotIsolation
  import opened SlotLoader
  import opened SlotRecords

  /** The bytes that parameters are written to, besides their own area. */
  predicate ParamsField(slot: nat, params: seq<byte>, at: nat) {
    || HeaderOf(slot) + 32 <= at < HeaderOf(slot) + 36
    || ManifestOf(slot) + 44 <= at < ManifestOf(slot) + 52
    || (ParamsEpoch(params).Some? && ManifestOf(slot) + 68 <= at < ManifestOf(slot) + 72)
    || BlockOf(slot) + 64 <= at < BlockOf(slot) + 72
  }

  lemma LastStands(memory: seq<byte>, writes: seq<Write>, k: nat)
    requires InMemory(memory, writes) && k < |writes| && AllApart(writes[k], writes[k + 1..])
    ensures Stands(Apply(memory, writes), writes[k])
  {
    hide Apply, InMemory, Apart;
    assert writes == writes[..k] + [writes[k]] + writes[k + 1..];
    WriteStands(memory, writes[..k], writes[k], writes[k + 1..]);
  }

  lemma ParamsApart(slot: u16, params: Option<seq<byte>>, size: u32, k: nat, j: nat)
    requires (params.Some? ==> |params.value| == size) && slot < SLOT_COUNT && size <= PARAMS_SIZE
    requires 1 <= k < j < |SetParams(slot, params, size).1|
    ensures Apart(SetParams(slot, params, size).1[k], SetParams(slot, params, size).1[j])
  {
    ParamsAre(slot, params, size);
    ParamsPlaces(slot);
    hide SetParams, ParamsEpoch, Le32, Zeros, ParamsAt, BlockAt, ManifestAt, SlotBase;
  }

  lemma ParamsPlaces(slot: nat)
    requires slot < SLOT_COUNT
    ensures SlotBase(slot) + 36 <= ParamsAt(slot) && ParamsAt(slot) + PARAMS_SIZE <= ManifestAt(slot)
    ensures ManifestAt(slot) + MANIFEST_SIZE <= BlockAt(slot)
  {
    Layout(slot);
  }

  lemma FieldReads(m: seq<byte>, at: nat, v: u32)
    requires Stands(m, Write(at, Le32(v)))
    ensures at + 4 <= |m| && Fetch32(m, at) == v
  {
    FetchLe32(v, m, at);
    hide Le32, Fetch32;
  }

  lemma ParamsStand(memory: seq<byte>, slot: u16, params: Option<seq<byte>>, size: u32, k: nat)
    requires (params.Some? ==> |params.value| == size) && slot < SLOT_COUNT && size <= PARAMS_SIZE
    requires InMemory(memory, SetParams(slot, params, size).1) && 1 <= k < |SetParams(slot, params, size).1|
    ensures Stands(Apply(memory, SetParams(slot, params, size).1), SetParams(slot, params, size).1[k])
  {
    hide SetParams, Apply, InMemory, Apart;
    var all := SetParams(slot, params, size).1;
    var rest := all[k + 1..];
    forall i | 0 <= i < |rest|
      ensures Apart(all[k], rest[i])
    {
      ParamsApart(slot, params, size, k, k + 1 + i);
    }
    LastStands(memory, all, k);
  }

  lemma ParamsFit(memory: seq<byte>, slot: u16, params: Option<seq<byte>>, size: u32)
    requires |memory| == SDRAM_SIZE && (params.Some? ==> |params.value| == size)
    ensures InMemory(memory, SetParams(slot, params, size).1)
  {
    SetParamsIsOwn(slot, params, size);
    var all := SetParams(slot, params, size).1;
    hide SetParams, Own;
    forall k | 0 <= k < |all|
      ensures all[k].at + |all[k].bytes| <= SDRAM_SIZE
    {
      OwnFits(slot, all[k]);
    }
  }

  /** A field that is written is read back. */
  lemma ParamsFieldReads(memory: seq<byte>, slot: u16, params: Option<seq<byte>>, size: u32, k: nat, at: nat, v: u32)
    requires (params.Some? ==> |params.value| == size) && slot < SLOT_COUNT && size <= PARAMS_SIZE
    requires InMemory(memory, SetParams(slot, params, size).1) && 1 <= k < |SetParams(slot, params, size).1|
    requires SetParams(slot, params, size).1[k] == Write(at, Le32(v))
    ensures
      var m := Apply(memory, SetParams(slot, params, size).1);
      at + 4 <= |m| && Fetch32(m, at) == v
  {
    hide *;
    ParamsStand(memory, slot, params, size, k);
    FieldReads(Apply(memory, SetParams(slot, params, size).1), at, v);
  }

  /** The writes behind the clearing of the area. */
  lemma ParamsWrites(slot: u16, params: Option<seq<byte>>, size: u32)
    requires (params.Some? ==> |params.value| == size) && slot < SLOT_COUNT && size <= PARAMS_SIZE
    requires size == 0 || params.Some?
    ensures
      var all, epoch := SetParams(slot, params, size).1, ParamsEpoch(params.GetOr([]));
      && 7 <= |all|
      && all[1] == Write(ParamsAt(slot), params.GetOr([]))
      && all[2] == Write(SlotBase(slot) + 32, Le32(size))
      && all[3] == Write(ManifestAt(slot) + 44, Le32(Absolute(ParamsAt(slot))))
      && all[4] == Write(ManifestAt(slot) + 48, Le32(size))
      && (epoch.Some? ==> all[5] == Write(ManifestAt(slot) + 68, Le32(epoch.value)))
      && all[|all| - 2] == Write(BlockAt(slot) + 64, Le32(Absolute(ParamsAt(slot))))
      && all[|all| - 1] == Write(BlockAt(slot) + 68, Le32(size))
  {
    ParamsAre(slot, params, size);
    hide SetParams, ParamsEpoch, Le32, Zeros, ParamsAt, BlockAt, ManifestAt, SlotBase, Absolute;
  }

  lemma ParamsInside(slot: nat)
    requires slot < SLOT_COUNT
    ensures ParamsAt(slot) <= SDRAM_SIZE
  {
    Layout(slot);
  }

  lemma HeaderField(memory: seq<byte>, slot: u16, params: Option<seq<byte>>, size: u32)
    requires |memory| == SDRAM_SIZE && (params.Some? ==> |params.value| == size)
    requires slot < SLOT_COUNT && size <= PARAMS_SIZE && (size == 0 || params.Some?)
    requires InMemory(memory, SetParams(slot, params, size).1)
    ensures Fetch32(Apply(memory, SetParams(slot, params, size).1), HeaderOf(slot) + 32) == size
    ensures HeldAt(Apply(memory, SetParams(slot, params, size).1), 0x2000_0000 + ParamsAt(slot), params.GetOr([]))
  {
    hide *;
    ParamsWrites(slot, params, size);
    Addresses(slot);
    ParamsInside(slot);
    ParamsFieldReads(memory, slot, params, size, 2, SlotBase(slot) + 32, size);
    ParamsStand(memory, slot, params, size, 1);
    StandsIsHeld(Apply(memory, SetParams(slot, params, size).1), ParamsAt(slot), params.GetOr([]));
  }

  lemma StandsIsHeld(m: seq<byte>, at: nat, bytes: seq<byte>)
    requires |m| == SDRAM_SIZE && at <= SDRAM_SIZE && Stands(m, Write(at, bytes))
    ensures HeldAt(m, 0x2000_0000 + at, bytes)
  {
  }

  lemma ManifestFieldsRead(memory: seq<byte>, slot: u16, params: Option<seq<byte>>, size: u32)
    requires |memory| == SDRAM_SIZE && (params.Some? ==> |params.value| == size)
    requires slot < SLOT_COUNT && size <= PARAMS_SIZE && (size == 0 || params.Some?)
    requires InMemory(memory, SetParams(slot, params, size).1)
    ensures
      var m, bytes := Apply(memory, SetParams(slot, params, size).1), params.GetOr([]);
      && Fetch32(m, ManifestOf(slot) + 48) == size && Fetch32(m, ManifestOf(slot) + 44) == 0x2000_0000 + ParamsAt(slot)
      && (ParamsEpoch(bytes).Some? ==> Fetch32(m, ManifestOf(slot) + 68) == ParamsEpoch(bytes).value)
  {
    hide *;
    ParamsWrites(slot, params, size);
    Addresses(slot);
    ParamsFieldReads(memory, slot, params, size, 3, ManifestAt(slot) + 44, Absolute(ParamsAt(slot)));
    ParamsFieldReads(memory, slot, params, size, 4, ManifestAt(slot) + 48, size);
    var epoch := ParamsEpoch(params.GetOr([]));
    if epoch.Some? {
      ParamsFieldReads(memory, slot, params, size, 5, ManifestAt(slot) + 68, epoch.value);
    }
  }

  lemma BlockFieldsRead(memory: seq<byte>, slot: u16, params: Option<seq<byte>>, size: u32)
    requires |memory| == SDRAM_SIZE && (params.Some? ==> |params.value| == size)
    requires slot < SLOT_COUNT && size <= PARAMS_SIZE && (size == 0 || params.Some?)
    requires InMemory(memory, SetParams(slot, params, size).1)
    ensures
      var m := Apply(memory, SetParams(slot, params, size).1);
      Fetch32(m, BlockOf(slot) + 68) == size && Fetch32(m, BlockOf(slot) + 64) == 0x2000_0000 + ParamsAt(slot)
  {
    hide *;
    ParamsWrites(slot, params, size);
    Addresses(slot);
    var n := |SetParams(slot, params, size).1|;
    ParamsFieldReads(memory, slot, params, size, n - 2, BlockAt(slot) + 64, Absolute(ParamsAt(slot)));
    ParamsFieldReads(memory, slot, params, size, n - 1, BlockAt(slot) + 68, size);
  }

  /** When parameters are refused. */
  lemma ParamsAccepted(slot: u16, params: Option<seq<byte>>, size: u32)
    requires params.Some? ==> |params.value| == size
    ensures SetParams(slot, params, size).0 <==> slot < 16 && size <= 256 && (size == 0 || params.Some?)
  {
    hide ParamsEpoch, Le32, Zeros, ParamsAt, BlockAt, ManifestAt, SlotBase, Absolute;
  }

  /** What setting parameters leaves: the bytes at the address, and the size, in all three records, and the epoch that
      they carry in the manifest. */
  lemma ParamsRecorded(memory: seq<byte>, slot: u16, params: Option<seq<byte>>, size: u32)
    requires |memory| == SDRAM_SIZE && (params.Some? ==> |params.value| == size)
    requires slot < 16 && size <= 256 && (size == 0 || params.Some?)
    ensures SetParams(slot, params, size).0 && InMemory(memory, SetParams(slot, params, size).1)
    ensures
      var m, bytes := Apply(memory, SetParams(slot, params, size).1), params.GetOr([]);
      && Fetch32(m, HeaderOf(slot) + 32) == size && Fetch32(m, ManifestOf(slot) + 48) == size
      && Fetch32(m, BlockOf(slot) + 68) == size
      && HeldAt(m, Fetch32(m, BlockOf(slot) + 64), bytes)
      && Fetch32(m, ManifestOf(slot) + 44) == Fetch32(m, BlockOf(slot) + 64) == 0x2000_0000 + ParamsAt(slot)
      && (ParamsEpoch(bytes).Some? ==> Fetch32(m, ManifestOf(slot) + 68) == ParamsEpoch(bytes).value)
  {
    ParamsFit(memory, slot, params, size);
    ParamsAccepted(slot, params, size);
    hide SetParams, Apply, InMemory, HeldAt, ParamsEpoch, ParamsAt, HeaderOf, ManifestOf, BlockOf, Fetch32;
    HeaderField(memory, slot, params, size);
    ManifestFieldsRead(memory, slot, params, size);
    BlockFieldsRead(memory, slot, params, size);
  }

  /** Nothing else changes, but for the rest of the parameter area, which is cleared. */
  lemma ParamsKeepRest(memory: seq<byte>, slot: u16, params: Option<seq<byte>>, size: u32, at: nat)
    requires |memory| == SDRAM_SIZE && (params.Some? ==> |params.value| == size) && at < SDRAM_SIZE
    requires slot < 16 ==> !ParamsField(slot, params.GetOr([]), at) && !(ParamsAt(slot) <= at < ParamsAt(slot) + 256)
    ensures InMemory(memory, SetParams(slot, params, size).1)
    ensures Apply(memory, SetParams(slot, params, size).1)[at] == memory[at]
  {
    ParamsFit(memory, slot, params, size);
    var all := SetParams(slot, params, size).1;
    if SLOT_COUNT <= slot || PARAMS_SIZE < size {
      TooManyParams(slot, params, size);
    } else {
      Addresses(slot);
      ParamsUncovered(slot, params, size, at);
      hide SetParams, InMemory;
      ApplyKeeps(memory, all, at);
    }
  }

  lemma ParamsUncovered(slot: u16, params: Option<seq<byte>>, size: u32, at: nat)
    requires (params.Some? ==> |params.value| == size) && slot < SLOT_COUNT && size <= PARAMS_SIZE
    requires !ParamsField(slot, params.GetOr([]), at) && !(ParamsAt(slot) <= at < ParamsAt(slot) + 256)
    ensures
      var all := SetParams(slot, params, size).1;
      forall k | 0 <= k < |all| :: !Covers(all[k], at)
  {
    Addresses(slot);
    hide ParamsEpoch, Le32, Zeros, ParamsAt, BlockAt, ManifestAt, SlotBase, HeaderOf, ManifestOf, BlockOf, Absolute;
  }
}
