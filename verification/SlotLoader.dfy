/** The loader's operations in place, on SDRAM. */
module SlotLoader {
  import opened Bytes
  import opened Memory
  import opened ObjectFile
  import opened ObjectParser
  import opened Linker
  import opened FlashPages
  import opened FlashLinker
  import opened SlotMemory
  import opened SlotIsolation
  import opened Validator
  import Fnv

  lemma {:induction false} ApplyMore(memory: seq<byte>, done: seq<Write>, w: Write)
    requires InMemory(memory, done) && w.at + |w.bytes| <= |memory|
    ensures InMemory(memory, done + [w])
    ensures Apply(memory, done + [w]) == Patch(Apply(memory, done), w.at, w.bytes)
    decreases done
  {
    hide Patch;
    if done == [] {
      assert done + [w] == [w] && [w][1..] == [];
    } else {
      assert (done + [w])[1..] == done[1..] + [w];
      ApplyMore(Patch(memory, done[0].at, done[0].bytes), done[1..], w);
    }
  }

  /** One memcpy or memset, after others. */
  method Copy(sdram: array<byte>, w: Write, ghost was: seq<byte>, ghost done: seq<Write>)
    requires |was| == sdram.Length && InMemory(was, done) && sdram[..] == Apply(was, done)
    requires w.at + |w.bytes| <= sdram.Length
    modifies sdram
    ensures InMemory(was, done + [w]) && sdram[..] == Apply(was, done + [w])
  {
    hide Apply, Patch;
    Store(sdram, w.at, w.bytes);
    ApplyMore(was, done, w);
  }

  /** The next of a list of writes. */
  method CopyNext(sdram: array<byte>, w: Write, ghost was: seq<byte>, ghost done: seq<Write>, ghost all: seq<Write>,
                  ghost k: nat)
    requires |was| == sdram.Length && k < |all| && w == all[k] && w.at + |w.bytes| <= sdram.Length
    requires InMemory(was, done + all[..k]) && sdram[..] == Apply(was, done + all[..k])
    modifies sdram
    ensures InMemory(was, done + all[..k + 1]) && sdram[..] == Apply(was, done + all[..k + 1])
  {
    hide *;
    Copy(sdram, w, was, done + all[..k]);
    assert done + all[..k + 1] == done + all[..k] + [w];
  }

  lemma MetadataIs(slot: u16, p: Loaded)
    requires slot < SLOT_COUNT
    ensures
      var all := Metadata(slot, p);
      && |all| == 8
      && all[0] == Write(SlotBase(slot), LinkedHeaderBytes(slot, p))
      && all[1] == Write(CONTROL_REGION, DirectoryBytes(p.epoch))
      && all[2] == Write(ManifestAt(slot), ManifestBytes(slot, p))
      && all[3] == Write(BlockAt(slot), BlockBytes(slot, p))
      && all[4] == Write(StackAt(slot), Zeros(STACK_SIZE))
      && all[5] == Write(TimerAt(slot), Zeros(TIMER_SIZE))
      && all[6] == Write(ParamsAt(slot), Zeros(PARAMS_SIZE))
      && all[7] == Write(ScratchAt(slot), Zeros(SCRATCH_SIZE))
      && forall k | 0 <= k < 8 :: all[k].at + |all[k].bytes| <= SDRAM_SIZE
  {
    MetadataIsOwn(slot, p);
    var all := Metadata(slot, p);
    hide LinkedHeaderBytes, DirectoryBytes, ManifestBytes, BlockBytes, Own;
    forall k | 0 <= k < 8
      ensures all[k].at + |all[k].bytes| <= SDRAM_SIZE
    {
      OwnFits(slot, all[k]);
    }
  }

  /** writeLoadedSlotMetadata */
  method WriteLoadedSlotMetadata(sdram: array<byte>, slot: u16, p: Loaded, ghost was: seq<byte>, ghost done: seq<Write>)
    requires sdram.Length == SDRAM_SIZE == |was| && slot < SLOT_COUNT
    requires InMemory(was, done) && sdram[..] == Apply(was, done)
    modifies sdram
    ensures InMemory(was, done + Metadata(slot, p)) && sdram[..] == Apply(was, done + Metadata(slot, p))
  {
    hide *;
    MetadataIs(slot, p);
    ghost var all := Metadata(slot, p);
    assert done + all[..0] == done;
    CopyNext(sdram, Write(SlotBase(slot), LinkedHeaderBytes(slot, p)), was, done, all, 0);
    CopyNext(sdram, Write(CONTROL_REGION, DirectoryBytes(p.epoch)), was, done, all, 1);
    CopyNext(sdram, Write(ManifestAt(slot), ManifestBytes(slot, p)), was, done, all, 2);
    CopyNext(sdram, Write(BlockAt(slot), BlockBytes(slot, p)), was, done, all, 3);
    CopyNext(sdram, Write(StackAt(slot), Zeros(STACK_SIZE)), was, done, all, 4);
    CopyNext(sdram, Write(TimerAt(slot), Zeros(TIMER_SIZE)), was, done, all, 5);
    CopyNext(sdram, Write(ParamsAt(slot), Zeros(PARAMS_SIZE)), was, done, all, 6);
    CopyNext(sdram, Write(ScratchAt(slot), Zeros(SCRATCH_SIZE)), was, done, all, 7);
    assert all[..8] == all;
  }

  /** The writes of the preparation, after others. */
  method WritePreparation(sdram: array<byte>, prepared: Prepared, ghost was: seq<byte>, ghost done: seq<Write>)
    requires sdram.Length == SDRAM_SIZE == |was| && AllRuntime(prepared.writes)
    requires InMemory(was, done) && sdram[..] == Apply(was, done)
    modifies sdram
    ensures InMemory(was, done + prepared.writes) && sdram[..] == Apply(was, done + prepared.writes)
  {
    hide Apply, InMemory, Prepare;
    var writes := prepared.writes;
    assert done + writes[..0] == done && writes[..|writes|] == writes;
    for k := 0 to |writes|
      invariant InMemory(was, done + writes[..k]) && sdram[..] == Apply(was, done + writes[..k])
    {
      RuntimeFits(writes, k);
      CopyNext(sdram, writes[k], was, done, writes, k);
    }
  }

  lemma RuntimeFits(writes: seq<Write>, k: nat)
    requires AllRuntime(writes) && k < |writes|
    ensures writes[k].at + |writes[k].bytes| <= SDRAM_SIZE
  {
  }

  /** Linking in memory and what follows, once prepared. */
  method LinkParsed(sdram: array<byte>, prepared: Prepared, slot: u16, image: Image, maxInstructions: u32, maxTime: u32,
                    ghost was: seq<byte>) returns (status: LoadStatus)
    requires sdram.Length == SDRAM_SIZE == |was| && slot < SLOT_COUNT && |image.code| <= CodeCapacity(slot)
    requires Accepts(image.code) && prepared.ok
    requires |image.relocations| <= 0xFFFF && |image.symbols| <= 0xFFFF && |image.code| < 0x1_0000_0000
    requires InMemory(was, prepared.writes) && sdram[..] == Apply(was, prepared.writes)
    modifies sdram
    ensures
      var load := LoadParsed(prepared, slot, image, maxInstructions, maxTime);
      && status == load.status
      && InMemory(was, load.Writes()) && sdram[..] == Apply(was, load.Writes())
  {
    hide Validator.Accepts, Link, Metadata, Patch, Fnv.Checksum, Apply, InMemory;
    Layout(slot);
    hide CodeAt, StackAt, ScratchAt, AlignUp;
    var at, capacity := CodeAt(slot), CodeCapacity(slot);
    var context := ContextFor(prepared.points, prepared.publication, slot);
    ghost var begun := sdram[..];
    var report := LinkObjectImage(context, image, sdram, at, capacity);
    ghost var linked := Link(context, image, capacity);
    ghost var load := LoadParsed(prepared, slot, image, maxInstructions, maxTime);
    ghost var code := if linked.1.Some? then [Write(at, linked.1.value)] else [];
    if linked.1.Some? {
      ApplyMore(was, prepared.writes, Write(at, linked.1.value));
    }
    assert [] + prepared.writes + code == prepared.writes + code;
    assert prepared.writes + [] == prepared.writes;
    if report.status != LinkOk {
      assert prepared.writes + code + [] == prepared.writes + code;
      return LinkFailed;
    }
    PatchReads(begun, at, linked.1.value);
    assert sdram[at..at + |image.code|] == linked.1.value;
    var checksum := Fnv.Checksum32(sdram[at..at + |image.code|]);
    var p := Loaded(|image.code|, image.entryOffset, |image.symbols|, |image.relocations|, maxInstructions, maxTime,
                    RUNTIME_HEADER, prepared.publication.epoch, checksum);
    WriteLoadedSlotMetadata(sdram, slot, p, was, prepared.writes + code);
    status := LoadOk;
  }

  /** loadParsedObjectIntoSlot */
  method LoadParsedObjectIntoSlot(sdram: array<byte>, prepared: Prepared, slot: u16, image: Image,
                                  maxInstructions: u32, maxTime: u32) returns (status: LoadStatus)
    requires sdram.Length == SDRAM_SIZE && AllRuntime(prepared.writes)
    requires |image.relocations| <= 0xFFFF && |image.symbols| <= 0xFFFF && |image.code| < 0x1_0000_0000
    modifies sdram
    ensures
      var load := LoadParsed(prepared, slot, image, maxInstructions, maxTime);
      && status == load.status
      && InMemory(old(sdram[..]), load.Writes())
      && sdram[..] == Apply(old(sdram[..]), load.Writes())
  {
    hide Validator.Accepts, Link, Metadata, Patch, Fnv.Checksum;
    if SLOT_COUNT <= slot {
      return SlotOutOfRange;
    }
    Layout(slot);
    hide CodeAt, StackAt, ScratchAt, AlignUp;
    if CodeCapacity(slot) < |image.code| {
      return BytecodeTooLarge;
    }
    var accepted := ValidateSupportedBytecode(image.code);
    if !accepted {
      return UnsupportedOpcode;
    }
    ghost var was := sdram[..];
    NothingWritten(was, []);
    WritePreparation(sdram, prepared, was, []);
    assert [] + prepared.writes == prepared.writes && [] + prepared.writes + [] + [] == prepared.writes;
    if !prepared.ok {
      return LinkFailed;
    }
    hide LoadParsed, Apply, InMemory;
    status := LinkParsed(sdram, prepared, slot, image, maxInstructions, maxTime, was);
  }

  lemma ParamsAre(slot: u16, params: Option<seq<byte>>, size: u32)
    requires params.Some? ==> |params.value| == size
    requires slot < SLOT_COUNT && size <= PARAMS_SIZE
    ensures
      var all := SetParams(slot, params, size).1;
      var epoch := ParamsEpoch(params.GetOr([]));
      && SetParams(slot, params, size).0 == (size == 0 || params.Some?)
      && |all| > 0 && all[0] == Write(ParamsAt(slot), Zeros(PARAMS_SIZE))
      && (forall k | 0 <= k < |all| :: all[k].at + |all[k].bytes| <= SDRAM_SIZE)
      && if size != 0 && params.None? then |all| == 1
         else
           && |all| == (if epoch.Some? then 8 else 7)
           && all[1] == Write(ParamsAt(slot), params.GetOr([]))
           && all[2] == Write(SlotBase(slot) + 32, Le32(size))
           && all[3] == Write(ManifestAt(slot) + 44, Le32(Absolute(ParamsAt(slot))))
           && all[4] == Write(ManifestAt(slot) + 48, Le32(size))
           && (epoch.Some? ==> all[5] == Write(ManifestAt(slot) + 68, Le32(epoch.value)))
           && all[|all| - 2] == Write(BlockAt(slot) + 64, Le32(Absolute(ParamsAt(slot))))
           && all[|all| - 1] == Write(BlockAt(slot) + 68, Le32(size))
  {
    SetParamsIsOwn(slot, params, size);
    var all := SetParams(slot, params, size).1;
    hide Zeros, Le32, ParamsEpoch, Own, ParamsAt, BlockAt;
    forall k | 0 <= k < |all|
      ensures all[k].at + |all[k].bytes| <= SDRAM_SIZE
    {
      OwnFits(slot, all[k]);
    }
  }

  lemma NothingWritten(memory: seq<byte>, all: seq<Write>)
    ensures [] + all[..0] == [] && InMemory(memory, []) && Apply(memory, []) == memory
  {
  }

  lemma TooManyParams(slot: u16, params: Option<seq<byte>>, size: u32)
    requires params.Some? ==> |params.value| == size
    requires SLOT_COUNT <= slot || PARAMS_SIZE < size
    ensures SetParams(slot, params, size) == (false, [])
  {
  }

  /** writeSlotParams */
  method WriteSlotParams(sdram: array<byte>, slot: u16, params: Option<seq<byte>>, size: u32) returns (ok: bool)
    requires sdram.Length == SDRAM_SIZE && (params.Some? ==> |params.value| == size)
    modifies sdram
    ensures ok == SetParams(slot, params, size).0
    ensures InMemory(old(sdram[..]), SetParams(slot, params, size).1)
    ensures sdram[..] == Apply(old(sdram[..]), SetParams(slot, params, size).1)
  {
    hide *;
    ghost var was := sdram[..];
    ghost var all := SetParams(slot, params, size).1;
    NothingWritten(was, all);
    if SLOT_COUNT <= slot || PARAMS_SIZE < size {
      TooManyParams(slot, params, size);
      return false;
    }
    ParamsAre(slot, params, size);
    CopyNext(sdram, Write(ParamsAt(slot), Zeros(PARAMS_SIZE)), was, [], all, 0);
    WholeList(all);
    if size != 0 && params.None? {
      return false;
    }
    StoreParams(sdram, slot, params.GetOr([]), size, was, all);
    ok := true;
  }

  lemma WholeList(all: seq<Write>)
    ensures [] + all[..|all|] == all
  {
  }

  /** The part of writeSlotParams behind its checks. */
  method StoreParams(sdram: array<byte>, slot: u16, bytes: seq<byte>, size: u32, ghost was: seq<byte>,
                     ghost all: seq<Write>)
    requires sdram.Length == SDRAM_SIZE == |was| && slot < SLOT_COUNT
    requires |all| == (if ParamsEpoch(bytes).Some? then 8 else 7)
    requires all[1] == Write(ParamsAt(slot), bytes)
    requires all[2] == Write(SlotBase(slot) + 32, Le32(size))
    requires all[3] == Write(ManifestAt(slot) + 44, Le32(Absolute(ParamsAt(slot))))
    requires all[4] == Write(ManifestAt(slot) + 48, Le32(size))
    requires ParamsEpoch(bytes).Some? ==> all[5] == Write(ManifestAt(slot) + 68, Le32(ParamsEpoch(bytes).value))
    requires all[|all| - 2] == Write(BlockAt(slot) + 64, Le32(Absolute(ParamsAt(slot))))
    requires all[|all| - 1] == Write(BlockAt(slot) + 68, Le32(size))
    requires forall k | 0 <= k < |all| :: all[k].at + |all[k].bytes| <= SDRAM_SIZE
    requires InMemory(was, [] + all[..1]) && sdram[..] == Apply(was, [] + all[..1])
    modifies sdram
    ensures InMemory(was, [] + all[..|all|]) && sdram[..] == Apply(was, [] + all[..|all|])
  {
    hide *;
    CopyNext(sdram, Write(ParamsAt(slot), bytes), was, [], all, 1);
    CopyNext(sdram, Write(SlotBase(slot) + 32, Le32(size)), was, [], all, 2);
    CopyNext(sdram, Write(ManifestAt(slot) + 44, Le32(Absolute(ParamsAt(slot)))), was, [], all, 3);
    CopyNext(sdram, Write(ManifestAt(slot) + 48, Le32(size)), was, [], all, 4);
    var epoch := ParamsEpoch(bytes);
    if epoch.Some? {
      CopyNext(sdram, Write(ManifestAt(slot) + 68, Le32(epoch.value)), was, [], all, 5);
    }
    CopyNext(sdram, Write(BlockAt(slot) + 64, Le32(Absolute(ParamsAt(slot)))), was, [], all, |all| - 2);
    CopyNext(sdram, Write(BlockAt(slot) + 68, Le32(size)), was, [], all, |all| - 1);
  }

  lemma SnapshotIs(slot: u16, file: seq<byte>)
    requires slot < SLOT_COUNT && SnapshotFits(|file|)
    ensures
      var all := StageSnapshot(slot, file).1;
      && StageSnapshot(slot, file).0
      && |all| == 2
      && all[0] == Write(SnapshotAt(slot) + SNAPSHOT_HEADER_SIZE, file)
      && all[1] == Write(SnapshotAt(slot), SnapshotHeaderBytes(slot, |file|, Fnv.Checksum(file)))
      && forall k | 0 <= k < 2 :: all[k].at + |all[k].bytes| <= SDRAM_SIZE
  {
    Layout(slot);
    hide Fnv.Checksum;
  }

  lemma NoSnapshot(slot: u16, file: seq<byte>)
    requires SLOT_COUNT <= slot || !SnapshotFits(|file|)
    ensures StageSnapshot(slot, file) == (false, [])
  {
  }

  /** writeObjectFileSnapshot, after other writes */
  method WriteObjectFileSnapshot(sdram: array<byte>, slot: u16, file: seq<byte>, ghost was: seq<byte>,
                                 ghost done: seq<Write>) returns (ok: bool)
    requires sdram.Length == SDRAM_SIZE == |was| && InMemory(was, done) && sdram[..] == Apply(was, done)
    modifies sdram
    ensures ok == StageSnapshot(slot, file).0
    ensures InMemory(was, done + StageSnapshot(slot, file).1)
    ensures sdram[..] == Apply(was, done + StageSnapshot(slot, file).1)
  {
    hide *;
    if SLOT_COUNT <= slot || !SnapshotFits(|file|) {
      NoSnapshot(slot, file);
      assert done + [] == done;
      return false;
    }
    SnapshotIs(slot, file);
    FileSize(file);
    ghost var all := StageSnapshot(slot, file).1;
    assert done + all[..0] == done && all[..2] == all;
    CopyNext(sdram, Write(SnapshotAt(slot) + SNAPSHOT_HEADER_SIZE, file), was, done, all, 0);
    var checksum := Fnv.Checksum32(file);
    CopyNext(sdram, Write(SnapshotAt(slot), SnapshotHeaderBytes(slot, |file|, checksum)), was, done, all, 1);
    ok := true;
  }

  lemma FileSize(file: seq<byte>)
    requires SnapshotFits(|file|)
    ensures |file| < 0x1_0000_0000
  {
  }

  /** loadObjectFileIntoSlot */
  method LoadObjectFileIntoSlot(sdram: array<byte>, prepared: Prepared, slot: u16, file: seq<byte>)
    returns (status: LoadStatus)
    requires sdram.Length == SDRAM_SIZE && AllRuntime(prepared.writes)
    modifies sdram
    ensures
      var load := LoadObject(prepared, slot, file);
      && status == load.status
      && InMemory(old(sdram[..]), load.Writes())
      && sdram[..] == Apply(old(sdram[..]), load.Writes())
  {
    hide ParseObject, LoadParsed, StageSnapshot;
    ghost var was := sdram[..];
    var parsed := ParseObject(file);
    if parsed.Err? {
      return ParseFailed;
    }
    SmallImage(file);
    hide Apply, InMemory;
    var h := parsed.value.header;
    ghost var load := LoadParsed(prepared, slot, parsed.value.image, h.maxInstructionsPerScan, h.maxScanTimeUs);
    status := LoadParsedObjectIntoSlot(sdram, prepared, slot, parsed.value.image, h.maxInstructionsPerScan, h.maxScanTimeUs);
    if status == LoadOk {
      var ok := WriteObjectFileSnapshot(sdram, slot, file, was, load.Writes());
      assert load.Writes() + StageSnapshot(slot, file).1 ==
             load.read + load.Preparation() + load.code + (load.rest + StageSnapshot(slot, file).1);
      if !ok {
        status := BytecodeTooLarge;
      }
    }
  }

  /** Reading and checking the header, the first part of loadObjectFileFromFlash. */
  method ReadFlashHeader(flash: Flash, offset: u32, capacity: u32) returns (r: Result<Header, LoadStatus>)
    ensures r == FlashHeader(flash, offset, capacity)
  {
    hide SpanReadable, SpanBytes, HeaderAccepted, ReadHeader;
    if capacity < HEADER_SIZE {
      return Err(ParseFailed);
    }
    var bytes := ReadRecord(flash, offset, HEADER_SIZE);
    if bytes.None? {
      return Err(FlashReadFailed);
    }
    var h := ReadHeader(bytes.value);
    if !HeaderAccepted(h, capacity) {
      return Err(ParseFailed);
    }
    AcceptedSize(h, capacity);
    var checksum := Checksum32FromFlash(flash, Address(offset, HEADER_SIZE), h.totalSize - HEADER_SIZE);
    if checksum != h.checksum {
      return Err(ChecksumMismatch);
    }
    r := Ok(h);
  }

  lemma AcceptedSize(h: Header, capacity: nat)
    requires HeaderAccepted(h, capacity)
    ensures HEADER_SIZE <= h.totalSize
  {
  }

  lemma FlashSnapshotIs(slot: u16, flash: Flash, offset: u32, size: u32, checksum: u32)
    requires slot < SLOT_COUNT
    ensures
      var staged := StageFromFlash(slot, flash, offset, size, checksum);
      var all := staged.1;
      && staged.0 == (SnapshotFits(size) && SpanReadable(flash, offset, size))
      && |all| == (if !SnapshotFits(size) then 0 else if SpanReadable(flash, offset, size) then 2 else 1)
      && (SnapshotFits(size) ==>
            && SnapshotAt(slot) + SNAPSHOT_HEADER_SIZE + size <= SDRAM_SIZE
            && all[0] == Write(SnapshotAt(slot) + SNAPSHOT_HEADER_SIZE,
                               SpanBytes(flash, offset, size)[..Copied(flash, offset, 0, size)]))
      && (staged.0 ==> all[1] == Write(SnapshotAt(slot), SnapshotHeaderBytes(slot, size, checksum)))
      && forall k | 0 <= k < |all| :: all[k].at + |all[k].bytes| <= SDRAM_SIZE
  {
    Layout(slot);
    hide SpanReadable, SpanBytes, Copied;
  }

  /** A flash read into SDRAM, after other writes. */
  method CopyFromFlash(sdram: array<byte>, flash: Flash, offset: u32, at: nat, size: u32, ghost was: seq<byte>,
                       ghost done: seq<Write>) returns (ok: bool)
    requires |was| == sdram.Length && InMemory(was, done) && sdram[..] == Apply(was, done)
    requires at + size <= sdram.Length
    modifies sdram
    ensures ok == SpanReadable(flash, offset, size)
    ensures
      var w := Write(at, SpanBytes(flash, offset, size)[..Copied(flash, offset, 0, size)]);
      InMemory(was, done + [w]) && sdram[..] == Apply(was, done + [w])
  {
    hide *;
    ok := FlashReadBytes(flash, offset, sdram, at, size);
    ApplyMore(was, done, Write(at, SpanBytes(flash, offset, size)[..Copied(flash, offset, 0, size)]));
  }

  /** writeObjectFileSnapshotFromFlash, after other writes */
  method WriteSnapshotFromFlash(sdram: array<byte>, slot: u16, flash: Flash, offset: u32, size: u32, checksum: u32,
                                ghost was: seq<byte>, ghost done: seq<Write>) returns (ok: bool)
    requires sdram.Length == SDRAM_SIZE == |was| && slot < SLOT_COUNT
    requires InMemory(was, done) && sdram[..] == Apply(was, done)
    modifies sdram
    ensures ok == StageFromFlash(slot, flash, offset, size, checksum).0
    ensures InMemory(was, done + StageFromFlash(slot, flash, offset, size, checksum).1)
    ensures sdram[..] == Apply(was, done + StageFromFlash(slot, flash, offset, size, checksum).1)
  {
    hide *;
    FlashSnapshotIs(slot, flash, offset, size, checksum);
    ghost var all := StageFromFlash(slot, flash, offset, size, checksum).1;
    assert done + all[..0] == done && all[..|all|] == all;
    if !SnapshotFits(size) {
      return false;
    }
    ok := CopyFromFlash(sdram, flash, offset, SnapshotAt(slot) + SNAPSHOT_HEADER_SIZE, size, was, done);
    assert all[..1] == [all[0]];
    if ok {
      CopyNext(sdram, Write(SnapshotAt(slot), SnapshotHeaderBytes(slot, size, checksum)), was, done, all, 1);
    }
  }

  lemma PatchSame(memory: seq<byte>, at: nat, bytes: seq<byte>)
    requires at + |bytes| <= |memory| && memory[at..at + |bytes|] == bytes
    ensures Patch(memory, at, bytes) == memory
  {
  }

  /** The preparation leaves the code alone that has been read. */
  lemma PreparedKeepsCode(was: seq<byte>, slot: u16, code: seq<byte>, writes: seq<Write>)
    requires |was| == SDRAM_SIZE && slot < SLOT_COUNT && |code| <= CodeCapacity(slot) && AllRuntime(writes)
    requires InMemory(was, [Write(CodeAt(slot), code)] + writes)
    ensures CodeAt(slot) + |code| <= SDRAM_SIZE
    ensures Apply(was, [Write(CodeAt(slot), code)] + writes)[CodeAt(slot)..CodeAt(slot) + |code|] == code
  {
    RuntimeIsClear(slot, writes);
    CapacityIs(slot);
    hide *;
    CodeReads(was, slot, [], code, writes);
    assert [] + [Write(CodeAt(slot), code)] + writes == [Write(CodeAt(slot), code)] + writes;
  }

  lemma RuntimeIsClear(slot: u16, writes: seq<Write>)
    requires slot < SLOT_COUNT && AllRuntime(writes)
    ensures AllClear(slot, writes)
  {
    Layout(slot);
    hide CodeAt, StackAt, ScratchAt, AlignUp;
    assert SlotBase(slot) >= DESCRIPTORS_END && SlotBase(slot) + BYTECODE_STRIDE <= STATES_AT;
    hide SlotBase;
  }

  /** Linking from flash over the code that has been read. */
  method LinkFromFlash(sdram: array<byte>, context: Context, slot: u16, flash: Flash, offset: u32, h: Header,
                       ghost was: seq<byte>, ghost code: seq<byte>, ghost prepared: seq<Write>) returns (report: Report)
    requires sdram.Length == SDRAM_SIZE == |was| && slot < SLOT_COUNT && |code| == h.codeSize <= CodeCapacity(slot)
    requires AllRuntime(prepared)
    requires
      var done := [Write(CodeAt(slot), code)] + prepared;
      InMemory(was, done) && sdram[..] == Apply(was, done)
    modifies sdram
    ensures CodeAt(slot) + |code| <= SDRAM_SIZE
    ensures
      var linked := FlashLink(context, flash, offset, h, code, CodeCapacity(slot));
      var done := [Write(CodeAt(slot), code)] + prepared + [Write(CodeAt(slot), linked.1)];
      && report == linked.0 && InMemory(was, done) && sdram[..] == Apply(was, done)
      && sdram[CodeAt(slot)..CodeAt(slot) + |code|] == linked.1
  {
    PreparedKeepsCode(was, slot, code, prepared);
    CapacityIs(slot);
    var at, capacity := CodeAt(slot), CodeCapacity(slot);
    ghost var linked := FlashLink(context, flash, offset, h, code, capacity);
    hide FlashLink, Patch, Apply, InMemory, CodeAt, StackAt, AllRuntime;
    ghost var begun, done := sdram[..], [Write(at, code)] + prepared;
    PatchSame(begun, at, code);
    report := LinkObjectFileFromFlash(context, flash, offset, h, sdram, at, capacity, begun, code);
    ApplyMore(was, done, Write(at, linked.1));
    PatchReads(begun, at, linked.1);
  }

  /** Linking from flash and what follows, once prepared. */
  method LinkAndRecord(sdram: array<byte>, prepared: Prepared, slot: u16, flash: Flash, offset: u32, h: Header,
                       ghost was: seq<byte>, ghost code: seq<byte>) returns (status: LoadStatus)
    requires sdram.Length == SDRAM_SIZE == |was| && slot < SLOT_COUNT && |code| == h.codeSize <= CodeCapacity(slot)
    requires AllRuntime(prepared.writes)
    requires
      var done := [Write(CodeAt(slot), code)] + prepared.writes;
      InMemory(was, done) && sdram[..] == Apply(was, done)
    modifies sdram
    ensures
      var load := LoadLinked(prepared, slot, flash, offset, h, code);
      && status == load.status
      && InMemory(was, load.Writes()) && sdram[..] == Apply(was, load.Writes())
  {
    hide FlashLink, Apply, InMemory, Metadata, StageFromFlash, Fnv.Checksum, CodeAt, CodeCapacity, AllRuntime;
    var at := CodeAt(slot);
    var context := ContextFor(prepared.points, prepared.publication, slot);
    ghost var linked := FlashLink(context, flash, offset, h, code, CodeCapacity(slot));
    ghost var load := LoadLinked(prepared, slot, flash, offset, h, code);
    var report := LinkFromFlash(sdram, context, slot, flash, offset, h, was, code, prepared.writes);
    ghost var written := [Write(at, code)] + prepared.writes + [Write(at, linked.1)];
    if report.status != LinkOk {
      assert written + [] == written;
      return LinkFailed;
    }
    var checksum := Fnv.Checksum32(sdram[at..at + h.codeSize]);
    var p := Loaded(h.codeSize, h.entryOffset, h.symbolCount, h.relocationCount, h.maxInstructionsPerScan,
                    h.maxScanTimeUs, h.runtimeHeaderAddress, prepared.publication.epoch, checksum);
    WriteLoadedSlotMetadata(sdram, slot, p, was, written);
    var ok := WriteSnapshotFromFlash(sdram, slot, flash, offset, h.totalSize, h.checksum, was, written + Metadata(slot, p));
    assert written + Metadata(slot, p) + StageFromFlash(slot, flash, offset, h.totalSize, h.checksum).1 == load.Writes();
    status := if ok then LoadOk else BytecodeTooLarge;
  }

  lemma CodeComplete(flash: Flash, offset: u32, h: Header)
    ensures |FlashCode(flash, offset, h)| == h.codeSize <==> SpanReadable(flash, Address(offset, HEADER_SIZE), h.codeSize)
  {
    var at := Address(offset, HEADER_SIZE);
    NothingReadable(flash, at);
    CopiedAll(flash, at, 0, h.codeSize);
  }

  /** loadObjectFileFromFlash: the code is read to its place, checked there and linked in place. */
  method LoadObjectFileFromFlash(sdram: array<byte>, prepared: Prepared, slot: u16, flash: Flash, offset: u32,
                                 capacity: u32) returns (status: LoadStatus)
    requires sdram.Length == SDRAM_SIZE && AllRuntime(prepared.writes)
    modifies sdram
    ensures
      var load := LoadFlash(prepared, slot, flash, offset, capacity);
      && status == load.status
      && InMemory(old(sdram[..]), load.Writes())
      && sdram[..] == Apply(old(sdram[..]), load.Writes())
  {
    if SLOT_COUNT <= slot {
      return SlotOutOfRange;
    }
    Layout(slot);
    var header := ReadFlashHeader(flash, offset, capacity);
    hide FlashHeader, FlashCode, SpanReadable, SpanBytes, Copied, Address, Patch, Validator.Accepts, CodeAt, StackAt,
         LoadLinked;
    if header.Err? {
      return header.error;
    }
    var h := header.value;
    if CodeCapacity(slot) < h.codeSize {
      return BytecodeTooLarge;
    }
    ghost var was, code := sdram[..], FlashCode(flash, offset, h);
    var at := CodeAt(slot);
    CodeWrite(flash, offset, h, was, at);
    var ok := CopyFromFlash(sdram, flash, Address(offset, HEADER_SIZE), at, h.codeSize, was, []);
    CodeComplete(flash, offset, h);
    assert [] + [Write(at, code)] == [Write(at, code)] == [Write(at, code)] + [] + [] + [];
    if !ok {
      return FlashReadFailed;
    }
    ApplyOne(was, Write(at, code));
    PatchReads(was, at, code);
    assert sdram[at..at + h.codeSize] == code;
    var accepted := ValidateSupportedBytecode(sdram[at..at + h.codeSize]);
    if !accepted {
      return UnsupportedOpcode;
    }
    hide Apply, InMemory;
    WritePreparation(sdram, prepared, was, [Write(at, code)]);
    if !prepared.ok {
      assert [Write(at, code)] + prepared.writes + [] + [] == [Write(at, code)] + prepared.writes;
      return LinkFailed;
    }
    status := LinkAndRecord(sdram, prepared, slot, flash, offset, h, was, code);
  }

  lemma CodeWrite(flash: Flash, offset: u32, h: Header, was: seq<byte>, at: nat)
    ensures
      var from := Address(offset, HEADER_SIZE);
      FlashCode(flash, offset, h) == SpanBytes(flash, from, h.codeSize)[..Copied(flash, from, 0, h.codeSize)]
    ensures InMemory(was, []) && Apply(was, []) == was
  {
  }
}
