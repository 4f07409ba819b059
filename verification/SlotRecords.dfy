/** What the records of a loaded slot say, read back from SDRAM: where the code is, and what is around it. */
module SlotRecords {
  import opened Bytes
  import opened Memory
  import opened ObjectFile
  import opened ObjectParser
  import opened Linker
  import opened FlashPages
  import opened FlashLinker
  import opened FlashLoads
  import opened Validator
  import opened SlotMemory
  import opened SlotIsolation
  import opened SlotLoader
  import Fnv

  // What there is to read

  const CONTROL_AT: nat := 0x17_0000
  const SLOTS_AT: nat := 0x13_0000
  const SNAPSHOTS_AT: nat := 0x18_0000

  function HeaderOf(slot: nat): nat { SLOTS_AT + 0x4000 * slot }

  function ManifestOf(slot: nat): nat { CONTROL_AT + 16 + 72 * slot }

  function BlockOf(slot: nat): nat { CONTROL_AT + 1168 + 72 * slot }

  function SnapshotOf(slot: nat): nat { SNAPSHOTS_AT + 0x2_0100 * slot }

  /** The area starts at the absolute address and is all zero. */
  predicate ZeroedAt(m: seq<byte>, address: u32, size: nat) {
    && 0x2000_0000 <= address && address - 0x2000_0000 + size <= |m|
    && m[address - 0x2000_0000..address - 0x2000_0000 + size] == Zeros(size)
  }

  predicate HeldAt(m: seq<byte>, address: u32, bytes: seq<byte>) {
    && 0x2000_0000 <= address && address - 0x2000_0000 + |bytes| <= |m|
    && m[address - 0x2000_0000..address - 0x2000_0000 + |bytes|] == bytes
  }

  /** The control block: the machine starts at the entry offset of the linked code, on a zeroed stack, with zeroed
      timers and parameters, each behind the other. */
  predicate BlockReady(m: seq<byte>, slot: nat, code: seq<byte>, entry: u32, instructions: u32, time: u32)
    requires slot < 16 && |m| == SDRAM_SIZE
  {
    var b := BlockOf(slot);
    && Fetch32(m, b) == 0x3142_4350 && Fetch16(m, b + 4) == 1 && Fetch16(m, b + 6) == slot
    && Fetch32(m, b + 8) == 0 && Fetch32(m, b + 12) == 1
    && Fetch32(m, b + 16) == entry
    && Fetch32(m, b + 20) == 0 && Fetch32(m, b + 24) == 0 && Fetch32(m, b + 28) == 0
    && HeldAt(m, Fetch32(m, b + 32), code) && Fetch32(m, b + 36) == |code|
    && ZeroedAt(m, Fetch32(m, b + 40), 8 * Fetch32(m, b + 44)) && Fetch32(m, b + 44) == 128
    && ZeroedAt(m, Fetch32(m, b + 48), 16 * Fetch32(m, b + 52)) && Fetch32(m, b + 52) == 32
    && Fetch32(m, b + 56) == instructions && Fetch32(m, b + 60) == time
    && ZeroedAt(m, Fetch32(m, b + 64), 256) && Fetch32(m, b + 68) == 0
    && Fetch32(m, b + 32) + |code| <= Fetch32(m, b + 40)
    && Fetch32(m, b + 40) + 1024 <= Fetch32(m, b + 48) && Fetch32(m, b + 48) + 512 <= Fetch32(m, b + 64)
  }

  /** The manifest: the same areas, the control block and the header, and the checksum of the code. */
  predicate ManifestReady(m: seq<byte>, slot: nat, code: seq<byte>, runtimeHeader: u32, epoch: u32)
    requires slot < 16 && |m| == SDRAM_SIZE
  {
    var q, b := ManifestOf(slot), BlockOf(slot);
    && Fetch16(m, q) == slot && Fetch16(m, q + 2) == 1 && Fetch32(m, q + 4) == 1 && Fetch32(m, q + 8) == 0
    && Fetch32(m, q + 12) == 0x2000_0000 + b && Fetch32(m, q + 16) == 0x2000_0000 + HeaderOf(slot)
    && Fetch32(m, q + 20) == Fetch32(m, b + 32) && Fetch32(m, q + 24) == |code|
    && Fetch32(m, q + 28) == Fetch32(m, b + 40) && Fetch32(m, q + 32) == 128
    && Fetch32(m, q + 36) == Fetch32(m, b + 48) && Fetch32(m, q + 40) == 32
    && Fetch32(m, q + 44) == Fetch32(m, b + 64) && Fetch32(m, q + 48) == 0
    && ZeroedAt(m, Fetch32(m, q + 52), Fetch32(m, q + 56)) && Fetch32(m, q + 56) == 512
    && Fetch32(m, b + 64) + 256 <= Fetch32(m, q + 52)
    && Fetch32(m, q + 60) == runtimeHeader && Fetch32(m, q + 64) == Fnv.Checksum(code) && Fetch32(m, q + 68) == epoch
  }

  predicate HeaderReady(m: seq<byte>, slot: nat, code: seq<byte>, entry: u32, symbols: u16, relocations: u16,
                        runtimeHeader: u32)
    requires slot < 16 && |m| == SDRAM_SIZE
  {
    var h := HeaderOf(slot);
    && Fetch32(m, h) == 0x3147_4D49 && Fetch16(m, h + 4) == 1 && Fetch16(m, h + 6) == slot && Fetch32(m, h + 8) == 0
    && Fetch32(m, h + 12) == |code| && Fetch32(m, h + 16) == entry
    && Fetch16(m, h + 20) == symbols && Fetch16(m, h + 22) == relocations
    && Fetch32(m, h + 24) == runtimeHeader && Fetch32(m, h + 28) == Fnv.Checksum(code) && Fetch32(m, h + 32) == 0
  }

  predicate DirectoryReady(m: seq<byte>, epoch: u32)
    requires |m| == SDRAM_SIZE
  {
    var d := CONTROL_AT;
    && Fetch32(m, d) == 0x3152_4453 && Fetch16(m, d + 4) == 1 && Fetch16(m, d + 6) == 16 && Fetch16(m, d + 8) == 72
    && Fetch16(m, d + 10) == 0 && Fetch32(m, d + 12) == epoch
  }

  /** The snapshot: its header, and behind it the file. */
  predicate SnapshotReady(m: seq<byte>, slot: nat, file: seq<byte>, checksum: u32)
    requires slot < 16 && |m| == SDRAM_SIZE
  {
    var s := SnapshotOf(slot);
    && Fetch32(m, s) == 0x3146_534F && Fetch16(m, s + 4) == 1 && Fetch16(m, s + 6) == slot && Fetch32(m, s + 8) == 0
    && Fetch32(m, s + 12) == |file| && Fetch32(m, s + 16) == checksum
    && s + 20 + |file| <= SDRAM_SIZE && m[s + 20..s + 20 + |file|] == file
  }

  // Reading fields

  lemma {:induction false} WordAt(words: seq<u32>, i: nat)
    requires i < |words|
    ensures Words(words)[4 * i..4 * i + 4] == Le32(words[i])
  {
    hide Le32;
    if i > 0 {
      WordAt(words[1..], i - 1);
      var rest := Words(words[1..]);
      assert Words(words) == Le32(words[0]) + rest;
      assert Words(words)[4 * i..4 * i + 4] == rest[4 * (i - 1)..4 * (i - 1) + 4];
    }
  }

  lemma {:induction false} HalfAt(halves: seq<u16>, i: nat)
    requires i < |halves|
    ensures Halves(halves)[2 * i..2 * i + 2] == Le16(halves[i])
  {
    hide Le16;
    if i > 0 {
      HalfAt(halves[1..], i - 1);
      var rest := Halves(halves[1..]);
      assert Halves(halves) == Le16(halves[0]) + rest;
      assert Halves(halves)[2 * i..2 * i + 2] == rest[2 * (i - 1)..2 * (i - 1) + 2];
    }
  }

  lemma HeldSlice(m: seq<byte>, at: nat, record: seq<byte>, from: nat, n: nat)
    requires at + |record| <= |m| && m[at..at + |record|] == record && from + n <= |record|
    ensures m[at + from..at + from + n] == record[from..from + n]
  {
    SliceOfSlice(m, at, at + |record|, from, from + n);
  }

  /** A run of words in memory, word by word. */
  lemma ReadWord(m: seq<byte>, at: nat, words: seq<u32>, i: nat)
    requires at + 4 * |words| <= |m| && i < |words| && m[at..at + 4 * |words|] == Words(words)
    ensures Fetch32(m, at + 4 * i) == words[i]
  {
    hide *;
    WordAt(words, i);
    HeldSlice(m, at, Words(words), 4 * i, 4);
    FetchLe32(words[i], m, at + 4 * i);
  }

  lemma ReadHalf(m: seq<byte>, at: nat, halves: seq<u16>, i: nat)
    requires at + 2 * |halves| <= |m| && i < |halves| && m[at..at + 2 * |halves|] == Halves(halves)
    ensures Fetch16(m, at + 2 * i) == halves[i]
  {
    hide *;
    HalfAt(halves, i);
    HeldSlice(m, at, Halves(halves), 2 * i, 2);
    FetchLe16(halves[i], m, at + 2 * i);
  }

  lemma ReadWords(m: seq<byte>, at: nat, words: seq<u32>)
    requires at + 4 * |words| <= |m| && m[at..at + 4 * |words|] == Words(words)
    ensures forall i {:trigger words[i]} | 0 <= i < |words| :: Fetch32(m, at + 4 * i) == words[i]
  {
    hide Words, Fetch32;
    forall i {:trigger words[i]} | 0 <= i < |words|
      ensures Fetch32(m, at + 4 * i) == words[i]
    {
      ReadWord(m, at, words, i);
    }
  }

  /** A record of two parts. */
  lemma Split(m: seq<byte>, at: nat, n: nat, a: seq<byte>, b: seq<byte>)
    requires |a| == n && at + n + |b| <= |m| && m[at..at + n + |b|] == a + b
    ensures m[at..at + n] == a && m[at + n..at + n + |b|] == b
  {
    var record := m[at..at + n + |b|];
    HeldSlice(m, at, record, 0, n);
    HeldSlice(m, at, record, n, |b|);
    assert record[0..n] == a && record[n..n + |b|] == b;
  }

  /** A record that starts with a word and two halves. */
  lemma RecordParts(m: seq<byte>, at: nat, a: seq<byte>, b: seq<byte>, c: seq<byte>)
    requires |a| == 4 && |b| == 4 && at + 8 + |c| <= |m| && m[at..at + 8 + |c|] == a + b + c
    ensures m[at..at + 4] == a && m[at + 4..at + 8] == b && m[at + 8..at + 8 + |c|] == c
  {
    var record := m[at..at + 8 + |c|];
    HeldSlice(m, at, record, 0, 4);
    HeldSlice(m, at, record, 4, 4);
    HeldSlice(m, at, record, 8, |c|);
    assert record[0..4] == a && record[4..8] == b && record[8..8 + |c|] == c;
  }

  /** The files of which a snapshot is kept. */
  lemma SnapshotKeptExactly(slot: u16, file: seq<byte>)
    ensures StageSnapshot(slot, file).0 <==> slot < 16 && 52 <= |file| <= 0x2_00EC
  {
    hide SnapshotHeaderBytes, Fnv.Checksum;
  }

  // The records

  lemma Addresses(slot: nat)
    requires slot < SLOT_COUNT
    ensures SlotBase(slot) == HeaderOf(slot) && ManifestAt(slot) == ManifestOf(slot) && BlockAt(slot) == BlockOf(slot)
    ensures SnapshotAt(slot) == SnapshotOf(slot)
    ensures Absolute(SlotBase(slot)) == 0x2000_0000 + HeaderOf(slot) && Absolute(BlockAt(slot)) == 0x2000_0000 + BlockOf(slot)
    ensures Absolute(CodeAt(slot)) == 0x2000_0000 + CodeAt(slot) && Absolute(StackAt(slot)) == 0x2000_0000 + StackAt(slot)
    ensures Absolute(TimerAt(slot)) == 0x2000_0000 + TimerAt(slot) && Absolute(ParamsAt(slot)) == 0x2000_0000 + ParamsAt(slot)
    ensures Absolute(ScratchAt(slot)) == 0x2000_0000 + ScratchAt(slot)
  {
    Layout(slot);
  }

  lemma FirstFields(m: seq<byte>, at: nat, first: seq<u32>, halves: seq<u16>)
    requires |first| == 1 && |halves| == 2 && at + 8 <= |m|
    requires m[at..at + 4] == Words(first) && m[at + 4..at + 8] == Halves(halves)
    ensures Fetch32(m, at) == first[0] && Fetch16(m, at + 4) == halves[0] && Fetch16(m, at + 6) == halves[1]
  {
    hide *;
    ReadWord(m, at, first, 0);
    ReadHalf(m, at + 4, halves, 0);
    ReadHalf(m, at + 4, halves, 1);
  }

  function BlockWords(slot: u16, p: Loaded): (words: seq<u32>)
    requires slot < SLOT_COUNT
    ensures |words| == 16
  {
    [0, 1, p.entryOffset, 0, 0, 0, Absolute(CodeAt(slot)), p.codeSize, Absolute(StackAt(slot)), STACK_SIZE / 8,
     Absolute(TimerAt(slot)), TIMER_SIZE / 16, p.maxInstructionsPerScan, p.maxScanTimeUs, Absolute(ParamsAt(slot)), 0]
  }

  lemma BlockParts(slot: u16, p: Loaded)
    requires slot < SLOT_COUNT
    ensures BlockBytes(slot, p) == Words([BLOCK_MAGIC]) + Halves([1, slot]) + Words(BlockWords(slot, p))
  {
    hide Words, Halves, Absolute, CodeAt, StackAt, TimerAt, ParamsAt;
  }

  /** The control block's fields. */
  lemma BlockReads(m: seq<byte>, slot: u16, p: Loaded)
    requires slot < SLOT_COUNT && |m| == SDRAM_SIZE
    requires BlockAt(slot) + BLOCK_SIZE <= SDRAM_SIZE && m[BlockAt(slot)..BlockAt(slot) + BLOCK_SIZE] == BlockBytes(slot, p)
    ensures
      var b := BlockAt(slot);
      && Fetch32(m, b) == 0x3142_4350 && Fetch16(m, b + 4) == 1 && Fetch16(m, b + 6) == slot
      && Fetch32(m, b + 8) == 0 && Fetch32(m, b + 12) == 1 && Fetch32(m, b + 16) == p.entryOffset
      && Fetch32(m, b + 20) == 0 && Fetch32(m, b + 24) == 0 && Fetch32(m, b + 28) == 0
      && Fetch32(m, b + 32) == Absolute(CodeAt(slot)) && Fetch32(m, b + 36) == p.codeSize
      && Fetch32(m, b + 40) == Absolute(StackAt(slot)) && Fetch32(m, b + 44) == 128
      && Fetch32(m, b + 48) == Absolute(TimerAt(slot)) && Fetch32(m, b + 52) == 32
      && Fetch32(m, b + 56) == p.maxInstructionsPerScan && Fetch32(m, b + 60) == p.maxScanTimeUs
      && Fetch32(m, b + 64) == Absolute(ParamsAt(slot)) && Fetch32(m, b + 68) == 0
  {
    hide Words, Halves, Absolute, Fetch32, Fetch16, BlockAt, CodeAt, StackAt, TimerAt, ParamsAt, BlockBytes;
    BlockParts(slot, p);
    var words := BlockWords(slot, p);
    var b, first, halves := BlockAt(slot), [BLOCK_MAGIC], [1, slot];
    RecordParts(m, b, Words(first), Halves(halves), Words(words));
    FirstFields(m, b, first, halves);
    ReadWords(m, b + 8, words);
    assert words[0] == 0 && words[1] == 1 && words[2] == p.entryOffset && words[3] == 0 && words[4] == 0 && words[5] == 0;
    assert words[6] == Absolute(CodeAt(slot)) && words[7] == p.codeSize && words[8] == Absolute(StackAt(slot));
    assert words[9] == 128 && words[10] == Absolute(TimerAt(slot)) && words[11] == 32;
    assert words[12] == p.maxInstructionsPerScan && words[13] == p.maxScanTimeUs;
    assert words[14] == Absolute(ParamsAt(slot)) && words[15] == 0;
  }

  function ManifestWords(slot: u16, p: Loaded): (words: seq<u32>)
    requires slot < SLOT_COUNT
    ensures |words| == 17
  {
    [1, 0, Absolute(BlockAt(slot)), Absolute(SlotBase(slot)), Absolute(CodeAt(slot)), p.codeSize, Absolute(StackAt(slot)),
     STACK_SIZE / 8, Absolute(TimerAt(slot)), TIMER_SIZE / 16, Absolute(ParamsAt(slot)), 0, Absolute(ScratchAt(slot)),
     SCRATCH_SIZE, p.runtimeHeader, p.checksum, p.epoch]
  }

  lemma ManifestParts(slot: u16, p: Loaded)
    requires slot < SLOT_COUNT
    ensures ManifestBytes(slot, p) == Halves([slot, 1]) + Words(ManifestWords(slot, p))
  {
    hide Words, Halves, Absolute, BlockAt, SlotBase, CodeAt, StackAt, TimerAt, ParamsAt, ScratchAt;
  }

  /** The manifest's fields. */
  lemma ManifestReads(m: seq<byte>, slot: u16, p: Loaded)
    requires slot < SLOT_COUNT && |m| == SDRAM_SIZE && ManifestAt(slot) + MANIFEST_SIZE <= SDRAM_SIZE
    requires m[ManifestAt(slot)..ManifestAt(slot) + MANIFEST_SIZE] == ManifestBytes(slot, p)
    ensures
      var q := ManifestAt(slot);
      && Fetch16(m, q) == slot && Fetch16(m, q + 2) == 1 && Fetch32(m, q + 4) == 1 && Fetch32(m, q + 8) == 0
      && Fetch32(m, q + 12) == Absolute(BlockAt(slot)) && Fetch32(m, q + 16) == Absolute(SlotBase(slot))
      && Fetch32(m, q + 20) == Absolute(CodeAt(slot)) && Fetch32(m, q + 24) == p.codeSize
      && Fetch32(m, q + 28) == Absolute(StackAt(slot)) && Fetch32(m, q + 32) == 128
      && Fetch32(m, q + 36) == Absolute(TimerAt(slot)) && Fetch32(m, q + 40) == 32
      && Fetch32(m, q + 44) == Absolute(ParamsAt(slot)) && Fetch32(m, q + 48) == 0
      && Fetch32(m, q + 52) == Absolute(ScratchAt(slot)) && Fetch32(m, q + 56) == 512
      && Fetch32(m, q + 60) == p.runtimeHeader && Fetch32(m, q + 64) == p.checksum && Fetch32(m, q + 68) == p.epoch
  {
    hide Words, Halves, Absolute, Fetch32, Fetch16, ManifestAt, BlockAt, SlotBase, CodeAt, StackAt, TimerAt, ParamsAt,
         ScratchAt, ManifestBytes;
    ManifestParts(slot, p);
    var words, halves := ManifestWords(slot, p), [slot, 1];
    var q := ManifestAt(slot);
    Split(m, q, 4, Halves(halves), Words(words));
    ReadHalf(m, q, halves, 0);
    ReadHalf(m, q, halves, 1);
    ReadWords(m, q + 4, words);
    assert words[0] == 1 && words[1] == 0 && words[2] == Absolute(BlockAt(slot)) && words[3] == Absolute(SlotBase(slot));
    assert words[4] == Absolute(CodeAt(slot)) && words[5] == p.codeSize && words[6] == Absolute(StackAt(slot));
    assert words[7] == 128 && words[8] == Absolute(TimerAt(slot)) && words[9] == 32 && words[10] == Absolute(ParamsAt(slot));
    assert words[11] == 0 && words[12] == Absolute(ScratchAt(slot)) && words[13] == 512;
    assert words[14] == p.runtimeHeader && words[15] == p.checksum && words[16] == p.epoch;
  }

  /** The header's fields. */
  lemma HeaderReads(m: seq<byte>, slot: u16, p: Loaded)
    requires slot < SLOT_COUNT && |m| == SDRAM_SIZE && SlotBase(slot) + LINKED_HEADER_SIZE <= SDRAM_SIZE
    requires m[SlotBase(slot)..SlotBase(slot) + LINKED_HEADER_SIZE] == LinkedHeaderBytes(slot, p)
    ensures
      var h := SlotBase(slot);
      && Fetch32(m, h) == 0x3147_4D49 && Fetch16(m, h + 4) == 1 && Fetch16(m, h + 6) == slot && Fetch32(m, h + 8) == 0
      && Fetch32(m, h + 12) == p.codeSize && Fetch32(m, h + 16) == p.entryOffset
      && Fetch16(m, h + 20) == p.symbolCount && Fetch16(m, h + 22) == p.relocationCount
      && Fetch32(m, h + 24) == p.runtimeHeader && Fetch32(m, h + 28) == p.checksum && Fetch32(m, h + 32) == 0
  {
    hide Words, Halves, Fetch32, Fetch16, SlotBase;
    var first, halves, words, counts, last :=
      [LINKED_MAGIC], [1, slot], [0, p.codeSize, p.entryOffset], [p.symbolCount, p.relocationCount],
      [p.runtimeHeader, p.checksum, 0];
    var h := SlotBase(slot);
    var rest := Words(words) + (Halves(counts) + Words(last));
    assert LinkedHeaderBytes(slot, p) == Words(first) + Halves(halves) + rest;
    hide LinkedHeaderBytes;
    RecordParts(m, h, Words(first), Halves(halves), rest);
    Split(m, h + 8, 12, Words(words), Halves(counts) + Words(last));
    Split(m, h + 20, 4, Halves(counts), Words(last));
    FirstFields(m, h, first, halves);
    ReadHalf(m, h + 20, counts, 0);
    ReadHalf(m, h + 20, counts, 1);
    ThreeWords(m, h + 8, words);
    ThreeWords(m, h + 24, last);
  }

  lemma ThreeWords(m: seq<byte>, at: nat, words: seq<u32>)
    requires |words| == 3 && at + 12 <= |m| && m[at..at + 12] == Words(words)
    ensures Fetch32(m, at) == words[0] && Fetch32(m, at + 4) == words[1] && Fetch32(m, at + 8) == words[2]
  {
    hide *;
    ReadWord(m, at, words, 0);
    ReadWord(m, at, words, 1);
    ReadWord(m, at, words, 2);
  }

  lemma DirectoryReads(m: seq<byte>, epoch: u32)
    requires |m| == SDRAM_SIZE && m[CONTROL_REGION..CONTROL_REGION + DIRECTORY_SIZE] == DirectoryBytes(epoch)
    ensures DirectoryReady(m, epoch)
  {
    hide Words, Halves, Fetch32, Fetch16;
    var first, halves, last := [DIRECTORY_MAGIC], [1, SLOT_COUNT, MANIFEST_SIZE, 0], [epoch];
    var d := CONTROL_REGION;
    assert DirectoryBytes(epoch) == Words(first) + (Halves(halves) + Words(last));
    Split(m, d, 4, Words(first), Halves(halves) + Words(last));
    Split(m, d + 4, 8, Halves(halves), Words(last));
    ReadWord(m, d, first, 0);
    ReadHalf(m, d + 4, halves, 0);
    ReadHalf(m, d + 4, halves, 1);
    ReadHalf(m, d + 4, halves, 2);
    ReadHalf(m, d + 4, halves, 3);
    ReadWord(m, d + 12, last, 0);
  }

  lemma SnapshotReads(m: seq<byte>, slot: u16, size: u32, checksum: u32)
    requires slot < SLOT_COUNT && |m| == SDRAM_SIZE && SnapshotAt(slot) + SNAPSHOT_HEADER_SIZE <= SDRAM_SIZE
    requires m[SnapshotAt(slot)..SnapshotAt(slot) + SNAPSHOT_HEADER_SIZE] == SnapshotHeaderBytes(slot, size, checksum)
    ensures
      var s := SnapshotAt(slot);
      && Fetch32(m, s) == 0x3146_534F && Fetch16(m, s + 4) == 1 && Fetch16(m, s + 6) == slot && Fetch32(m, s + 8) == 0
      && Fetch32(m, s + 12) == size && Fetch32(m, s + 16) == checksum
  {
    hide Words, Halves, Fetch32, Fetch16, SnapshotAt;
    var first, halves, last := [SNAPSHOT_MAGIC], [1, slot], [0, size, checksum];
    var s := SnapshotAt(slot);
    assert SnapshotHeaderBytes(slot, size, checksum) == Words(first) + Halves(halves) + Words(last);
    RecordParts(m, s, Words(first), Halves(halves), Words(last));
    FirstFields(m, s, first, halves);
    ThreeWords(m, s + 8, last);
  }

  // What stays written

  predicate Apart(w: Write, v: Write) {
    w.at + |w.bytes| <= v.at || v.at + |v.bytes| <= w.at
  }

  predicate AllApart(w: Write, writes: seq<Write>) {
    forall i | 0 <= i < |writes| :: Apart(w, writes[i])
  }

  predicate Stands(m: seq<byte>, w: Write) {
    w.at + |w.bytes| <= |m| && m[w.at..w.at + |w.bytes|] == w.bytes
  }

  /** What later writes stay apart from is there in the end. */
  lemma WriteStands(memory: seq<byte>, before: seq<Write>, w: Write, after: seq<Write>)
    requires InMemory(memory, before + [w] + after) && AllApart(w, after)
    ensures Stands(Apply(memory, before + [w] + after), w)
  {
    hide Apply, InMemory, Patch;
    ApplyAll(memory, before + [w], after);
    ApplyAll(memory, before, [w]);
    var begun := Apply(memory, before);
    ApplyOne(begun, w);
    PatchReads(begun, w.at, w.bytes);
    ApplyKeepsSlice(Patch(begun, w.at, w.bytes), after, w.at, w.at + |w.bytes|);
  }

  lemma MetadataApart(slot: u16, p: Loaded, k: nat, j: nat)
    requires slot < SLOT_COUNT && k < j < 8
    ensures Apart(Metadata(slot, p)[k], Metadata(slot, p)[j])
  {
    Layout(slot);
    hide LinkedHeaderBytes, DirectoryBytes, ManifestBytes, BlockBytes, AlignUp, Absolute;
  }

  /** The writes lie in the slot's snapshot. */
  predicate AllInSnapshot(slot: nat, writes: seq<Write>) {
    forall i | 0 <= i < |writes| :: SnapshotAt(slot) <= writes[i].at
  }

  lemma BelowSnapshots(slot: nat)
    requires slot < SLOT_COUNT
    ensures SlotBase(slot) + LINKED_HEADER_SIZE <= OBJECT_REGION && ManifestAt(slot) + MANIFEST_SIZE <= OBJECT_REGION
    ensures BlockAt(slot) + BLOCK_SIZE <= OBJECT_REGION && StackAt(slot) + STACK_SIZE <= OBJECT_REGION
    ensures TimerAt(slot) + TIMER_SIZE <= OBJECT_REGION && ParamsAt(slot) + PARAMS_SIZE <= OBJECT_REGION
    ensures ScratchAt(slot) + SCRATCH_SIZE <= OBJECT_REGION <= SnapshotAt(slot)
  {
    Layout(slot);
  }

  lemma MetadataBelowSnapshots(slot: u16, p: Loaded, k: nat)
    requires slot < SLOT_COUNT && k < |Metadata(slot, p)|
    ensures Metadata(slot, p)[k].at + |Metadata(slot, p)[k].bytes| <= SnapshotAt(slot)
  {
    MetadataIs(slot, p);
    BelowSnapshots(slot);
    hide Metadata, LinkedHeaderBytes, DirectoryBytes, ManifestBytes, BlockBytes, Zeros, SlotBase, ManifestAt, BlockAt,
         StackAt, TimerAt, ParamsAt, ScratchAt, SnapshotAt;
  }

  /** All records of a load stand in the end. */
  lemma MetadataStands(memory: seq<byte>, slot: u16, p: Loaded, first: seq<Write>, staged: seq<Write>, k: nat)
    requires slot < SLOT_COUNT && k < |Metadata(slot, p)| && AllInSnapshot(slot, staged)
    requires InMemory(memory, first + (Metadata(slot, p) + staged))
    ensures Stands(Apply(memory, first + (Metadata(slot, p) + staged)), Metadata(slot, p)[k])
  {
    MetadataCount(slot, p);
    hide Metadata, Apply, InMemory, Stands, SnapshotAt, Apart;
    var all := Metadata(slot, p);
    var after := all[k + 1..] + staged;
    assert first + (all + staged) == first + all[..k] + [all[k]] + after;
    forall i | 0 <= i < |after|
      ensures Apart(all[k], after[i])
    {
      if i < 7 - k {
        MetadataApart(slot, p, k, k + 1 + i);
      } else {
        MetadataBelowSnapshots(slot, p, k);
        assert after[i] == staged[i - (7 - k)];
        BelowIsApart(all[k], after[i], SnapshotAt(slot));
      }
    }
    WriteStands(memory, first + all[..k], all[k], after);
  }

  lemma MetadataCount(slot: u16, p: Loaded)
    requires slot < SLOT_COUNT
    ensures |Metadata(slot, p)| == 8
  {
  }

  lemma BelowIsApart(w: Write, v: Write, at: nat)
    requires w.at + |w.bytes| <= at <= v.at
    ensures Apart(w, v)
  {
  }

  // A loaded slot

  /** Every record of the slot stands, and its code. */
  predicate Recorded(m: seq<byte>, slot: u16, p: Loaded, code: seq<byte>)
    requires slot < SLOT_COUNT
  {
    && |m| == SDRAM_SIZE && p.codeSize == |code| <= CodeCapacity(slot) && p.checksum == Fnv.Checksum(code)
    && CodeAt(slot) + |code| <= StackAt(slot) <= SDRAM_SIZE && m[CodeAt(slot)..CodeAt(slot) + |code|] == code
    && forall k | 0 <= k < |Metadata(slot, p)| :: Stands(m, Metadata(slot, p)[k])
  }

  lemma RecordedParts(m: seq<byte>, slot: u16, p: Loaded, code: seq<byte>)
    requires slot < SLOT_COUNT && Recorded(m, slot, p, code)
    ensures Stands(m, Write(SlotBase(slot), LinkedHeaderBytes(slot, p)))
    ensures Stands(m, Write(CONTROL_REGION, DirectoryBytes(p.epoch)))
    ensures Stands(m, Write(ManifestAt(slot), ManifestBytes(slot, p)))
    ensures Stands(m, Write(BlockAt(slot), BlockBytes(slot, p)))
    ensures Stands(m, Write(StackAt(slot), Zeros(1024))) && Stands(m, Write(TimerAt(slot), Zeros(512)))
    ensures Stands(m, Write(ParamsAt(slot), Zeros(256))) && Stands(m, Write(ScratchAt(slot), Zeros(512)))
  {
    MetadataIs(slot, p);
    hide Metadata, Stands, SlotBase, ManifestAt, BlockAt, StackAt, TimerAt, ParamsAt, ScratchAt, LinkedHeaderBytes,
         DirectoryBytes, ManifestBytes, BlockBytes, Zeros, CodeAt, CodeCapacity;
    var all := Metadata(slot, p);
    assert Stands(m, all[0]) && Stands(m, all[1]) && Stands(m, all[2]) && Stands(m, all[3]);
    assert Stands(m, all[4]) && Stands(m, all[5]) && Stands(m, all[6]) && Stands(m, all[7]);
  }

  lemma ZerosStand(m: seq<byte>, at: nat, size: nat)
    requires |m| == SDRAM_SIZE && at <= SDRAM_SIZE && Stands(m, Write(at, Zeros(size)))
    ensures ZeroedAt(m, 0x2000_0000 + at, size)
  {
    hide Zeros;
  }

  lemma SlotOrder(slot: nat)
    requires slot < SLOT_COUNT
    ensures StackAt(slot) + 1024 <= TimerAt(slot) && TimerAt(slot) + 512 <= ParamsAt(slot)
    ensures ParamsAt(slot) + 256 <= ScratchAt(slot)
  {
    Layout(slot);
  }

  lemma BlockIsReady(m: seq<byte>, slot: u16, p: Loaded, code: seq<byte>)
    requires slot < SLOT_COUNT && Recorded(m, slot, p, code)
    ensures |m| == SDRAM_SIZE
    ensures BlockReady(m, slot, code, p.entryOffset, p.maxInstructionsPerScan, p.maxScanTimeUs)
  {
    RecordedParts(m, slot, p, code);
    hide Metadata, BlockBytes, ManifestBytes, LinkedHeaderBytes, DirectoryBytes, Zeros, ZeroedAt, Absolute, Fetch32, Fetch16,
         BlockOf, SlotBase, CodeAt, StackAt, TimerAt, ParamsAt, ScratchAt, BlockAt, ManifestAt;
    Addresses(slot);
    SlotOrder(slot);
    BlockReads(m, slot, p);
    ZerosStand(m, StackAt(slot), 1024);
    ZerosStand(m, TimerAt(slot), 512);
    ZerosStand(m, ParamsAt(slot), 256);
  }

  lemma BlockAddresses(m: seq<byte>, slot: u16, p: Loaded, code: seq<byte>)
    requires slot < SLOT_COUNT && Recorded(m, slot, p, code)
    ensures |m| == SDRAM_SIZE
    ensures Fetch32(m, BlockAt(slot) + 32) == Absolute(CodeAt(slot))
    ensures Fetch32(m, BlockAt(slot) + 40) == Absolute(StackAt(slot))
    ensures Fetch32(m, BlockAt(slot) + 48) == Absolute(TimerAt(slot))
    ensures Fetch32(m, BlockAt(slot) + 64) == Absolute(ParamsAt(slot))
  {
    RecordedParts(m, slot, p, code);
    hide Metadata, BlockBytes, ManifestBytes, LinkedHeaderBytes, DirectoryBytes, Zeros, Absolute, Fetch32, Fetch16,
         SlotBase, CodeAt, StackAt, TimerAt, ParamsAt, ScratchAt, BlockAt, ManifestAt;
    BlockReads(m, slot, p);
  }

  lemma ManifestFields(m: seq<byte>, slot: u16, p: Loaded, code: seq<byte>)
    requires slot < SLOT_COUNT && Recorded(m, slot, p, code)
    ensures |m| == SDRAM_SIZE && ManifestAt(slot) + 72 <= SDRAM_SIZE
    ensures m[ManifestAt(slot)..ManifestAt(slot) + MANIFEST_SIZE] == ManifestBytes(slot, p)
    ensures ScratchAt(slot) + 512 <= SDRAM_SIZE && ZeroedAt(m, 0x2000_0000 + ScratchAt(slot), 512)
  {
    RecordedParts(m, slot, p, code);
    hide Metadata, BlockBytes, ManifestBytes, LinkedHeaderBytes, DirectoryBytes, Zeros, ZeroedAt, SlotBase, CodeAt, StackAt,
         TimerAt, ParamsAt, ScratchAt, BlockAt, ManifestAt;
    ZerosStand(m, ScratchAt(slot), 512);
  }

  /** The manifest's addresses, in numbers. */
  lemma ManifestAddresses(m: seq<byte>, slot: u16, p: Loaded, code: seq<byte>)
    requires slot < SLOT_COUNT && Recorded(m, slot, p, code)
    ensures |m| == SDRAM_SIZE
    ensures
      var q := ManifestOf(slot);
      && Fetch16(m, q) == slot && Fetch16(m, q + 2) == 1 && Fetch32(m, q + 4) == 1 && Fetch32(m, q + 8) == 0
      && Fetch32(m, q + 12) == 0x2000_0000 + BlockOf(slot) && Fetch32(m, q + 16) == 0x2000_0000 + HeaderOf(slot)
      && Fetch32(m, q + 20) == 0x2000_0000 + CodeAt(slot) && Fetch32(m, q + 24) == p.codeSize
      && Fetch32(m, q + 28) == 0x2000_0000 + StackAt(slot) && Fetch32(m, q + 32) == 128
      && Fetch32(m, q + 36) == 0x2000_0000 + TimerAt(slot) && Fetch32(m, q + 40) == 32
      && Fetch32(m, q + 44) == 0x2000_0000 + ParamsAt(slot) && Fetch32(m, q + 48) == 0
      && Fetch32(m, q + 52) == 0x2000_0000 + ScratchAt(slot) && Fetch32(m, q + 56) == 512
      && Fetch32(m, q + 60) == p.runtimeHeader && Fetch32(m, q + 64) == p.checksum && Fetch32(m, q + 68) == p.epoch
  {
    ManifestFields(m, slot, p, code);
    hide Metadata, Stands, ManifestBytes, ZeroedAt, Absolute, Fetch32, Fetch16, BlockOf, ManifestOf, HeaderOf, SlotBase,
         CodeAt, StackAt, TimerAt, ParamsAt, ScratchAt, BlockAt, ManifestAt, Fnv.Checksum, Recorded;
    Addresses(slot);
    ManifestReads(m, slot, p);
  }

  lemma BlockAddressesAre(m: seq<byte>, slot: u16, p: Loaded, code: seq<byte>)
    requires slot < SLOT_COUNT && Recorded(m, slot, p, code)
    ensures |m| == SDRAM_SIZE
    ensures
      var b := BlockOf(slot);
      && Fetch32(m, b + 32) == 0x2000_0000 + CodeAt(slot) && Fetch32(m, b + 40) == 0x2000_0000 + StackAt(slot)
      && Fetch32(m, b + 48) == 0x2000_0000 + TimerAt(slot) && Fetch32(m, b + 64) == 0x2000_0000 + ParamsAt(slot)
  {
    hide Recorded, Absolute, Fetch32, BlockOf, BlockAt, CodeAt, StackAt, TimerAt, ParamsAt;
    BlockAddresses(m, slot, p, code);
    Addresses(slot);
  }

  lemma ManifestIsReady(m: seq<byte>, slot: u16, p: Loaded, code: seq<byte>)
    requires slot < SLOT_COUNT && Recorded(m, slot, p, code)
    ensures |m| == SDRAM_SIZE && ManifestReady(m, slot, code, p.runtimeHeader, p.epoch)
  {
    BlockAddressesAre(m, slot, p, code);
    ManifestAddresses(m, slot, p, code);
    ManifestFields(m, slot, p, code);
    RecordedSize(m, slot, p, code);
    SlotOrder(slot);
    hide Recorded, ZeroedAt, Fetch32, Fetch16, BlockOf, ManifestOf, HeaderOf, CodeAt, StackAt, TimerAt, ParamsAt, ScratchAt,
         ManifestAt, ManifestBytes, Fnv.Checksum;
  }

  lemma RecordedSize(m: seq<byte>, slot: u16, p: Loaded, code: seq<byte>)
    requires slot < SLOT_COUNT && Recorded(m, slot, p, code)
    ensures p.codeSize == |code| && p.checksum == Fnv.Checksum(code)
  {
    hide Metadata, Fnv.Checksum, Stands;
  }

  lemma OthersAreReady(m: seq<byte>, slot: u16, p: Loaded, code: seq<byte>)
    requires slot < SLOT_COUNT && Recorded(m, slot, p, code)
    ensures |m| == SDRAM_SIZE && DirectoryReady(m, p.epoch)
    ensures HeaderReady(m, slot, code, p.entryOffset, p.symbolCount, p.relocationCount, p.runtimeHeader)
  {
    RecordedParts(m, slot, p, code);
    hide Metadata, BlockBytes, ManifestBytes, LinkedHeaderBytes, DirectoryBytes, Zeros, Absolute, Fetch32, Fetch16,
         HeaderOf, SlotBase, CodeAt, StackAt, TimerAt, ParamsAt, ScratchAt, BlockAt, ManifestAt, DirectoryReady, Fnv.Checksum;
    Addresses(slot);
    HeaderReads(m, slot, p);
    DirectoryReads(m, p.epoch);
  }

  /** What a load leaves, from its writes. */
  lemma LoadRecords(memory: seq<byte>, slot: u16, p: Loaded, code: seq<byte>, first: seq<Write>, staged: seq<Write>)
    requires slot < SLOT_COUNT && |memory| == SDRAM_SIZE && AllInSnapshot(slot, staged) && AllClear(slot, staged)
    requires p.codeSize == |code| <= CodeCapacity(slot) && p.checksum == Fnv.Checksum(code)
    requires InMemory(memory, first + [Write(CodeAt(slot), code)] + (Metadata(slot, p) + staged))
    ensures Recorded(Apply(memory, first + [Write(CodeAt(slot), code)] + (Metadata(slot, p) + staged)), slot, p, code)
  {
    MetadataIsOwn(slot, p);
    CapacityIs(slot);
    hide Metadata, Apply, InMemory, CodeAt, StackAt, CodeCapacity, Fnv.Checksum, Stands, AllClear, AllInSnapshot, AllOwn;
    ClearConcat(slot, Metadata(slot, p), staged);
    var begun := first + [Write(CodeAt(slot), code)];
    CodeReads(memory, slot, first, code, Metadata(slot, p) + staged);
    forall k | 0 <= k < |Metadata(slot, p)|
      ensures Stands(Apply(memory, begun + (Metadata(slot, p) + staged)), Metadata(slot, p)[k])
    {
      MetadataStands(memory, slot, p, begun, staged, k);
    }
  }

  /** What a load records about code linked from a file with the header. */
  function RecordFor(h: Header, code: seq<byte>, runtimeHeader: u32, epoch: u32): Loaded
    requires |code| < 0x1_0000_0000
  {
    Loaded(|code|, h.entryOffset, h.symbolCount, h.relocationCount, h.maxInstructionsPerScan, h.maxScanTimeUs,
           runtimeHeader, epoch, Fnv.Checksum(code))
  }

  lemma CodeIsShort(slot: nat, code: seq<byte>)
    requires slot < SLOT_COUNT && |code| <= CodeCapacity(slot)
    ensures |code| < 0x1_0000_0000
  {
    Layout(slot);
  }

  lemma HeaderCounts(file: seq<byte>)
    requires ParseObject(file).Ok?
    ensures
      var parsed := ParseObject(file).value;
      && |parsed.image.symbols| == parsed.header.symbolCount && |parsed.image.relocations| == parsed.header.relocationCount
      && parsed.image.entryOffset == parsed.header.entryOffset
  {
    hide ReadHeader, ReadSymbols, ReadRelocations, Fnv.Checksum;
  }

  lemma LinkedLength(context: Context, image: Image, capacity: nat, code: seq<byte>)
    requires |image.relocations| <= 0xFFFF && Link(context, image, capacity).1 == Some(code)
    ensures |code| == |image.code|
  {
  }

  /** What a successful load of a file writes behind its code. */
  lemma ObjectRecords(prepared: Prepared, slot: u16, file: seq<byte>, code: seq<byte>)
    requires slot < SLOT_COUNT && ParseObject(file).Ok? && |code| <= CodeCapacity(slot) && |code| < 0x1_0000_0000
    requires LoadObject(prepared, slot, file).status == LoadOk
    requires LinkedFor(ContextFor(prepared.points, prepared.publication, slot), slot, file, code)
    ensures StageSnapshot(slot, file).0
    ensures
      LoadObject(prepared, slot, file).rest ==
      Metadata(slot, RecordFor(ParseObject(file).value.header, code, 0x2010_0000, prepared.publication.epoch)) +
      StageSnapshot(slot, file).1
  {
    HeaderCounts(file);
    hide ParseObject, Accepts, Link, Metadata, StageSnapshot, Fnv.Checksum, CodeAt, CodeCapacity;
    LinkedLength(ContextFor(prepared.points, prepared.publication, slot), ParseObject(file).value.image, CodeCapacity(slot),
                 code);
  }

  lemma SnapshotIsAbove(slot: u16, file: seq<byte>)
    requires slot < SLOT_COUNT && StageSnapshot(slot, file).0
    ensures AllInSnapshot(slot, StageSnapshot(slot, file).1)
  {
    hide SnapshotHeaderBytes, Fnv.Checksum;
  }

  /** A snapshot that is written last stands: first the data, then the header. */
  lemma SnapshotStands(memory: seq<byte>, slot: u16, file: seq<byte>, checksum: u32, before: seq<Write>)
    requires slot < SLOT_COUNT && |memory| == SDRAM_SIZE && SnapshotFits(|file|)
    requires
      var data, header := Write(SnapshotAt(slot) + SNAPSHOT_HEADER_SIZE, file),
                          Write(SnapshotAt(slot), SnapshotHeaderBytes(slot, |file|, checksum));
      InMemory(memory, before + [data, header])
    ensures
      var data, header := Write(SnapshotAt(slot) + SNAPSHOT_HEADER_SIZE, file),
                          Write(SnapshotAt(slot), SnapshotHeaderBytes(slot, |file|, checksum));
      SnapshotReady(Apply(memory, before + [data, header]), slot, file, checksum)
  {
    Addresses(slot);
    hide Apply, InMemory, SnapshotAt, SnapshotHeaderBytes, SnapshotOf, Fetch32, Fetch16;
    var data, header := Write(SnapshotAt(slot) + SNAPSHOT_HEADER_SIZE, file),
                        Write(SnapshotAt(slot), SnapshotHeaderBytes(slot, |file|, checksum));
    assert before + [data, header] == before + [data] + [header] == (before + [data]) + [header] + [];
    WriteStands(memory, before, data, [header]);
    WriteStands(memory, before + [data], header, []);
    SnapshotReads(Apply(memory, before + [data, header]), slot, |file|, checksum);
  }

  lemma StagedIs(slot: u16, file: seq<byte>)
    requires slot < SLOT_COUNT && StageSnapshot(slot, file).0
    ensures SnapshotFits(|file|)
    ensures StageSnapshot(slot, file).1 == [Write(SnapshotAt(slot) + SNAPSHOT_HEADER_SIZE, file),
                                            Write(SnapshotAt(slot), SnapshotHeaderBytes(slot, |file|, Fnv.Checksum(file)))]
  {
    hide SnapshotHeaderBytes, Fnv.Checksum;
  }

  /** A slot that is ready to run. */
  predicate SlotReady(m: seq<byte>, slot: nat, code: seq<byte>, h: Header, runtimeHeader: u32, epoch: u32)
    requires slot < 16 && |m| == SDRAM_SIZE
  {
    && BlockReady(m, slot, code, h.entryOffset, h.maxInstructionsPerScan, h.maxScanTimeUs)
    && ManifestReady(m, slot, code, runtimeHeader, epoch)
    && HeaderReady(m, slot, code, h.entryOffset, h.symbolCount, h.relocationCount, runtimeHeader)
    && DirectoryReady(m, epoch)
  }

  lemma RecordedIsReady(m: seq<byte>, slot: u16, p: Loaded, code: seq<byte>, h: Header)
    requires slot < SLOT_COUNT && Recorded(m, slot, p, code)
    requires p.entryOffset == h.entryOffset && p.symbolCount == h.symbolCount && p.relocationCount == h.relocationCount
    requires p.maxInstructionsPerScan == h.maxInstructionsPerScan && p.maxScanTimeUs == h.maxScanTimeUs
    ensures |m| == SDRAM_SIZE && SlotReady(m, slot, code, h, p.runtimeHeader, p.epoch)
  {
    hide Recorded, BlockReady, ManifestReady, HeaderReady, DirectoryReady;
    BlockIsReady(m, slot, p, code);
    ManifestIsReady(m, slot, p, code);
    OthersAreReady(m, slot, p, code);
  }

  /** After a successful load of a file the slot is ready to run: the records in SDRAM lead to the linked code, over
      its size and with its checksum, to its entry offset and limits, to zeroed areas behind it for stack, timers,
      parameters and scratch, and to the epoch of the catalog; and the snapshot is the file. */
  lemma LoadedSlotIsReady(board: Board, slot: u16, file: seq<byte>, hash: u32) returns (code: seq<byte>)
    requires board.Valid() && Outcomes(board, LoadingObject(slot, file, hash)).ok
    ensures LoadingObject(slot, file, hash).Valid() && slot < 16 && ParseObject(file).Ok?
    ensures
      var after := Perform(board, LoadingObject(slot, file, hash));
      && LinkedFor(Contexts(after, slot), slot, file, code) && |after.memory| == SDRAM_SIZE
      && SlotReady(after.memory, slot, code, ParseObject(file).value.header, 0x2010_0000, after.publication.epoch)
      && SnapshotReady(after.memory, slot, file, Fnv.Checksum(file))
  {
    hide *;
    var op := LoadingObject(slot, file, hash);
    var prepared := PreparedFor(board, op);
    var load := LoadObject(prepared, slot, file);
    ObjectOutcome(board, slot, file, hash);
    OutcomeParts(load);
    code := LoadedIsLinked(prepared, slot, file);
    LinkedSlot(ContextFor(prepared.points, prepared.publication, slot), slot, file, code);
    CodeIsShort(slot, code);
    ObjectRecords(prepared, slot, file, code);
    var p := RecordFor(ParseObject(file).value.header, code, 0x2010_0000, prepared.publication.epoch);
    RecordForIs(ParseObject(file).value.header, code, 0x2010_0000, prepared.publication.epoch);
    var staged := StageSnapshot(slot, file).1;
    PerformIs(board, op, prepared);
    ContextAfter(Apply(board.memory, load.Writes()), prepared, slot);
    WritesAre(load);
    BoardSize(board);
    SlotInRange(slot);
    SnapshotIsOwn(slot, file);
    SnapshotIsAbove(slot, file);
    var first := load.read + load.Preparation();
    LoadRecords(board.memory, slot, p, code, first, staged);
    RecordedIsReady(Perform(board, op).memory, slot, p, code, ParseObject(file).value.header);
    StagedIs(slot, file);
    var before := first + load.code + Metadata(slot, p);
    assert load.Writes() == before + staged;
    SnapshotStands(board.memory, slot, file, Fnv.Checksum(file), before);
  }

  lemma SlotInRange(slot: u16)
    requires slot < SLOT_COUNT
    ensures slot < 16
  {
  }

  lemma RecordForIs(h: Header, code: seq<byte>, runtimeHeader: u32, epoch: u32)
    requires |code| < 0x1_0000_0000
    ensures
      var p := RecordFor(h, code, runtimeHeader, epoch);
      && p.codeSize == |code| && p.checksum == Fnv.Checksum(code) && p.runtimeHeader == runtimeHeader && p.epoch == epoch
      && p.entryOffset == h.entryOffset && p.symbolCount == h.symbolCount && p.relocationCount == h.relocationCount
      && p.maxInstructionsPerScan == h.maxInstructionsPerScan && p.maxScanTimeUs == h.maxScanTimeUs
  {
    hide Fnv.Checksum;
  }

  /** What a successful load from flash writes behind its code. */
  lemma FlashLoadRecords(prepared: Prepared, slot: u16, flash: Flash, offset: u32, capacity: u32, h: Header,
                         code: seq<byte>)
    requires slot < SLOT_COUNT && FlashHeader(flash, offset, capacity) == Ok(h) && |code| < 0x1_0000_0000
    requires LoadFlash(prepared, slot, flash, offset, capacity).status == LoadOk
    requires |FlashCode(flash, offset, h)| == h.codeSize
    requires
      var context := ContextFor(prepared.points, prepared.publication, slot);
      FlashLink(context, flash, offset, h, FlashCode(flash, offset, h), CodeCapacity(slot)).1 == code
    ensures StageFromFlash(slot, flash, offset, h.totalSize, h.checksum).0
    ensures
      LoadFlash(prepared, slot, flash, offset, capacity).rest ==
      Metadata(slot, RecordFor(h, code, h.runtimeHeaderAddress, prepared.publication.epoch)) +
      StageFromFlash(slot, flash, offset, h.totalSize, h.checksum).1
  {
    hide FlashHeader, FlashCode, Accepts, FlashLink, Metadata, StageFromFlash, CodeAt, CodeCapacity, Fnv.Checksum;
  }

  lemma FlashStagedIs(slot: u16, flash: Flash, offset: u32, size: u32, checksum: u32)
    requires slot < SLOT_COUNT && StageFromFlash(slot, flash, offset, size, checksum).0
    ensures SnapshotFits(size) && |SpanBytes(flash, offset, size)| == size
    ensures StageFromFlash(slot, flash, offset, size, checksum).1 ==
            [Write(SnapshotAt(slot) + SNAPSHOT_HEADER_SIZE, SpanBytes(flash, offset, size)),
             Write(SnapshotAt(slot), SnapshotHeaderBytes(slot, size, checksum))]
    ensures AllInSnapshot(slot, StageFromFlash(slot, flash, offset, size, checksum).1)
  {
    NothingReadable(flash, offset);
    CopiedAll(flash, offset, 0, size);
    hide SnapshotHeaderBytes, SpanReadable, Copied;
    var span := SpanBytes(flash, offset, size);
    assert span[..size] == span;
  }

  /** After a successful load from flash it is too, with the limits, the address of the runtime header and the checksum
      of the snapshot from the header in flash. */
  lemma FlashLoadedSlotIsReady(board: Board, slot: u16, flash: Flash, offset: u32, capacity: u32, hash: u32)
    returns (code: seq<byte>)
    requires board.Valid() && Outcomes(board, LoadingFlash(slot, flash, offset, capacity, hash)).ok
    ensures LoadingFlash(slot, flash, offset, capacity, hash).Valid() && slot < 16
    ensures FlashHeader(flash, offset, capacity).Ok?
    ensures
      var h := FlashHeader(flash, offset, capacity).value;
      var after := Perform(board, LoadingFlash(slot, flash, offset, capacity, hash));
      var read := FlashCode(flash, offset, h);
      && |read| == h.codeSize && |after.memory| == SDRAM_SIZE
      && FlashLink(Contexts(after, slot), flash, offset, h, read, CodeCapacity(slot)).0.status == LinkOk
      && FlashLink(Contexts(after, slot), flash, offset, h, read, CodeCapacity(slot)).1 == code
      && SlotReady(after.memory, slot, code, h, h.runtimeHeaderAddress, after.publication.epoch)
      && SnapshotReady(after.memory, slot, SpanBytes(flash, offset, h.totalSize), h.checksum)
  {
    hide *;
    var op := LoadingFlash(slot, flash, offset, capacity, hash);
    var prepared := PreparedFor(board, op);
    var load := LoadFlash(prepared, slot, flash, offset, capacity);
    FlashOutcome(board, slot, flash, offset, capacity, hash);
    OutcomeParts(load);
    FlashLoadIs(prepared, slot, flash, offset, capacity);
    var h := FlashHeader(flash, offset, capacity).value;
    var context := ContextFor(prepared.points, prepared.publication, slot);
    code := FlashLink(context, flash, offset, h, FlashCode(flash, offset, h), CodeCapacity(slot)).1;
    CodeIsShort(slot, code);
    FlashLoadRecords(prepared, slot, flash, offset, capacity, h, code);
    var p := RecordFor(h, code, h.runtimeHeaderAddress, prepared.publication.epoch);
    RecordForIs(h, code, h.runtimeHeaderAddress, prepared.publication.epoch);
    var staged := StageFromFlash(slot, flash, offset, h.totalSize, h.checksum).1;
    PerformIs(board, op, prepared);
    ContextAfter(Apply(board.memory, load.Writes()), prepared, slot);
    WritesAre(load);
    BoardSize(board);
    SlotInRange(slot);
    FlashSnapshotIsOwn(slot, flash, offset, h.totalSize, h.checksum);
    FlashStagedIs(slot, flash, offset, h.totalSize, h.checksum);
    var first := load.read + load.Preparation();
    LoadRecords(board.memory, slot, p, code, first, staged);
    RecordedIsReady(Perform(board, op).memory, slot, p, code, h);
    var before := first + load.code + Metadata(slot, p);
    assert load.Writes() == before + staged;
    SnapshotStands(board.memory, slot, SpanBytes(flash, offset, h.totalSize), h.checksum, before);
  }
}
