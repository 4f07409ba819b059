/** Stage0 in place: the cached page reader, the copy to SDRAM word by word, and the verification. */
module Stage0 {
  import opened Bytes
  import opened Memory
  import opened Bits
  import opened Crc32
  import opened BootImage


  /** The flash chip behind its driver: what it holds, whether the n-th page read succeeds, and what a
      failed read leaves in the buffer. */
  datatype Chip = Chip(bytes: seq<byte>, succeeds: nat -> bool, junk: (nat, int) -> byte) {
    /** Some four reads in a row fail. */
    ghost predicate Flaky() {
      exists n: nat :: FailsFrom(n, 4)
    }

    /** The next `count` reads from the n-th on fail. */
    predicate FailsFrom(n: nat, count: nat) {
      count == 0 || (FailsFrom(n, count - 1) && !succeeds(n + count - 1))
    }
  }

  class FlashReader {
    const chip: Chip
    var attempts: nat
    var cachedBase: u32
    var cacheValid: bool
    const cache: array<byte>

    /** A valid cache holds the page it is marked with. */
    ghost predicate Valid()
      reads this, cache
    {
      && |chip.bytes| == FLASH_SIZE && cache.Length == PAGE_SIZE
      && (cacheValid ==>
            && cachedBase + PAGE_SIZE <= FLASH_SIZE
            && cache[..] == chip.bytes[cachedBase..cachedBase + PAGE_SIZE])
    }

    constructor (chip: Chip)
      requires |chip.bytes| == FLASH_SIZE
      ensures Valid() && this.chip == chip && fresh(cache)
    {
      this.chip := chip;
      attempts := 0;
      cachedBase := 0xFFFF_FFFF;
      cacheValid := false;
      cache := new byte[PAGE_SIZE](_ => 0);
    }

    /** The driver's readPage. */
    method ReadPage(base: nat) returns (ok: bool)
      requires |chip.bytes| == FLASH_SIZE && cache.Length == PAGE_SIZE && base + PAGE_SIZE <= FLASH_SIZE
      modifies this`attempts, cache
      ensures ok == chip.succeeds(old(attempts)) && attempts == old(attempts) + 1
      ensures ok ==> cache[..] == chip.bytes[base..base + PAGE_SIZE]
    {
      ok := chip.succeeds(attempts);
      forall i | 0 <= i < PAGE_SIZE {
        cache[i] := if ok then chip.bytes[base + i] else chip.junk(attempts, i);
      }
      attempts := attempts + 1;
    }

    /** loadPage: up to four attempts. A failed attempt spoils the buffer but not the mark on it, so the
        cache is only valid again after a success. */
    method LoadPage(base: nat) returns (ok: bool)
      requires Valid() && base + PAGE_SIZE <= FLASH_SIZE
      modifies this, cache
      ensures ok ==> Valid() && cacheValid && cachedBase == base
      ensures !ok ==> chip.Flaky()
    {
      if cacheValid && base == cachedBase {
        return true;
      }
      ghost var first := attempts;
      for attempt := 0 to 4
        invariant |chip.bytes| == FLASH_SIZE && cache.Length == PAGE_SIZE
        invariant attempts == first + attempt
        invariant chip.FailsFrom(first, attempt)
      {
        ok := ReadPage(base);
        if ok {
          cachedBase := base;
          cacheValid := true;
          return;
        }
      }
      ok := false;
      assert chip.FailsFrom(first, 4);
    }

    /** readBytes: after a success the buffer starts with the bytes at the offset. */
    method ReadBytes(offset: u32, out: array<byte>, size: u32) returns (ok: bool)
      requires Valid() && size <= out.Length && out != cache
      modifies this, cache, out
      ensures ok ==> Valid() && offset + size <= FLASH_SIZE && out[..size] == chip.bytes[offset..offset + size]
      ensures !ok ==> FLASH_SIZE < offset + size || chip.Flaky()
    {
      if FLASH_SIZE < offset || FLASH_SIZE - offset < size {
        return false;
      }
      hide Chip.Flaky, Chip.FailsFrom;
      var cur, remaining := offset, size;
      while remaining != 0
        invariant Valid() && 0 <= remaining <= size && cur == offset + (size - remaining)
        invariant out[..size - remaining] == chip.bytes[offset..cur]
      {
        var low := cur % PAGE_SIZE;
        var base := cur - low;
        var chunk := if PAGE_SIZE - low < remaining then PAGE_SIZE - low else remaining;
        PageInside(cur);
        ok := LoadPage(base);
        if !ok {
          return;
        }
        CopyOut(out, size - remaining, low, chunk);
        assert chip.bytes[offset..cur + chunk] == chip.bytes[offset..cur] + chip.bytes[cur..cur + chunk];
        cur := cur + chunk;
        remaining := remaining - chunk;
      }
      ok := true;
    }

    method CopyOut(out: array<byte>, at: nat, low: nat, chunk: nat)
      requires Valid() && cacheValid && out != cache && low + chunk <= PAGE_SIZE && at + chunk <= out.Length
      modifies out
      ensures out[..at + chunk] == old(out[..at]) + chip.bytes[cachedBase + low..cachedBase + low + chunk]
    {
      ghost var piece := chip.bytes[cachedBase + low..cachedBase + low + chunk];
      assert forall i | 0 <= i < chunk :: cache[low + i] == cache[..][low + i] == piece[i];
      for i := 0 to chunk
        invariant out[..at + i] == old(out[..at]) + piece[..i]
      {
        out[at + i] := cache[low + i];
        assert out[..at + i + 1] == out[..at + i] + [piece[i]] && piece[..i + 1] == piece[..i] + [piece[i]];
      }
      assert piece[..chunk] == piece;
    }
  }

  lemma PageInside(at: nat)
    requires at < FLASH_SIZE
    ensures at - at % PAGE_SIZE + PAGE_SIZE <= FLASH_SIZE
  {
  }

  // The word accumulator

  /** A byte shifted up by whole bytes; the accumulator has no bits there yet. */
  function ShiftedByte(b: byte, count: nat): nat {
    Pow2(8 * count) * b
  }

  lemma {:induction false} WordSnoc(data: seq<byte>, b: byte)
    ensures Word(data + [b]) == Word(data) + ShiftedByte(b, |data|)
  {
    if data == [] {
      assert [] + [b] == [b] && [b][1..] == [];
      assert Word([b]) == b + 0x100 * Word([]);
    } else {
      assert (data + [b])[1..] == data[1..] + [b];
      WordSnoc(data[1..], b);
      var n := |data| - 1;
      PowerSum(8, 8 * n);
      WordPowers();
      Scale(Pow2(8 * n), b);
    }
  }

  lemma Scale(p: nat, b: nat)
    ensures 0x100 * (p * b) == 0x100 * p * b
  {
  }

  lemma WordOfFour(data: seq<byte>)
    requires |data| == 4
    ensures Word(data) < 0x1_0000_0000 && Le32(Word(data)) == data
  {
    WordFits(data);
    var a, b, c, d := data[0] as int, data[1] as int, data[2] as int, data[3] as int;
    assert data[1..][1..][1..][1..] == [];
    assert Word(data[1..][1..][1..]) == d;
    assert Word(data[1..][1..]) == c + 0x100 * d;
    assert Word(data[1..]) == b + 0x100 * (c + 0x100 * d);
    LittleEndian(a, b, c, d);
  }

  lemma LittleEndian(a: byte, b: byte, c: byte, d: byte)
    ensures
      var w := a + 0x100 * (b + 0x100 * (c + 0x100 * d));
      w % 0x100 == a && w / 0x100 % 0x100 == b && w / 0x1_0000 % 0x100 == c && w / 0x100_0000 % 0x100 == d
  {
    var w := a + 0x100 * (b + 0x100 * (c + 0x100 * d));
    assert w / 0x100 == b + 0x100 * (c + 0x100 * d);
    assert w / 0x1_0000 == w / 0x100 / 0x100 == c + 0x100 * d;
    assert w / 0x100_0000 == w / 0x1_0000 / 0x100 == d;
  }

  /** `tail` with the byte in position `i` replaced by that of `acc`: masking with 0xFF << 8i. */
  function MergeByte(tail: u32, acc: u32, i: nat): (r: u32)
    requires i < 4
  {
    var t, a := Le32(tail), Le32(acc);
    Fetch32(t[i := a[i]], 0)
  }

  lemma LeFetch(s: seq<byte>)
    requires |s| == 4
    ensures Le32(Fetch32(s, 0)) == s
  {
    LittleEndian(s[0], s[1], s[2], s[3]);
  }

  lemma MergedByte(tail: u32, acc: u32, i: nat)
    requires i < 4
    ensures Le32(MergeByte(tail, acc, i)) == Le32(tail)[i := Le32(acc)[i]]
  {
    LeFetch(Le32(tail)[i := Le32(acc)[i]]);
  }

  lemma {:induction false} PartialWord(data: seq<byte>)
    requires |data| <= 4
    ensures Word(data) < 0x1_0000_0000
    ensures Le32(Word(data))[..|data|] == data
  {
    WordFits(data);
    var zeros: seq<byte> := seq(4 - |data|, _ => 0);
    WordPadded(data, 4 - |data|);
    WordOfFour(data + zeros);
  }

  lemma {:induction false} WordPadded(data: seq<byte>, n: nat)
    ensures Word(data + seq(n, _ => 0)) == Word(data)
    decreases n
  {
    if n == 0 {
      assert data + seq(n, _ => 0) == data;
    } else {
      WordPadded(data, n - 1);
      assert data + seq(n, _ => 0) == data + seq(n - 1, _ => 0) + [0];
      WordSnoc(data + seq(n - 1, _ => 0), 0);
    }
  }

  // Copying

  /** The copy has written the whole words of the first bytes of the payload; the rest of these bytes
      wait in the accumulator. */
  ghost predicate Copied(sdram: array<byte>, was: seq<byte>, at: nat, done: seq<byte>, dst: nat, acc: u32, count: nat)
    reads sdram
  {
    && |was| == sdram.Length && count < 4 && count <= |done| && dst == at + |done| - count && dst % 4 == at % 4
    && dst <= |was|
    && sdram[..] == Patch(was, at, done[..|done| - count])
    && acc == Word(done[|done| - count..])
  }

  /** One byte into the accumulator, and the accumulator to SDRAM when it is full. */
  method PackByte(sdram: array<byte>, b: byte, acc: u32, count: nat, dst: nat, ghost was: seq<byte>, ghost at: nat,
                  ghost done: seq<byte>) returns (acc': u32, count': nat, dst': nat)
    requires Copied(sdram, was, at, done, dst, acc, count)
    requires at + (|done| + 1 + 3) / 4 * 4 <= |was| && at % 4 == 0
    modifies sdram
    ensures Copied(sdram, was, at, done + [b], dst', acc', count')
  {
    hide Word, Patch, Pow2;
    ghost var pending := done[|done| - count..];
    ghost var next := done + [b];
    WordSnoc(pending, b);
    WordFits(pending + [b]);
    assert next[|next| - (count + 1)..] == pending + [b];
    acc' := acc + ShiftedByte(b, count);
    count' := count + 1;
    dst' := dst;
    if count' == 4 {
      WordOfFour(pending + [b]);
      Store(sdram, dst, Le32(acc'));
      assert next == done[..|done| - count] + (pending + [b]);
      PatchMore(was, at, done[..|done| - count], pending + [b]);
      dst' := dst + 4;
      acc' := 0;
      count' := 0;
      assert next[..|next| - 0] == next && next[|next| - 0..] == [];
      NoWord();
    } else {
      assert next[..|next| - count'] == done[..|done| - count];
    }
  }

  lemma NoWord()
    ensures Word([]) == 0
  {
  }

  /** `count` bytes of the accumulator over those of a word. */
  method MergeWord(word: u32, acc: u32, count: nat) returns (tail: u32)
    requires count <= 4
    ensures Le32(tail) == Le32(acc)[..count] + Le32(word)[count..]
  {
    hide *;
    ghost var new_, there := Le32(acc), Le32(word);
    tail := word;
    for i := 0 to count
      invariant Le32(tail) == new_[..i] + there[i..]
    {
      MergedByte(tail, acc, i);
      tail := MergeByte(tail, acc, i);
    }
  }

  /** The tail merge: the last bytes go into the word there, which keeps its other bytes. */
  method MergeTail(sdram: array<byte>, acc: u32, count: nat, dst: nat, ghost was: seq<byte>, ghost at: nat,
                   ghost done: seq<byte>)
    requires Copied(sdram, was, at, done, dst, acc, count) && 0 < count && dst + 4 <= |was|
    modifies sdram
    ensures at + |done| <= |was| && sdram[..] == Patch(was, at, done)
  {
    CopiedParts(sdram, was, at, done, dst, acc, count);
    hide *;
    ghost var whole, pending := done[..|done| - count], done[|done| - count..];
    ghost var there := sdram[dst..dst + 4];
    PartialWord(pending);
    LeFetch(there);
    var tail := MergeWord(Fetch32(sdram[dst..dst + 4], 0), acc, count);
    ghost var before := sdram[..];
    Store(sdram, dst, Le32(tail));
    assert there == before[dst..dst + 4];
    PatchKeepsEnd(before, dst, pending);
    assert done == whole + pending;
    PatchMore(was, at, whole, pending);
  }

  lemma CopiedParts(sdram: array<byte>, was: seq<byte>, at: nat, done: seq<byte>, dst: nat, acc: u32, count: nat)
    requires Copied(sdram, was, at, done, dst, acc, count)
    ensures |was| == sdram.Length && count < 4 && count <= |done| && dst == at + |done| - count && dst <= |was|
    ensures dst % 4 == at % 4
    ensures sdram[..] == Patch(was, at, done[..|done| - count]) && acc == Word(done[|done| - count..])
  {
    hide Patch, Word;
  }

  lemma PatchKeepsEnd(memory: seq<byte>, at: nat, bytes: seq<byte>)
    requires at + 4 <= |memory| && |bytes| <= 4
    ensures Patch(memory, at, bytes + memory[at..at + 4][|bytes|..]) == Patch(memory, at, bytes)
  {
  }

  /** SDRAM with the first `n` bytes of the payload at its place. */
  function Partly(was: seq<byte>, at: nat, payload: seq<byte>, n: nat): seq<byte>
    requires n <= |payload| && at + |payload| <= |was|
  {
    Patch(was, at, payload[..n])
  }

  /** SDRAM holds some first bytes of the payload at its place, and is otherwise as it was. */
  ghost predicate PartlyLoaded(was: seq<byte>, at: nat, payload: seq<byte>, sdram: seq<byte>) {
    at + |payload| <= |was| && exists n: nat | n <= |payload| :: sdram == Partly(was, at, payload, n)
  }

  /** The copy has come this far. */
  ghost predicate CopiedTo(sdram: array<byte>, was: seq<byte>, at: nat, payload: seq<byte>, copied: nat, dst: nat,
                           acc: u32, count: nat)
    reads sdram
  {
    copied <= |payload| && Copied(sdram, was, at, payload[..copied], dst, acc, count)
  }

  /** The copy loop with the tail merge: after a success, the payload is in SDRAM and nothing else has
      changed there; after a failed flash read, a part of it. */
  method CopyPayload(reader: FlashReader, sdram: array<byte>, from: u32, at: nat, size: u32, ghost was: seq<byte>,
                     ghost payload: seq<byte>) returns (ok: bool)
    requires reader.Valid() && sdram != reader.cache && was == sdram[..]
    requires from + size <= FLASH_SIZE && HasRoom(at, size, |was|)
    requires IsPayload(reader.chip.bytes, from, size, payload)
    modifies reader, reader.cache, sdram
    ensures ok ==> sdram[..] == Patch(was, at, payload)
    ensures !ok ==> reader.chip.Flaky()
    ensures !ok ==> PartlyLoaded(was, at, payload, sdram[..])
  {
    assert |payload| == size && at <= |was|;
    hide *;
    var chunk := new byte[256];
    var acc: u32, count: nat, dst: nat, copied: nat := 0, 0, at, 0;
    StartCopy(sdram, was, at, payload);
    while copied < size
      invariant copied <= size && reader.Valid() && fresh(chunk)
      invariant CopiedTo(sdram, was, at, payload, copied, dst, acc, count)
    {
      var n;
      ok, n, acc, count, dst := CopyChunk(reader, sdram, chunk, from, at, size, was, payload, copied, dst, acc, count);
      if !ok {
        CopiedPartly(sdram, was, at, payload, copied, dst, acc, count);
        return;
      }
      copied := copied + n;
    }
    FinishCopy(sdram, acc, count, dst, was, at, payload);
    ok := true;
  }

  /** What is left in the accumulator at the end goes to SDRAM. */
  method FinishCopy(sdram: array<byte>, acc: u32, count: nat, dst: nat, ghost was: seq<byte>, ghost at: nat,
                    ghost payload: seq<byte>)
    requires CopiedTo(sdram, was, at, payload, |payload|, dst, acc, count) && HasRoom(at, |payload|, |was|)
    modifies sdram
    ensures at + |payload| <= |was| && sdram[..] == Patch(was, at, payload)
  {
    assert payload[..|payload|] == payload;
    CopiedParts(sdram, was, at, payload, dst, acc, count);
    hide Copied;
    if count != 0 {
      TailFits(at, |payload|, count, dst);
      MergeTail(sdram, acc, count, dst, was, at, payload);
    } else {
      assert payload[..|payload| - 0] == payload;
    }
  }

  predicate IsPayload(flash: seq<byte>, from: nat, size: nat, payload: seq<byte>) {
    from + size <= |flash| && payload == flash[from..from + size]
  }

  /** Whole words from an aligned address on. */
  predicate HasRoom(at: nat, size: nat, room: nat) {
    at % 4 == 0 && at + (size + 3) / 4 * 4 <= room
  }

  /** The body of the copy loop. */
  method CopyChunk(reader: FlashReader, sdram: array<byte>, chunk: array<byte>, from: u32, at: nat, size: u32,
                   ghost was: seq<byte>, ghost payload: seq<byte>, copied: nat, dst: nat, acc: u32, count: nat)
    returns (ok: bool, n: nat, acc': u32, count': nat, dst': nat)
    requires reader.Valid() && sdram != reader.cache && chunk != reader.cache && chunk != sdram && chunk.Length > 0
    requires copied < size && from + size <= FLASH_SIZE && HasRoom(at, size, |was|)
    requires IsPayload(reader.chip.bytes, from, size, payload)
    requires CopiedTo(sdram, was, at, payload, copied, dst, acc, count)
    modifies reader, reader.cache, sdram, chunk
    ensures !ok ==> (acc', count', dst') == (acc, count, dst) && reader.chip.Flaky()
    ensures !ok ==> CopiedTo(sdram, was, at, payload, copied, dst, acc, count)
    ensures ok ==> reader.Valid() && 0 < n <= size - copied
    ensures ok ==> CopiedTo(sdram, was, at, payload, copied + n, dst', acc', count')
  {
    assert |payload| == size;
    hide *;
    acc', count', dst' := acc, count, dst;
    ok, n := ReadPiece(reader, chunk, from, size, payload, copied);
    if ok {
      acc', count', dst' := PackChunk(sdram, chunk, n, acc, count, dst, was, at, payload, copied);
    }
  }

  /** The next bytes of the payload, as many as the chunk can hold. */
  method ReadPiece(reader: FlashReader, chunk: array<byte>, from: u32, size: u32, ghost payload: seq<byte>, copied: nat)
    returns (ok: bool, n: nat)
    requires reader.Valid() && chunk != reader.cache && chunk.Length > 0 && copied < size
    requires from + size <= FLASH_SIZE && IsPayload(reader.chip.bytes, from, size, payload)
    modifies reader, reader.cache, chunk
    ensures 0 < n <= size - copied && n <= chunk.Length
    ensures !ok ==> reader.chip.Flaky()
    ensures ok ==> reader.Valid() && chunk[..n] == payload[copied..copied + n]
  {
    assert from + size < 0x1_0000_0000;
    hide FlashReader.Valid, Chip.Flaky;
    n := if chunk.Length < size - copied then chunk.Length else size - copied;
    ok := reader.ReadBytes(from + copied, chunk, n);
    if ok {
      SliceOfSlice(reader.chip.bytes, from, from + size, copied, copied + n);
    }
  }

  lemma TailFits(at: nat, size: nat, count: nat, dst: nat)
    requires at % 4 == 0 && 0 < count < 4 && dst == at + size - count && dst % 4 == 0
    ensures dst + 4 == at + (size + 3) / 4 * 4
  {
  }

  lemma CopiedPartly(sdram: array<byte>, was: seq<byte>, at: nat, payload: seq<byte>, copied: nat, dst: nat, acc: u32,
                     count: nat)
    requires copied <= |payload| && at + |payload| <= |was|
    requires CopiedTo(sdram, was, at, payload, copied, dst, acc, count)
    ensures PartlyLoaded(was, at, payload, sdram[..])
  {
    hide Patch, Word;
    assert payload[..copied][..copied - count] == payload[..copied - count];
    assert sdram[..] == Partly(was, at, payload, copied - count);
  }

  lemma StartCopy(sdram: array<byte>, was: seq<byte>, at: nat, payload: seq<byte>)
    requires was == sdram[..] && at <= |was|
    ensures CopiedTo(sdram, was, at, payload, 0, at, 0, 0)
  {
    NoWord();
    PatchNothing(was, at);
    assert payload[..0][..0] == [] && payload[..0][0..] == [];
  }

  method PackChunk(sdram: array<byte>, chunk: array<byte>, n: nat, acc: u32, count: nat, dst: nat, ghost was: seq<byte>,
                   ghost at: nat, ghost payload: seq<byte>, ghost copied: nat)
    returns (acc': u32, count': nat, dst': nat)
    requires sdram != chunk && n <= chunk.Length && copied + n <= |payload|
    requires chunk[..n] == payload[copied..copied + n]
    requires CopiedTo(sdram, was, at, payload, copied, dst, acc, count)
    requires HasRoom(at, |payload|, |was|)
    modifies sdram
    ensures CopiedTo(sdram, was, at, payload, copied + n, dst', acc', count')
  {
    hide Copied;
    acc', count', dst' := acc, count, dst;
    for i := 0 to n
      invariant CopiedTo(sdram, was, at, payload, copied + i, dst', acc', count')
      invariant chunk[..n] == payload[copied..copied + n]
    {
      assert chunk[i] == chunk[..n][i] == payload[copied + i];
      assert payload[..copied + i + 1] == payload[..copied + i] + [chunk[i]];
      acc', count', dst' := PackByte(sdram, chunk[i], acc', count', dst', was, at, payload[..copied + i]);
    }
  }

  // Booting

  /** How stage0 may end: as on reliable flash, or at a flash read that failed four times. */
  ghost predicate MayEnd(chip: Chip, was: seq<byte>, outcome: Outcome, sdram: seq<byte>)
    requires IsFlash(chip.bytes) && |was| == SDRAM_SIZE
  {
    if outcome == Stopped(HeaderRead) then chip.Flaky() && sdram == was
    else if outcome == Stopped(ImageRead) then
      var h := ImageHeader(chip.bytes);
      && chip.Flaky() && HeaderFault(h) == None
      && SDRAM_BASE <= h.load && PartlyLoaded(was, h.load - SDRAM_BASE, Payload(chip.bytes, h), sdram)
    else (outcome, sdram) == Boot(chip.bytes, was)
  }

  /** Stage0 from the header on. */
  method Run(reader: FlashReader, sdram: array<byte>) returns (outcome: Outcome)
    requires reader.Valid() && sdram.Length == SDRAM_SIZE && sdram != reader.cache
    modifies reader, reader.cache, sdram
    ensures IsFlash(reader.chip.bytes) && MayEnd(reader.chip, old(sdram[..]), outcome, sdram[..])
  {
    ReaderHasFlash(reader);
    hide *;
    ghost var was, flash := sdram[..], reader.chip.bytes;
    var raw := new byte[IMAGE_HEADER_SIZE](_ => 0);
    var ok := reader.ReadBytes(IMAGE_BASE, raw, IMAGE_HEADER_SIZE);
    if !ok {
      outcome := Stopped(HeaderRead);
      HeaderInside();
      HeaderUnread(reader.chip, was);
      return;
    }
    HeaderIs(flash, raw[..IMAGE_HEADER_SIZE]);
    var h := ReadHeader(raw[..IMAGE_HEADER_SIZE]);
    var fault := FindHeaderFault(h);
    if fault.Some? {
      outcome := Stopped(fault.value);
      HeaderStops(reader.chip, was, h, fault.value);
      return;
    }
    outcome := LoadImage(reader, sdram, h);
  }

  /** Stage0 behind an accepted header: copy, verify, check the entry. */
  method LoadImage(reader: FlashReader, sdram: array<byte>, h: Header) returns (outcome: Outcome)
    requires reader.Valid() && sdram.Length == SDRAM_SIZE && sdram != reader.cache && IsFlash(reader.chip.bytes)
    requires h == ImageHeader(reader.chip.bytes) && HeaderFault(h) == None
    modifies reader, reader.cache, sdram
    ensures MayEnd(reader.chip, old(sdram[..]), outcome, sdram[..])
  {
    hide *;
    ghost var was, flash := sdram[..], reader.chip.bytes;
    CopyFits(h);
    PayloadIs(flash, h);
    var at, from := h.load - SDRAM_BASE, IMAGE_BASE + h.imageOffset;
    ghost var payload := Payload(flash, h);
    RoomFor(at, h.imageSize);
    PayloadAt(flash, from, h.imageSize, payload);
    var ok := CopyPayload(reader, sdram, from, at, h.imageSize, was, payload);
    if !ok {
      outcome := Stopped(ImageRead);
      ImageUnread(reader.chip, was, h, sdram[..]);
      return;
    }
    var crc := VerifyPayload(sdram, at, h.imageSize, was, payload);
    if crc != h.imageCrc {
      outcome := Stopped(PayloadCrc);
    } else if h.entry % 4 != 0 || !WordOk(h.entry) {
      outcome := Stopped(EntryAlign);
    } else {
      outcome := Jump(h.entry);
    }
    LoadedEnds(reader.chip, was, h, outcome, sdram[..]);
  }

  lemma RoomFor(at: nat, size: nat)
    requires at % 4 == 0 && at + (size + 3) / 4 * 4 <= SDRAM_SIZE
    ensures HasRoom(at, size, SDRAM_SIZE)
  {
  }

  lemma PayloadAt(flash: seq<byte>, from: nat, size: nat, payload: seq<byte>)
    requires from + size <= |flash| && payload == flash[from..from + size]
    ensures IsPayload(flash, from, size, payload)
  {
  }

  lemma HeaderInside()
    ensures IMAGE_BASE + IMAGE_HEADER_SIZE <= FLASH_SIZE
  {
  }

  lemma ReaderHasFlash(reader: FlashReader)
    requires reader.Valid()
    ensures IsFlash(reader.chip.bytes)
  {
  }

  lemma HeaderUnread(chip: Chip, was: seq<byte>)
    requires IsFlash(chip.bytes) && |was| == SDRAM_SIZE && chip.Flaky()
    ensures MayEnd(chip, was, Stopped(HeaderRead), was)
  {
  }

  lemma HeaderIs(flash: seq<byte>, raw: seq<byte>)
    requires IsFlash(flash) && raw == flash[IMAGE_BASE..IMAGE_BASE + IMAGE_HEADER_SIZE]
    ensures |raw| == IMAGE_HEADER_SIZE && ReadHeader(raw) == ImageHeader(flash)
  {
    hide ReadHeader;
  }

  lemma HeaderStops(chip: Chip, was: seq<byte>, h: Header, fault: Fault)
    requires IsFlash(chip.bytes) && |was| == SDRAM_SIZE
    requires h == ImageHeader(chip.bytes) && HeaderFault(h) == Some(fault)
    ensures MayEnd(chip, was, Stopped(fault), was)
  {
    hide ImageHeader, HeaderChecksum, FlashRangeOk, RangeOk, CopySpanOk;
  }

  lemma CopyFits(h: Header)
    requires WellFormed(h) && HeaderFault(h) == None
    ensures SDRAM_BASE <= h.load && h.load - SDRAM_BASE + h.imageSize <= SDRAM_SIZE
    ensures (h.load - SDRAM_BASE) % 4 == 0 && h.load - SDRAM_BASE + (h.imageSize + 3) / 4 * 4 <= SDRAM_SIZE
  {
    hide HeaderFault;
    AcceptedRanges(h);
    PaddedSize(h.imageSize);
  }

  lemma PaddedSize(size: nat)
    ensures size <= (size + 3) / 4 * 4
  {
  }

  lemma PayloadIs(flash: seq<byte>, h: Header)
    requires IsFlash(flash) && WellFormed(h) && HeaderFault(h) == None
    ensures IMAGE_BASE + h.imageOffset + h.imageSize <= FLASH_SIZE == |flash|
    ensures IMAGE_BASE + h.imageOffset < 0x1_0000_0000
    ensures Payload(flash, h) == flash[IMAGE_BASE + h.imageOffset..IMAGE_BASE + h.imageOffset + h.imageSize]
  {
    hide HeaderFault;
    AcceptedRanges(h);
  }

  lemma ImageUnread(chip: Chip, was: seq<byte>, h: Header, sdram: seq<byte>)
    requires IsFlash(chip.bytes) && |was| == SDRAM_SIZE && chip.Flaky()
    requires h == ImageHeader(chip.bytes) && HeaderFault(h) == None
    requires SDRAM_BASE <= h.load && h.load - SDRAM_BASE + h.imageSize <= SDRAM_SIZE
    requires PartlyLoaded(was, h.load - SDRAM_BASE, Payload(chip.bytes, h), sdram)
    ensures MayEnd(chip, was, Stopped(ImageRead), sdram)
  {
    hide ImageHeader, HeaderFault, Payload, PartlyLoaded;
  }

  lemma LoadedEnds(chip: Chip, was: seq<byte>, h: Header, outcome: Outcome, sdram: seq<byte>)
    requires IsFlash(chip.bytes) && |was| == SDRAM_SIZE
    requires h == ImageHeader(chip.bytes) && HeaderFault(h) == None
    requires SDRAM_BASE <= h.load && h.load - SDRAM_BASE + h.imageSize <= SDRAM_SIZE
    requires sdram == Patch(was, h.load - SDRAM_BASE, Payload(chip.bytes, h))
    requires
      outcome == if Crc(Payload(chip.bytes, h)) != h.imageCrc then Stopped(PayloadCrc)
                 else if h.entry % 4 != 0 || !WordOk(h.entry) then Stopped(EntryAlign)
                 else Jump(h.entry)
    ensures MayEnd(chip, was, outcome, sdram)
  {
    hide ImageHeader, HeaderFault, Payload, Crc, Patch, WordOk;
  }

  /** header_fault */
  method FindHeaderFault(h: Header) returns (fault: Option<Fault>)
    requires WellFormed(h)
    ensures fault == HeaderFault(h)
  {
    hide HeaderBytes, Crc, FaultWith;
    var computed := CrcOfBuffer(HeaderBytes(h.(headerCrc := 0)));
    fault := FaultWith(h, computed);
  }

  /** The verification reads the payload back from SDRAM. */
  method VerifyPayload(sdram: array<byte>, at: nat, size: u32, ghost was: seq<byte>, ghost payload: seq<byte>)
    returns (crc: u32)
    requires |was| == sdram.Length && |payload| == size && at + size <= sdram.Length
    requires sdram[..] == Patch(was, at, payload)
    ensures crc == Crc(payload)
  {
    hide Update;
    assert sdram[at..at + size] == payload;
    var state := ALL_ONES;
    for i := 0 to size
      invariant Feed(state, payload[i..]) == Feed(ALL_ONES, payload)
    {
      assert payload[i..][1..] == payload[i + 1..] && sdram[at + i] == sdram[at..at + size][i];
      state := UpdateByte(state, sdram[at + i]);
    }
    crc := ALL_ONES - state;
  }
}
