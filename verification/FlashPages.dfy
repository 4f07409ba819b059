/** Flash as the loader reads it: page by page, any page may fail. */
module FlashPages {
  import opened Bytes
  import opened Memory
  import Fnv


  /** What the chip holds, and which pages (by base address) can be read. */
  datatype Flash = Flash(bytes: seq<byte>, readable: int -> bool) {
    predicate HasPage(base: int) {
      readable(base) && 0 <= base && base + PAGE_SIZE <= |bytes|
    }

    /** The byte at an address lies on a page that can be read. */
    predicate Reachable(at: nat) {
      HasPage(at - at % PAGE_SIZE)
    }

    function At(at: nat): byte {
      if at < |bytes| then bytes[at] else 0
    }
  }

  /** Addresses are 32 bits wide and wrap. */
  function Address(offset: nat, i: nat): u32 {
    (offset + i) % 0x1_0000_0000
  }

  predicate SpanReadable(flash: Flash, offset: nat, size: nat) {
    forall i: nat | i < size :: flash.Reachable(Address(offset, i))
  }

  /** `size` bytes from `offset` on. */
  function SpanBytes(flash: Flash, offset: nat, size: nat): (s: seq<byte>)
    ensures |s| == size
  {
    seq(size, i requires 0 <= i < size => flash.At(Address(offset, i)))
  }

  function Span(flash: Flash, offset: nat, size: nat): (r: Option<seq<byte>>)
    ensures r.Some? ==> |r.value| == size
  {
    if SpanReadable(flash, offset, size) then Some(SpanBytes(flash, offset, size)) else None
  }

  /** readPage: the buffer is left alone when the page cannot be read. */
  method ReadPage(flash: Flash, base: nat, page: array<byte>) returns (ok: bool)
    requires page.Length == PAGE_SIZE
    modifies page
    ensures ok == flash.HasPage(base)
    ensures page[..] == if ok then flash.bytes[base..base + PAGE_SIZE] else old(page[..])
  {
    ok := flash.HasPage(base);
    if ok {
      forall i | 0 <= i < PAGE_SIZE {
        page[i] := flash.bytes[base + i];
      }
    }
  }

  /** How far the page that holds the address `offset + copied` reaches, within `size`. */
  function Chunk(offset: nat, copied: nat, size: nat): (n: nat)
    requires copied < size
    ensures 0 < n <= size - copied
    ensures Address(offset, copied) % PAGE_SIZE + n <= PAGE_SIZE
  {
    var room := PAGE_SIZE - Address(offset, copied) % PAGE_SIZE;
    if size - copied < room then size - copied else room
  }

  lemma ChunkOnPage(offset: nat, copied: nat, size: nat, i: nat)
    requires copied < size && i < Chunk(offset, copied, size)
    ensures
      var pos := Address(offset, copied);
      && Address(offset, copied + i) == pos + i
      && pos + i - (pos + i) % PAGE_SIZE == pos - pos % PAGE_SIZE
      && pos % PAGE_SIZE + i < PAGE_SIZE
  {
    var pos := Address(offset, copied);
    var base := pos / PAGE_SIZE;
    assert pos == PAGE_SIZE * base + pos % PAGE_SIZE;
    assert base < 0x100_0000;
    assert pos + i < PAGE_SIZE * base + PAGE_SIZE <= 0x1_0000_0000;
    var wraps := (offset + copied) / 0x1_0000_0000;
    assert offset + copied + i == 0x1_0000_0000 * wraps + (pos + i);
    WrapOnce(offset + copied + i, wraps, pos + i);
    PageOf(base, pos % PAGE_SIZE + i);
  }

  lemma WrapOnce(x: nat, wraps: nat, low: nat)
    requires x == 0x1_0000_0000 * wraps + low && low < 0x1_0000_0000
    ensures x % 0x1_0000_0000 == low
  {
  }

  lemma PageOf(base: nat, low: nat)
    requires low < PAGE_SIZE
    ensures (PAGE_SIZE * base + low) % PAGE_SIZE == low
  {
  }

  /** The chunk read from one page is the next piece of the span. */
  lemma ChunkIsSpan(flash: Flash, offset: nat, copied: nat, size: nat)
    requires copied < size
    ensures
      var pos := Address(offset, copied);
      var base, n := pos - pos % PAGE_SIZE, Chunk(offset, copied, size);
      && pos % PAGE_SIZE + n <= PAGE_SIZE
      && (flash.HasPage(base) ==>
            && flash.bytes[base..base + PAGE_SIZE][pos % PAGE_SIZE..pos % PAGE_SIZE + n] ==
               SpanBytes(flash, offset, size)[copied..copied + n]
            && forall i: nat | copied <= i < copied + n :: flash.Reachable(Address(offset, i)))
      && (!flash.HasPage(base) ==> !SpanReadable(flash, offset, size))
  {
    hide Address, Chunk;
    var pos := Address(offset, copied);
    var base, n := pos - pos % PAGE_SIZE, Chunk(offset, copied, size);
    var span := SpanBytes(flash, offset, size);
    if flash.HasPage(base) {
      var piece := flash.bytes[base..base + PAGE_SIZE][pos % PAGE_SIZE..pos % PAGE_SIZE + n];
      forall i | 0 <= i < n
        ensures piece[i] == span[copied + i]
      {
        ChunkOnPage(offset, copied, size, i);
      }
      forall i: nat | copied <= i < copied + n
        ensures flash.Reachable(Address(offset, i))
      {
        ChunkOnPage(offset, copied, size, i - copied);
        assert flash.Reachable(Address(offset, copied + (i - copied)));
      }
    } else {
      ChunkOnPage(offset, copied, size, 0);
      assert !flash.Reachable(Address(offset, copied));
    }
  }

  /** How many bytes of a span are copied before the first page that cannot be read. */
  function Copied(flash: Flash, offset: u32, copied: nat, size: u32): (n: nat)
    requires copied <= size
    ensures copied <= n <= size
    decreases size - copied
  {
    if copied == size then size
    else
      var pos := Address(offset, copied);
      if flash.HasPage(pos - pos % PAGE_SIZE) then Copied(flash, offset, copied + Chunk(offset, copied, size), size)
      else copied
  }

  lemma {:induction false} CopiedAll(flash: Flash, offset: u32, copied: nat, size: u32)
    requires copied <= size && SpanReadable(flash, offset, copied)
    ensures Copied(flash, offset, copied, size) == size <==> SpanReadable(flash, offset, size)
    decreases size - copied
  {
    hide SpanReadable, Chunk, Address, SpanBytes;
    if copied < size {
      ChunkIsSpan(flash, offset, copied, size);
      MoreReadable(flash, offset, copied, Chunk(offset, copied, size));
      var pos := Address(offset, copied);
      if flash.HasPage(pos - pos % PAGE_SIZE) {
        CopiedAll(flash, offset, copied + Chunk(offset, copied, size), size);
      }
    }
  }

  lemma NothingReadable(flash: Flash, offset: nat)
    ensures SpanReadable(flash, offset, 0)
  {
  }

  lemma MoreReadable(flash: Flash, offset: nat, copied: nat, n: nat)
    requires SpanReadable(flash, offset, copied)
    ensures (forall i: nat | copied <= i < copied + n :: flash.Reachable(Address(offset, i))) ==>
            SpanReadable(flash, offset, copied + n)
  {
    hide Address;
  }

  /** The step both page loops share: the page of the next address is read, and holds the next `n` bytes
      of the span from `low` on. */
  method ReadChunk(flash: Flash, offset: u32, copied: nat, size: u32, page: array<byte>)
    returns (ok: bool, low: nat, n: nat)
    requires page.Length == PAGE_SIZE && copied < size && SpanReadable(flash, offset, copied)
    modifies page
    ensures ok ==> 0 < n <= size - copied && low + n <= PAGE_SIZE
    ensures ok ==> SpanReadable(flash, offset, copied + n)
    ensures ok ==> page[low..low + n] == SpanBytes(flash, offset, size)[copied..copied + n]
    ensures !ok ==> !SpanReadable(flash, offset, size) && Copied(flash, offset, copied, size) == copied
    ensures ok ==> Copied(flash, offset, copied, size) == Copied(flash, offset, copied + n, size)
  {
    hide Address, Chunk, SpanReadable, SpanBytes;
    var pos := Address(offset, copied);
    low := pos % PAGE_SIZE;
    n := Chunk(offset, copied, size);
    ChunkIsSpan(flash, offset, copied, size);
    MoreReadable(flash, offset, copied, n);
    ok := ReadPage(flash, pos - low, page);
    assert page[low..low + n] == page[..][low..low + n];
  }

  /** flashReadBytes: copies the span, up to the first page that cannot be read. */
  method FlashReadBytes(flash: Flash, offset: u32, out: array<byte>, at: nat, size: u32) returns (ok: bool)
    requires at + size <= out.Length
    modifies out
    ensures ok == SpanReadable(flash, offset, size)
    ensures out[..] == Patch(old(out[..]), at, SpanBytes(flash, offset, size)[..Copied(flash, offset, 0, size)])
  {
    hide *;
    NothingReadable(flash, offset);
    CopiedAll(flash, offset, 0, size);
    var page := new byte[PAGE_SIZE](_ => 0);
    ghost var was, span := out[..], SpanBytes(flash, offset, size);
    var copied := 0;
    PatchNothing(was, at);
    assert span[..0] == [];
    while copied < size
      invariant copied <= size && fresh(page)
      invariant out[..] == Patch(was, at, span[..copied])
      invariant SpanReadable(flash, offset, copied)
      invariant Copied(flash, offset, copied, size) == Copied(flash, offset, 0, size)
    {
      var n;
      ok, n := CopyChunk(flash, offset, copied, size, page, out, at, was);
      if !ok {
        return;
      }
      copied := copied + n;
    }
    ok := true;
  }

  method CopyChunk(flash: Flash, offset: u32, copied: nat, size: u32, page: array<byte>, out: array<byte>, at: nat,
                   ghost was: seq<byte>) returns (ok: bool, n: nat)
    requires page.Length == PAGE_SIZE && page != out && copied < size && SpanReadable(flash, offset, copied)
    requires |was| == out.Length && at + size <= out.Length
    requires out[..] == Patch(was, at, SpanBytes(flash, offset, size)[..copied])
    modifies page, out
    ensures ok ==> 0 < n <= size - copied && SpanReadable(flash, offset, copied + n)
    ensures ok ==> out[..] == Patch(was, at, SpanBytes(flash, offset, size)[..copied + n])
    ensures ok ==> Copied(flash, offset, copied, size) == Copied(flash, offset, copied + n, size)
    ensures !ok ==> out[..] == old(out[..])
    ensures !ok ==> !SpanReadable(flash, offset, size) && Copied(flash, offset, copied, size) == copied
  {
    hide *;
    var low;
    ok, low, n := ReadChunk(flash, offset, copied, size, page);
    if ok {
      ghost var span, piece := SpanBytes(flash, offset, size), page[low..low + n];
      Store(out, at + copied, page[low..low + n]);
      PatchMore(was, at, span[..copied], piece);
      assert span[..copied + n] == span[..copied] + piece;
    }
  }

  /** checksum32FromFlash: the checksum in one go, page by page; zero if a page cannot be read. */
  method Checksum32FromFlash(flash: Flash, offset: u32, size: u32) returns (value: u32)
    ensures value == if SpanReadable(flash, offset, size) then Fnv.Checksum(SpanBytes(flash, offset, size)) else 0
  {
    hide *;
    NothingReadable(flash, offset);
    var page := new byte[PAGE_SIZE](_ => 0);
    ghost var data := SpanBytes(flash, offset, size);
    value := Fnv.BASIS;
    var copied := 0;
    ChecksumOfNothing(data);
    while copied < size
      invariant copied <= size && fresh(page)
      invariant SpanReadable(flash, offset, copied)
      invariant value == Fnv.Checksum(data[..copied])
    {
      var ok, low, n := ReadChunk(flash, offset, copied, size, page);
      if !ok {
        return 0;
      }
      value := HashOn(value, page, low, n);
      ChecksumOfMore(data, copied, n);
      copied := copied + n;
    }
    assert data[..size] == data;
  }

  lemma ChecksumOfNothing(data: seq<byte>)
    ensures Fnv.Checksum(data[..0]) == Fnv.BASIS
  {
  }

  lemma ChecksumOfMore(data: seq<byte>, copied: nat, n: nat)
    requires copied + n <= |data|
    ensures Fnv.Checksum(data[..copied + n]) == Fnv.Hash(Fnv.Checksum(data[..copied]), data[copied..copied + n])
  {
    hide Fnv.Step;
    assert data[..copied + n] == data[..copied] + data[copied..copied + n];
    Fnv.HashAppend(Fnv.BASIS, data[..copied], data[copied..copied + n]);
  }

  method HashOn(hash: u32, page: array<byte>, low: nat, n: nat) returns (value: u32)
    requires low + n <= page.Length
    ensures value == Fnv.Hash(hash, page[low..low + n])
  {
    hide Fnv.Step;
    value := hash;
    for i := 0 to n
      invariant Fnv.Hash(value, page[low + i..low + n]) == Fnv.Hash(hash, page[low..low + n])
    {
      assert page[low + i..low + n][1..] == page[low + i + 1..low + n];
      value := Fnv.Step(value, page[low + i]);
    }
  }
}
