/** Boot images: the header stage0 reads, the checks it makes, and what booting comes to. */
module BootImage {
  import opened Bytes
  import opened Memory
  import opened Crc32

  const IMAGE_BASE: u32 := 0x24_4000
  const SDRAM_LIMIT: u32 := SDRAM_BASE + SDRAM_SIZE

  const IMAGE_MAGIC: u32 := 0x4657_4E4E
  const IMAGE_VERSION: u16 := 1
  const IMAGE_HEADER_SIZE: nat := 64

  datatype Header = Header(
    magic: u32,
    version: u16,
    size: u16,
    flags: u32,
    load: u32,
    entry: u32,
    imageSize: u32,
    imageCrc: u32,
    headerCrc: u32,
    imageOffset: u32,
    reserved: seq<byte>
  )

  predicate WellFormed(h: Header) {
    |h.reserved| == 28
  }

  function HeaderBytes(h: Header): (s: seq<byte>)
    requires WellFormed(h)
    ensures |s| == IMAGE_HEADER_SIZE
  {
    Le32(h.magic) + Le16(h.version) + Le16(h.size) + Le32(h.flags) + Le32(h.load) + Le32(h.entry) + Le32(h.imageSize) +
    Le32(h.imageCrc) + Le32(h.headerCrc) + Le32(h.imageOffset) + h.reserved
  }

  function ReadHeader(s: seq<byte>): (h: Header)
    requires IMAGE_HEADER_SIZE <= |s|
    ensures WellFormed(h)
  {
    Header(Fetch32(s, 0), Fetch16(s, 4), Fetch16(s, 6), Fetch32(s, 8), Fetch32(s, 12), Fetch32(s, 16), Fetch32(s, 20),
           Fetch32(s, 24), Fetch32(s, 28), Fetch32(s, 32), s[36..64])
  }

  lemma HeaderReads(h: Header, rest: seq<byte>)
    requires WellFormed(h)
    ensures ReadHeader(HeaderBytes(h) + rest) == h
  {
    var s := HeaderBytes(h) + rest;
    hide Le16, Le32, Fetch16, Fetch32;
    FetchLe32(h.magic, s, 0);
    FetchLe16(h.version, s, 4);
    FetchLe16(h.size, s, 6);
    FetchLe32(h.flags, s, 8);
    FetchLe32(h.load, s, 12);
    FetchLe32(h.entry, s, 16);
    FetchLe32(h.imageSize, s, 20);
    FetchLe32(h.imageCrc, s, 24);
    FetchLe32(h.headerCrc, s, 28);
    FetchLe32(h.imageOffset, s, 32);
  }

  // The checks, in wrapping 32-bit arithmetic

  function Wrap(x: int): u32 {
    x % 0x1_0000_0000
  }

  /** addr_range_ok */
  predicate RangeOk(start: u32, size: u32) {
    size != 0 && SDRAM_BASE <= start && start <= Wrap(start + size) <= SDRAM_LIMIT
  }

  /** aligned_copy_span_ok */
  predicate CopySpanOk(start: u32, size: u32) {
    var padded := Wrap(size + 3) / 4 * 4;
    start % 4 == 0 && size <= padded && RangeOk(start, padded)
  }

  /** image_flash_range_ok */
  predicate FlashRangeOk(h: Header) {
    var start := Wrap(IMAGE_BASE + h.imageOffset);
    IMAGE_BASE <= start && start <= Wrap(start + h.imageSize) <= FLASH_SIZE
  }

  /** word_addr_ok */
  predicate WordOk(at: u32) {
    SDRAM_BASE <= at && at <= Wrap(at + 4) <= SDRAM_LIMIT
  }

  datatype Fault =
    | HeaderRead
    | ImageAbsent
    | HeaderMagic
    | HeaderVersion
    | HeaderSize
    | HeaderCrc
    | ImageSize
    | EntryRange
    | ImageRead
    | PayloadCrc
    | CopyRange
    | EntryAlign

  /** The header's checksum: its own field counts as zero. */
  function HeaderChecksum(h: Header): u32
    requires WellFormed(h)
  {
    Crc(HeaderBytes(h.(headerCrc := 0)))
  }

  /** header_fault */
  function HeaderFault(h: Header): Option<Fault>
    requires WellFormed(h)
  {
    FaultWith(h, HeaderChecksum(h))
  }

  /** The checks in their order, given the computed checksum. */
  function FaultWith(h: Header, checksum: u32): Option<Fault> {
    if h.magic == 0xFFFF_FFFF then Some(ImageAbsent)
    else if h.magic != IMAGE_MAGIC then Some(HeaderMagic)
    else if h.version != IMAGE_VERSION then Some(HeaderVersion)
    else if h.size != IMAGE_HEADER_SIZE then Some(HeaderSize)
    else if checksum != h.headerCrc then Some(HeaderCrc)
    else if h.imageOffset < h.size || !FlashRangeOk(h) then Some(ImageSize)
    else if !RangeOk(h.load, h.imageSize) then Some(ImageSize)
    else if !CopySpanOk(h.load, h.imageSize) then Some(CopyRange)
    else if h.entry < h.load || Wrap(h.load + h.imageSize) <= h.entry then Some(EntryRange)
    else None
  }

  /** The header is one stage0 reads, with the right checksum. */
  predicate WellMade(h: Header)
    requires WellFormed(h)
  {
    && h.magic == IMAGE_MAGIC && h.version == IMAGE_VERSION && h.size == IMAGE_HEADER_SIZE
    && HeaderChecksum(h) == h.headerCrc
  }

  /** The image lies in flash behind its header, and in SDRAM once it is loaded. */
  predicate ImageFits(h: Header) {
    && h.size <= h.imageOffset && IMAGE_BASE + h.imageOffset + h.imageSize <= FLASH_SIZE
    && h.imageSize > 0 && SDRAM_BASE <= h.load && h.load + h.imageSize <= SDRAM_LIMIT
  }

  /** It can be copied word by word: the last word is still in SDRAM. */
  predicate WordsFit(h: Header) {
    h.load % 4 == 0 && h.load + (h.imageSize + 3) / 4 * 4 <= SDRAM_LIMIT
  }

  lemma FlashRangeExactly(h: Header)
    ensures FlashRangeOk(h) <==> IMAGE_BASE + h.imageOffset + h.imageSize <= FLASH_SIZE
  {
  }

  lemma RangeExactly(start: u32, size: u32)
    ensures RangeOk(start, size) <==> size > 0 && SDRAM_BASE <= start && start + size <= SDRAM_LIMIT
  {
  }

  lemma FitsExactly(h: Header)
    ensures h.size <= h.imageOffset && FlashRangeOk(h) && RangeOk(h.load, h.imageSize) <==> ImageFits(h)
    ensures ImageFits(h) ==> Wrap(h.load + h.imageSize) == h.load + h.imageSize
  {
    FlashRangeExactly(h);
    RangeExactly(h.load, h.imageSize);
    hide FlashRangeOk, RangeOk;
  }

  lemma CopySpanExactly(h: Header)
    requires ImageFits(h)
    ensures CopySpanOk(h.load, h.imageSize) <==> WordsFit(h)
  {
    var words := (h.imageSize + 3) / 4;
    assert words * 4 == h.imageSize + 3 - (h.imageSize + 3) % 4;
    RangeExactly(h.load, words * 4);
    hide RangeOk;
  }

  lemma IllMadeFault(h: Header)
    requires WellFormed(h) && !WellMade(h)
    ensures HeaderFault(h).Some? && HeaderFault(h) != Some(ImageSize) && HeaderFault(h) != Some(CopyRange)
  {
    hide HeaderChecksum, FlashRangeOk, RangeOk, CopySpanOk, Wrap;
  }

  /** The checks of a header that is well made. */
  lemma RestOfFault(h: Header)
    requires WellFormed(h) && WellMade(h)
    ensures HeaderFault(h) ==
      if h.imageOffset < h.size || !FlashRangeOk(h) then Some(ImageSize)
      else if !RangeOk(h.load, h.imageSize) then Some(ImageSize)
      else if !CopySpanOk(h.load, h.imageSize) then Some(CopyRange)
      else if h.entry < h.load || Wrap(h.load + h.imageSize) <= h.entry then Some(EntryRange)
      else None
  {
    hide HeaderChecksum, FlashRangeOk, RangeOk, CopySpanOk, Wrap;
  }

  lemma WellMadeFault(h: Header)
    requires WellFormed(h) && WellMade(h)
    ensures HeaderFault(h) ==
      if !ImageFits(h) then Some(ImageSize)
      else if !WordsFit(h) then Some(CopyRange)
      else if h.load <= h.entry < h.load + h.imageSize then None
      else Some(EntryRange)
  {
    hide HeaderFault, WellMade, FlashRangeOk, RangeOk, CopySpanOk, ImageFits, WordsFit, Wrap;
    RestOfFault(h);
    FitsExactly(h);
    if ImageFits(h) {
      CopySpanExactly(h);
    }
  }

  /** The checks wrap, and mean what they mean in unbounded arithmetic: the first that fails tells what is
      wrong, and none does exactly if the image fits everywhere and is entered in its own bytes. */
  lemma FaultExactly(h: Header)
    requires WellFormed(h)
    ensures HeaderFault(h) == None <==>
            WellMade(h) && ImageFits(h) && WordsFit(h) && h.load <= h.entry < h.load + h.imageSize
    ensures HeaderFault(h) == Some(ImageSize) <==> WellMade(h) && !ImageFits(h)
    ensures HeaderFault(h) == Some(CopyRange) <==> WellMade(h) && ImageFits(h) && !WordsFit(h)
  {
    if WellMade(h) {
      WellMadeFault(h);
    } else {
      IllMadeFault(h);
    }
    hide HeaderFault, WellMade, ImageFits, WordsFit;
  }

  // What booting comes to

  datatype Outcome = Stopped(fault: Fault) | Jump(entry: u32)

  predicate IsFlash(flash: seq<byte>) {
    |flash| == FLASH_SIZE
  }

  function ImageHeader(flash: seq<byte>): (h: Header)
    requires IsFlash(flash)
    ensures WellFormed(h)
  {
    ReadHeader(flash[IMAGE_BASE..IMAGE_BASE + IMAGE_HEADER_SIZE])
  }

  /** An accepted header describes ranges that do not wrap and stay in flash and SDRAM. */
  lemma AcceptedRanges(h: Header)
    requires WellFormed(h) && HeaderFault(h) == None
    ensures h.imageSize > 0 && h.load % 4 == 0
    ensures IMAGE_BASE + h.imageOffset + h.imageSize <= FLASH_SIZE
    ensures SDRAM_BASE <= h.load && h.load + (h.imageSize + 3) / 4 * 4 <= SDRAM_LIMIT
    ensures h.load <= h.entry < h.load + h.imageSize
  {
    FaultExactly(h);
    hide HeaderFault, HeaderChecksum;
  }

  function Payload(flash: seq<byte>, h: Header): (s: seq<byte>)
    requires IsFlash(flash) && WellFormed(h) && HeaderFault(h) == None
    ensures |s| == h.imageSize
  {
    AcceptedRanges(h);
    flash[IMAGE_BASE + h.imageOffset..IMAGE_BASE + h.imageOffset + h.imageSize]
  }

  /** Stage0 on a flash whose reads succeed: how it ends, and SDRAM then. */
  function Boot(flash: seq<byte>, sdram: seq<byte>): (r: (Outcome, seq<byte>))
    requires IsFlash(flash) && |sdram| == SDRAM_SIZE
    ensures |r.1| == SDRAM_SIZE
  {
    var h := ImageHeader(flash);
    if HeaderFault(h).Some? then (Stopped(HeaderFault(h).value), sdram)
    else
      AcceptedRanges(h);
      var loaded := Patch(sdram, h.load - SDRAM_BASE, Payload(flash, h));
      if Crc(Payload(flash, h)) != h.imageCrc then (Stopped(PayloadCrc), loaded)
      else if h.entry % 4 != 0 || !WordOk(h.entry) then (Stopped(EntryAlign), loaded)
      else (Jump(h.entry), loaded)
  }

  /** If stage0 reaches the jump, SDRAM holds the payload where it is to be loaded and is otherwise as
      it was, no range wrapped or left flash or SDRAM, and the entry is a word of the payload. */
  lemma JumpMeans(flash: seq<byte>, sdram: seq<byte>)
    requires IsFlash(flash) && |sdram| == SDRAM_SIZE && Boot(flash, sdram).0.Jump?
    ensures
      var h, loaded := ImageHeader(flash), Boot(flash, sdram).1;
      var from, at := IMAGE_BASE + h.imageOffset, h.load - SDRAM_BASE;
      && from + h.imageSize <= FLASH_SIZE && 0 <= at && at + h.imageSize <= SDRAM_SIZE
      && loaded[at..at + h.imageSize] == flash[from..from + h.imageSize]
      && loaded[..at] == sdram[..at] && loaded[at + h.imageSize..] == sdram[at + h.imageSize..]
      && Crc(flash[from..from + h.imageSize]) == h.imageCrc
      && Boot(flash, sdram).0.entry % 4 == 0
      && h.load <= Boot(flash, sdram).0.entry < h.load + h.imageSize
  {
    hide HeaderFault, Crc, ReadHeader;
    AcceptedRanges(ImageHeader(flash));
  }
}
