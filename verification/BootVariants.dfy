/** Packing images for stage0, and the three damaged variants made of a packed image to see stage0 stop. */
module BootVariants {
  import opened Bytes
  import opened Bits
  import opened Memory
  import opened Crc32
  import opened BootImage

  function Filled(n: nat, b: byte): (s: seq<byte>)
    ensures |s| == n && forall i | 0 <= i < n :: s[i] == b
  {
    seq(n, _ => b)
  }

  /** build_header: the header's checksum is taken with its own field zero. */
  function PackedHeader(payload: seq<byte>, load: u32, entry: u32, flags: u32): (h: Header)
    requires |payload| < 0x1_0000_0000
    ensures WellFormed(h)
  {
    var blank := Header(IMAGE_MAGIC, IMAGE_VERSION, IMAGE_HEADER_SIZE, flags, load, entry, |payload|, Crc(payload), 0,
                        IMAGE_HEADER_SIZE, Filled(28, 0));
    blank.(headerCrc := Crc(HeaderBytes(blank)))
  }

  function Pack(payload: seq<byte>, load: u32, entry: u32, flags: u32): (image: seq<byte>)
    requires |payload| < 0x1_0000_0000
    ensures |image| == IMAGE_HEADER_SIZE + |payload|
  {
    HeaderBytes(PackedHeader(payload, load, entry, flags)) + payload
  }

  /** A packed image, field by field. */
  lemma PackedFieldByField(payload: seq<byte>, load: u32, entry: u32, flags: u32)
    requires |payload| < 0x1_0000_0000
    ensures
      var s := Pack(payload, load, entry, flags);
      && Fetch32(s, 0) == 0x4657_4E4E && Fetch16(s, 4) == 1 && Fetch16(s, 6) == 64 && Fetch32(s, 8) == flags
      && Fetch32(s, 12) == load && Fetch32(s, 16) == entry && Fetch32(s, 20) == |payload|
      && Fetch32(s, 24) == Crc(payload) && Fetch32(s, 28) == Crc(s[..28] + [0, 0, 0, 0] + s[32..64])
      && Fetch32(s, 32) == 64 && s[36..64] == Filled(28, 0) && s[64..] == payload
  {
    var h := PackedHeader(payload, load, entry, flags);
    HeaderReads(h, payload);
    SealedBytes(h, payload);
    hide HeaderBytes, Crc, Fetch32, Fetch16;
    assert HeaderBytes(h.(headerCrc := 0)) == HeaderBytes(h)[..28] + [0, 0, 0, 0] + HeaderBytes(h)[32..64];
  }

  lemma SealedBytes(h: Header, rest: seq<byte>)
    requires WellFormed(h)
    ensures
      var s, t := HeaderBytes(h) + rest, HeaderBytes(h.(headerCrc := 0));
      t == s[..28] + [0, 0, 0, 0] + s[32..64] == HeaderBytes(h)[..28] + [0, 0, 0, 0] + HeaderBytes(h)[32..64]
  {
    assert Le32(0) == [0, 0, 0, 0];
    hide Le32, Le16;
  }

  /** The image is in flash, where stage0 looks for one. */
  predicate Installed(flash: seq<byte>, image: seq<byte>) {
    |flash| == 0x80_0000 && 0x24_4000 + |image| <= 0x80_0000 && flash[0x24_4000..0x24_4000 + |image|] == image
  }

  lemma InstalledSlice(flash: seq<byte>, image: seq<byte>, from: nat, to: nat)
    requires Installed(flash, image) && from <= to <= |image|
    ensures flash[IMAGE_BASE + from..IMAGE_BASE + to] == image[from..to]
  {
    SliceOfSlice(flash, IMAGE_BASE, IMAGE_BASE + |image|, from, to);
  }

  lemma InstalledHeader(flash: seq<byte>, h: Header, rest: seq<byte>)
    requires WellFormed(h) && Installed(flash, HeaderBytes(h) + rest)
    ensures ImageHeader(flash) == h
  {
    var image := HeaderBytes(h) + rest;
    InstalledSlice(flash, image, 0, IMAGE_HEADER_SIZE);
    assert image[0..IMAGE_HEADER_SIZE] == HeaderBytes(h) + [];
    hide HeaderBytes, ReadHeader;
    HeaderReads(h, []);
  }

  /** What the caller of the packer has to see to for the image to boot. */
  predicate Bootable(size: nat, load: u32, entry: u32) {
    && size > 0
    && load % 4 == 0 && 0x2000_0000 <= load && load + (size + 3) / 4 * 4 <= 0x2080_0000
    && entry % 4 == 0 && load <= entry < load + size
  }

  lemma EntryExactly(h: Header)
    requires h.load % 4 == 0 && SDRAM_BASE <= h.load && h.load + (h.imageSize + 3) / 4 * 4 <= SDRAM_LIMIT
    ensures Wrap(h.load + h.imageSize) == h.load + h.imageSize
    ensures h.entry < h.load + h.imageSize && h.load <= h.entry && h.entry % 4 == 0 ==> WordOk(h.entry)
  {
  }

  lemma PackedChecksum(payload: seq<byte>, load: u32, entry: u32, flags: u32)
    requires |payload| < 0x1_0000_0000
    ensures HeaderChecksum(PackedHeader(payload, load, entry, flags)) == PackedHeader(payload, load, entry, flags).headerCrc
  {
    hide Crc, HeaderBytes;
  }

  lemma PackedPayload(flash: seq<byte>, payload: seq<byte>, load: u32, entry: u32, flags: u32)
    requires |payload| < 0x1_0000_0000 && Installed(flash, Pack(payload, load, entry, flags))
    ensures ImageHeader(flash) == PackedHeader(payload, load, entry, flags)
    ensures flash[IMAGE_BASE + IMAGE_HEADER_SIZE..IMAGE_BASE + IMAGE_HEADER_SIZE + |payload|] == payload
  {
    var image := Pack(payload, load, entry, flags);
    hide HeaderBytes, Crc, Installed, ImageHeader;
    InstalledHeader(flash, PackedHeader(payload, load, entry, flags), payload);
    InstalledSlice(flash, image, IMAGE_HEADER_SIZE, |image|);
  }

  lemma PackedFault(payload: seq<byte>, load: u32, entry: u32, flags: u32)
    requires IMAGE_BASE + IMAGE_HEADER_SIZE + |payload| <= FLASH_SIZE
    ensures HeaderFault(PackedHeader(payload, load, entry, flags)) == None && entry % 4 == 0 && WordOk(entry) <==>
            Bootable(|payload|, load, entry)
  {
    var h := PackedHeader(payload, load, entry, flags);
    FaultExactly(h);
    PackedChecksum(payload, load, entry, flags);
    hide Crc, HeaderBytes, HeaderChecksum, HeaderFault, Wrap;
    if h.load % 4 == 0 && SDRAM_BASE <= h.load && h.load + (h.imageSize + 3) / 4 * 4 <= SDRAM_LIMIT {
      EntryExactly(h);
    }
  }

  /** A packed image boots to its entry exactly if its addresses are bootable. */
  lemma PackedImageBoots(flash: seq<byte>, sdram: seq<byte>, payload: seq<byte>, load: u32, entry: u32, flags: u32)
    requires |payload| < 0x1_0000_0000 && Installed(flash, Pack(payload, load, entry, flags)) && |sdram| == SDRAM_SIZE
    ensures Boot(flash, sdram).0 == Jump(entry) <==> Bootable(|payload|, load, entry)
  {
    hide *;
    var h := PackedHeader(payload, load, entry, flags);
    InstalledSize(flash, Pack(payload, load, entry, flags));
    PackedPayload(flash, payload, load, entry, flags);
    PackedFault(payload, load, entry, flags);
    PackedFields(payload, load, entry, flags);
    JumpExactly(flash, sdram, h, payload);
  }

  lemma JumpExactly(flash: seq<byte>, sdram: seq<byte>, h: Header, payload: seq<byte>)
    requires IsFlash(flash) && |sdram| == SDRAM_SIZE && ImageHeader(flash) == h
    requires |payload| == h.imageSize && IMAGE_BASE + h.imageOffset + h.imageSize <= |flash|
    requires flash[IMAGE_BASE + h.imageOffset..IMAGE_BASE + h.imageOffset + h.imageSize] == payload
    requires Crc(payload) == h.imageCrc
    ensures Boot(flash, sdram).0 == Jump(h.entry) <==> HeaderFault(h) == None && h.entry % 4 == 0 && WordOk(h.entry)
  {
    hide HeaderFault, ImageHeader, Crc, Patch, WordOk;
  }

  // The variants

  datatype Variants = Variants(badCrc: seq<byte>, badSize: seq<byte>, missing: seq<byte>)

  const BAD_SIZE: u32 := 0x90_0000

  /** with_recomputed_header_crc */
  function Resealed(h: Header): (r: Header)
    requires WellFormed(h)
    ensures WellFormed(r)
  {
    h.(headerCrc := Crc(HeaderBytes(h.(headerCrc := 0))))
  }

  function FlippedPayload(image: seq<byte>): (r: seq<byte>)
    requires IMAGE_HEADER_SIZE <= |image|
    ensures |r| == |image|
  {
    var h := ReadHeader(image);
    if h.imageSize > 0 && h.imageOffset < |image| then image[h.imageOffset := Xor8(image[h.imageOffset], 1)] else image
  }

  function Oversized(image: seq<byte>): (r: seq<byte>)
    requires IMAGE_HEADER_SIZE <= |image|
    ensures |r| == |image|
  {
    HeaderBytes(Resealed(ReadHeader(image).(imageSize := BAD_SIZE))) + image[IMAGE_HEADER_SIZE..]
  }

  /** An erased flash sector. */
  function Erased(): (s: seq<byte>)
    ensures |s| == 4096 && forall i | 0 <= i < 4096 :: s[i] == 0xFF
  {
    Filled(4096, 0xFF)
  }

  /** Makes the three variants; nothing if the image is too small to have a header. */
  method MakeVariants(image: seq<byte>) returns (r: Option<Variants>)
    ensures
      r == if |image| < IMAGE_HEADER_SIZE then None
           else Some(Variants(FlippedPayload(image), Oversized(image), Erased()))
  {
    hide ReadHeader, HeaderBytes, Resealed, Xor8;
    if |image| < IMAGE_HEADER_SIZE {
      return None;
    }
    var h := ReadHeader(image);
    var crcBad := new byte[|image|](i requires 0 <= i < |image| => image[i]);
    assert crcBad[..] == image;
    if h.imageSize > 0 && h.imageOffset < crcBad.Length {
      crcBad[h.imageOffset] := Xor8(crcBad[h.imageOffset], 1);
    }
    var badCrc := crcBad[..];
    assert badCrc == FlippedPayload(image);
    var sizeBad := new byte[|image|](i requires 0 <= i < |image| => image[i]);
    assert sizeBad[..] == image;
    var header := HeaderBytes(Resealed(h.(imageSize := BAD_SIZE)));
    for i := 0 to IMAGE_HEADER_SIZE
      invariant sizeBad[..i] == header[..i] && sizeBad[IMAGE_HEADER_SIZE..] == image[IMAGE_HEADER_SIZE..]
    {
      sizeBad[i] := header[i];
    }
    assert sizeBad[..] == sizeBad[..IMAGE_HEADER_SIZE] + sizeBad[IMAGE_HEADER_SIZE..];
    assert header[..IMAGE_HEADER_SIZE] == header;
    assert sizeBad[..] == Oversized(image);
    r := Some(Variants(badCrc, sizeBad[..], Erased()));
  }

  lemma FlipChanges(b: byte)
    ensures Xor8(b, 1) != b
  {
    XorUnfold(b, 1);
  }

  lemma PackedReads(payload: seq<byte>, load: u32, entry: u32, flags: u32)
    requires |payload| < 0x1_0000_0000
    ensures ReadHeader(Pack(payload, load, entry, flags)) == PackedHeader(payload, load, entry, flags)
  {
    hide HeaderBytes, ReadHeader, PackedHeader;
    HeaderReads(PackedHeader(payload, load, entry, flags), payload);
  }

  lemma FlippedIs(payload: seq<byte>, load: u32, entry: u32, flags: u32)
    requires 0 < |payload| < 0x1_0000_0000
    ensures FlippedPayload(Pack(payload, load, entry, flags)) ==
            HeaderBytes(PackedHeader(payload, load, entry, flags)) + payload[0 := Xor8(payload[0], 1)]
  {
    PackedReads(payload, load, entry, flags);
    hide HeaderBytes, ReadHeader, Crc, Xor8;
  }

  lemma FlippedCrc(payload: seq<byte>)
    requires payload != []
    ensures Crc(payload[0 := Xor8(payload[0], 1)]) != Crc(payload)
  {
    FlipChanges(payload[0]);
    hide Crc, Xor8;
    FourBytesDetected([], [payload[0]], [Xor8(payload[0], 1)], payload[1..]);
    assert [] + [payload[0]] + payload[1..] == payload;
    assert [] + [Xor8(payload[0], 1)] + payload[1..] == payload[0 := Xor8(payload[0], 1)];
  }

  /** Stage0 stops at the checksum of the payload for the first variant of every bootable image. */
  lemma BadCrcStops(flash: seq<byte>, sdram: seq<byte>, payload: seq<byte>, load: u32, entry: u32, flags: u32)
    requires |payload| < 0x1_0000_0000 && Bootable(|payload|, load, entry) && |sdram| == SDRAM_SIZE
    requires Installed(flash, FlippedPayload(Pack(payload, load, entry, flags)))
    ensures Boot(flash, sdram).0 == Stopped(PayloadCrc)
  {
    hide *;
    var h := PackedHeader(payload, load, entry, flags);
    BootableSize(payload, load, entry);
    var flipped := payload[0 := Xor8(payload[0], 1)];
    FlippedIs(payload, load, entry, flags);
    FlippedCrc(payload);
    assert |HeaderBytes(h)| == IMAGE_HEADER_SIZE;
    InstalledSize(flash, HeaderBytes(h) + flipped);
    PackedFields(payload, load, entry, flags);
    assert |flipped| == |payload|;
    PackedFault(payload, load, entry, flags);
    InstalledHeader(flash, h, flipped);
    InstalledSlice(flash, HeaderBytes(h) + flipped, IMAGE_HEADER_SIZE, IMAGE_HEADER_SIZE + |payload|);
    assert (HeaderBytes(h) + flipped)[IMAGE_HEADER_SIZE..IMAGE_HEADER_SIZE + |payload|] == flipped;
    PayloadStops(flash, sdram, h, flipped);
  }

  lemma BootableSize(payload: seq<byte>, load: u32, entry: u32)
    requires Bootable(|payload|, load, entry)
    ensures payload != []
  {
  }

  lemma InstalledSize(flash: seq<byte>, image: seq<byte>)
    requires Installed(flash, image)
    ensures IsFlash(flash) && IMAGE_BASE + |image| <= FLASH_SIZE == |flash|
  {
  }

  lemma PackedFields(payload: seq<byte>, load: u32, entry: u32, flags: u32)
    requires |payload| < 0x1_0000_0000
    ensures
      var h := PackedHeader(payload, load, entry, flags);
      && h.imageOffset == IMAGE_HEADER_SIZE && h.imageSize == |payload| && h.imageCrc == Crc(payload)
      && h.entry == entry
  {
    hide Crc, HeaderBytes;
  }

  lemma PayloadStops(flash: seq<byte>, sdram: seq<byte>, h: Header, payload: seq<byte>)
    requires IsFlash(flash) && |sdram| == SDRAM_SIZE && ImageHeader(flash) == h && HeaderFault(h) == None
    requires |payload| == h.imageSize && IMAGE_BASE + h.imageOffset + h.imageSize <= |flash|
    requires flash[IMAGE_BASE + h.imageOffset..IMAGE_BASE + h.imageOffset + h.imageSize] == payload
    requires Crc(payload) != h.imageCrc
    ensures Boot(flash, sdram).0 == Stopped(PayloadCrc)
  {
    hide HeaderFault, ImageHeader, Crc, Patch, WordOk;
  }

  lemma HeaderStops(flash: seq<byte>, sdram: seq<byte>, fault: Fault)
    requires IsFlash(flash) && |sdram| == SDRAM_SIZE && HeaderFault(ImageHeader(flash)) == Some(fault)
    ensures Boot(flash, sdram) == (Stopped(fault), sdram)
  {
    hide HeaderFault, ImageHeader, Crc, Patch, WordOk;
  }

  lemma OversizedFault(h: Header)
    requires WellFormed(h) && h.magic == IMAGE_MAGIC && h.version == IMAGE_VERSION
    requires h.size == h.imageOffset == IMAGE_HEADER_SIZE
    ensures HeaderFault(Resealed(h.(imageSize := BAD_SIZE))) == Some(ImageSize)
  {
    hide HeaderBytes, Crc, HeaderChecksum, FlashRangeOk;
    ResealedChecksum(h.(imageSize := BAD_SIZE));
    OversizedRange(Resealed(h.(imageSize := BAD_SIZE)));
  }

  lemma ResealedChecksum(h: Header)
    requires WellFormed(h)
    ensures HeaderChecksum(Resealed(h)) == Resealed(h).headerCrc
  {
    hide HeaderBytes, Crc;
    assert Resealed(h).(headerCrc := 0) == h.(headerCrc := 0);
  }

  lemma OversizedRange(h: Header)
    requires h.imageOffset == IMAGE_HEADER_SIZE && h.imageSize == BAD_SIZE
    ensures !FlashRangeOk(h)
  {
  }

  lemma ResizedIsWell(h: Header)
    requires WellFormed(h)
    ensures WellFormed(h.(imageSize := BAD_SIZE))
  {
  }

  /** It stops at the image size for the second. */
  lemma BadSizeStops(flash: seq<byte>, sdram: seq<byte>, payload: seq<byte>, load: u32, entry: u32, flags: u32)
    requires |payload| < 0x1_0000_0000 && |sdram| == SDRAM_SIZE
    requires Installed(flash, Oversized(Pack(payload, load, entry, flags)))
    ensures Boot(flash, sdram).0 == Stopped(ImageSize)
  {
    hide *;
    var h := PackedHeader(payload, load, entry, flags);
    ResizedIsWell(h);
    var big := Resealed(h.(imageSize := BAD_SIZE));
    var rest := Pack(payload, load, entry, flags)[IMAGE_HEADER_SIZE..];
    OversizedIs(payload, load, entry, flags);
    InstalledSize(flash, HeaderBytes(big) + rest);
    InstalledHeader(flash, big, rest);
    PackedKind(payload, load, entry, flags);
    OversizedFault(h);
    HeaderStops(flash, sdram, ImageSize);
  }

  lemma OversizedIs(payload: seq<byte>, load: u32, entry: u32, flags: u32)
    requires |payload| < 0x1_0000_0000
    ensures
      var image := Pack(payload, load, entry, flags);
      Oversized(image) ==
      HeaderBytes(Resealed(PackedHeader(payload, load, entry, flags).(imageSize := BAD_SIZE))) + image[IMAGE_HEADER_SIZE..]
  {
    PackedReads(payload, load, entry, flags);
    hide HeaderBytes, ReadHeader, Pack, PackedHeader, Crc;
  }

  lemma PackedKind(payload: seq<byte>, load: u32, entry: u32, flags: u32)
    requires |payload| < 0x1_0000_0000
    ensures
      var h := PackedHeader(payload, load, entry, flags);
      h.magic == IMAGE_MAGIC && h.version == IMAGE_VERSION && h.size == h.imageOffset == IMAGE_HEADER_SIZE
  {
    hide Crc, HeaderBytes;
  }

  /** And it finds no image in the third. */
  lemma MissingStops(flash: seq<byte>, sdram: seq<byte>)
    requires Installed(flash, Erased()) && |sdram| == SDRAM_SIZE
    ensures Boot(flash, sdram).0 == Stopped(ImageAbsent)
  {
    InstalledSlice(flash, Erased(), 0, IMAGE_HEADER_SIZE);
    var raw := flash[IMAGE_BASE + 0..IMAGE_BASE + IMAGE_HEADER_SIZE];
    assert raw[0] == 0xFF && raw[1] == 0xFF && raw[2] == 0xFF && raw[3] == 0xFF;
  }

  /** A change of up to four consecutive payload bytes of any image that boots stops stage0 at the
      checksum. */
  lemma TamperedPayloadStops(flash: seq<byte>, tampered: seq<byte>, sdram: seq<byte>, at: nat, n: nat)
    requires IsFlash(flash) && |sdram| == SDRAM_SIZE && Boot(flash, sdram).0.Jump?
    requires n <= 4 && IsFlash(tampered) && tampered != flash
    requires
      var h := ImageHeader(flash);
      IMAGE_BASE + h.imageOffset <= at && at + n <= IMAGE_BASE + h.imageOffset + h.imageSize && at + n <= FLASH_SIZE
    requires tampered[..at] == flash[..at] && tampered[at + n..] == flash[at + n..]
    ensures Boot(tampered, sdram).0 == Stopped(PayloadCrc)
  {
    hide *;
    var h := ImageHeader(flash);
    var from, to := IMAGE_BASE + h.imageOffset, IMAGE_BASE + h.imageOffset + h.imageSize;
    JumpHeader(flash, sdram);
    HeaderBefore(flash, tampered, at);
    SplitAround(flash, from, at, at + n, to);
    SplitAround(tampered, from, at, at + n, to);
    SamePrefix(tampered, flash, at, from, at);
    SameSuffix(tampered, flash, at + n, at + n, to);
    assert tampered == tampered[..at] + tampered[at..at + n] + tampered[at + n..];
    assert flash == flash[..at] + flash[at..at + n] + flash[at + n..];
    FourBytesDetected(flash[from..at], flash[at..at + n], tampered[at..at + n], flash[at + n..to]);
    PayloadStops(tampered, sdram, h, tampered[from..to]);
  }

  lemma JumpHeader(flash: seq<byte>, sdram: seq<byte>)
    requires IsFlash(flash) && |sdram| == SDRAM_SIZE && Boot(flash, sdram).0.Jump?
    ensures
      var h := ImageHeader(flash);
      && HeaderFault(h) == None && h.imageOffset >= IMAGE_HEADER_SIZE
      && IMAGE_BASE + h.imageOffset + h.imageSize <= FLASH_SIZE == |flash|
      && Crc(flash[IMAGE_BASE + h.imageOffset..IMAGE_BASE + h.imageOffset + h.imageSize]) == h.imageCrc
  {
    hide ImageHeader, Crc, Patch, WordOk, HeaderChecksum, CopySpanOk;
    AcceptedRanges(ImageHeader(flash));
  }

  lemma HeaderBefore(flash: seq<byte>, tampered: seq<byte>, at: nat)
    requires IsFlash(flash) && IsFlash(tampered) && IMAGE_BASE + IMAGE_HEADER_SIZE <= at <= FLASH_SIZE
    requires tampered[..at] == flash[..at]
    ensures |flash| == |tampered| == FLASH_SIZE
    ensures ImageHeader(tampered) == ImageHeader(flash)
  {
    hide ReadHeader;
    SamePrefix(tampered, flash, at, IMAGE_BASE, IMAGE_BASE + IMAGE_HEADER_SIZE);
  }

  lemma SamePrefix(a: seq<byte>, b: seq<byte>, n: nat, i: nat, j: nat)
    requires n <= |a| && n <= |b| && a[..n] == b[..n] && i <= j <= n
    ensures a[i..j] == b[i..j]
  {
    assert a[i..j] == a[..n][i..j] && b[i..j] == b[..n][i..j];
  }

  lemma SameSuffix(a: seq<byte>, b: seq<byte>, n: nat, i: nat, j: nat)
    requires n <= i <= j <= |a| == |b| && a[n..] == b[n..]
    ensures a[i..j] == b[i..j]
  {
    SliceOfSlice(a, n, |a|, i - n, j - n);
    SliceOfSlice(b, n, |b|, i - n, j - n);
    assert a[n..|a|] == a[n..] && b[n..|b|] == b[n..];
  }

  lemma SplitAround(s: seq<byte>, from: nat, a: nat, b: nat, to: nat)
    requires from <= a <= b <= to <= |s|
    ensures s[from..to] == s[from..a] + s[a..b] + s[b..to]
  {
  }
}
