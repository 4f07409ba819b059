/** Loading an object straight from flash: the same object, checked and linked record by record, by
    other rules than the linker's. */
module FlashLinker {
  import opened Bytes
  import opened Memory
  import opened Isa
  import opened Literals
  import opened Assembler
  import opened ObjectFile
  import opened ObjectParser
  import opened Catalog
  import opened Linker
  import opened FlashPages
  import Fnv

  datatype LoadStatus =
    | LoadOk
    | SlotOutOfRange
    | ParseFailed
    | FlashReadFailed
    | ChecksumMismatch
    | BytecodeTooLarge
    | UnsupportedOpcode
    | LinkFailed

  /** validateObjectFileHeader: the end of the code is computed in wrapping 32-bit arithmetic. */
  predicate HeaderAccepted(h: Header, capacity: nat) {
    && h.magic == MAGIC && h.version == VERSION && h.abiVersion == ABI_VERSION
    && HEADER_SIZE <= h.totalSize <= capacity
    && h.entryOffset <= h.codeSize
    && (HEADER_SIZE + h.codeSize) % 0x1_0000_0000 <= h.totalSize
    && HEADER_SIZE <= h.symbolTableOffset <= h.totalSize
    && HEADER_SIZE <= h.relocationTableOffset <= h.totalSize
    && (h.symbolTableOffset + SYMBOL_SIZE * h.symbolCount) % 0x1_0000_0000 <= h.totalSize
    && (h.relocationTableOffset + RELOCATION_SIZE * h.relocationCount) % 0x1_0000_0000 <= h.totalSize
  }

  /** The checksum over flash, as checksum32FromFlash computes it. */
  function FlashChecksum(flash: Flash, offset: nat, size: nat): u32 {
    match Span(flash, offset, size)
    case Some(data) => Fnv.Checksum(data)
    case None => 0
  }

  /** The header the loader goes on with. */
  function FlashHeader(flash: Flash, offset: u32, capacity: nat): Result<Header, LoadStatus> {
    if capacity < HEADER_SIZE then Err(ParseFailed)
    else
      match Span(flash, offset, HEADER_SIZE)
      case None => Err(FlashReadFailed)
      case Some(bytes) =>
        var h := ReadHeader(bytes);
        if !HeaderAccepted(h, capacity) then Err(ParseFailed)
        else if FlashChecksum(flash, Address(offset, HEADER_SIZE), h.totalSize - HEADER_SIZE) != h.checksum then
          Err(ChecksumMismatch)
        else Ok(h)
  }

  /** The loader's resolveSymbolRecord: it refuses built-in names and does not look at the slot. */
  function FlashRecord(context: Context, record: SymbolRecord): Option<SymbolRecord> {
    if record.kind != SLOT_VAR then Some(record)
    else if context.points == [] || record.name == "" || record.name in BUILTIN_POINTS then None
    else if !SupportedSlotVariableType(record.expectedType) then None
    else
      var feature := SlotFeature(context.slot);
      Some(record.(id := Identity(SlotDevice(context.points, feature), feature, record.name)))
  }

  function RecordAddress(offset: u32, table: u32, size: nat, i: nat): u32 {
    (offset + table + size * i) % 0x1_0000_0000
  }

  /** One relocation, its record and its symbol's record read from flash. */
  function FlashRelocate(context: Context, flash: Flash, offset: u32, h: Header, i: u16, code: seq<byte>,
                         report: Report): (r: (Report, seq<byte>))
    requires |code| == h.codeSize
    ensures |r.1| == |code|
  {
    var started := report.(failingRelocation := i);
    var bytes := Span(flash, RecordAddress(offset, h.relocationTableOffset, RELOCATION_SIZE, i), RELOCATION_SIZE);
    if bytes.None? then (started.(status := RelocationOutOfRange), code)
    else
      var relocation := ReadRelocation(bytes.value);
      if h.symbolCount <= relocation.symbolIndex then
        (started.(status := SymbolIndexOutOfRange, failingSymbol := relocation.symbolIndex), code)
      else if PatchSize(relocation.kind) == 0 then (started.(status := UnsupportedRelocationKind), code)
      else if h.codeSize < relocation.codeOffset + PatchSize(relocation.kind) then
        (started.(status := RelocationOutOfRange), code)
      else
        var found := started.(failingSymbol := relocation.symbolIndex);
        var symbol := Span(flash, RecordAddress(offset, h.symbolTableOffset, SYMBOL_SIZE, relocation.symbolIndex),
                           SYMBOL_SIZE);
        if symbol.None? then (found.(status := SymbolIndexOutOfRange), code)
        else
          var record := FlashRecord(context, ReadSymbol(symbol.value));
          if record.None? then (found.(status := ResolveFailed, resolveStatus := UnsupportedPointType), code)
          else
            var link := ResolveLinkRequest(context.publisher, context.points, record.value.id,
                                           record.value.expectedType, record.value.access);
            if link.status != Resolved then (found.(status := ResolveFailed, resolveStatus := link.status), code)
            else
              (found.(resolveStatus := link.status, resolved := report.resolved + 1),
               Patch(code, relocation.codeOffset, PatchBytes(relocation.kind, link)))
  }

  function FlashRelocateFrom(context: Context, flash: Flash, offset: u32, h: Header, i: nat, code: seq<byte>,
                             report: Report): (r: (Report, seq<byte>))
    requires i <= h.relocationCount && |code| == h.codeSize && report.status == LinkOk
    ensures |r.1| == |code|
    decreases h.relocationCount - i
  {
    if i == h.relocationCount then (report.(failingSymbol := NONE16, failingRelocation := NONE16), code)
    else
      var next := FlashRelocate(context, flash, offset, h, i, code, report);
      if next.0.status == LinkOk then FlashRelocateFrom(context, flash, offset, h, i + 1, next.1, next.0) else next
  }

  function BeginFlash(h: Header): Report {
    Report(LinkOk, Resolved, NONE16, NONE16, 0, h.codeSize, h.entryOffset)
  }

  /** What linkObjectFileFromFlash reports and leaves in the code area, into which the code has been
      read before. */
  function FlashLink(context: Context, flash: Flash, offset: u32, h: Header, code: seq<byte>, capacity: nat)
    : (r: (Report, seq<byte>))
    requires |code| == h.codeSize
    ensures |r.1| == |code|
  {
    if capacity < h.codeSize then (BeginFlash(h).(status := OutputTooSmall), code)
    else FlashRelocateFrom(context, flash, offset, h, 0, code, BeginFlash(h))
  }

  /** linkObjectFileFromFlash */
  method LinkObjectFileFromFlash(context: Context, flash: Flash, offset: u32, h: Header, out: array<byte>, base: nat,
                                 capacity: nat, ghost was: seq<byte>, ghost code: seq<byte>)
    returns (report: Report)
    requires |was| == out.Length && base + capacity <= out.Length
    requires |code| == h.codeSize && base + |code| <= out.Length && out[..] == Patch(was, base, code)
    modifies out
    ensures report == FlashLink(context, flash, offset, h, code, capacity).0
    ensures out[..] == Patch(was, base, FlashLink(context, flash, offset, h, code, capacity).1)
  {
    hide FlashRelocate, Patch;
    report := BeginFlash(h);
    if capacity < h.codeSize {
      return report.(status := OutputTooSmall);
    }
    ghost var linked := code;
    for i := 0 to h.relocationCount
      invariant |linked| == h.codeSize && out[..] == Patch(was, base, linked)
      invariant report.status == LinkOk
      invariant FlashRelocateFrom(context, flash, offset, h, i, linked, report) ==
                FlashRelocateFrom(context, flash, offset, h, 0, code, BeginFlash(h))
    {
      report, linked := FlashRelocateInPlace(context, flash, offset, h, i, out, base, linked, was, report);
      if report.status != LinkOk {
        return;
      }
    }
    report := report.(failingSymbol := NONE16, failingRelocation := NONE16);
  }

  /** The body of the loop; `code` is what the code area at `base` holds. */
  method FlashRelocateInPlace(context: Context, flash: Flash, offset: u32, h: Header, i: u16, out: array<byte>, base: nat,
                              ghost code: seq<byte>, ghost was: seq<byte>, begun: Report)
    returns (report: Report, ghost next: seq<byte>)
    requires |code| == h.codeSize
    requires |was| == out.Length && base + |code| <= out.Length && out[..] == Patch(was, base, code)
    modifies out
    ensures (report, next) == FlashRelocate(context, flash, offset, h, i, code, begun)
    ensures out[..] == Patch(was, base, next)
  {
    hide SpanReadable, SpanBytes, FlashRecord, ResolveLinkRequest, PatchBytes, ReadRelocation, ReadSymbol, RecordAddress,
         Patch;
    next := code;
    report := begun.(failingRelocation := i);
    var relocationBytes := ReadRecord(flash, RecordAddress(offset, h.relocationTableOffset, RELOCATION_SIZE, i),
                                      RELOCATION_SIZE);
    if relocationBytes.None? {
      report := report.(status := RelocationOutOfRange);
      return;
    }
    var relocation := ReadRelocation(relocationBytes.value);
    if h.symbolCount <= relocation.symbolIndex {
      report := report.(status := SymbolIndexOutOfRange, failingSymbol := relocation.symbolIndex);
      return;
    }
    if PatchSize(relocation.kind) == 0 {
      report := report.(status := UnsupportedRelocationKind);
      return;
    }
    if h.codeSize < relocation.codeOffset + PatchSize(relocation.kind) {
      report := report.(status := RelocationOutOfRange);
      return;
    }
    report := report.(failingSymbol := relocation.symbolIndex);
    var symbolBytes := ReadRecord(flash, RecordAddress(offset, h.symbolTableOffset, SYMBOL_SIZE, relocation.symbolIndex),
                                  SYMBOL_SIZE);
    if symbolBytes.None? {
      report := report.(status := SymbolIndexOutOfRange);
      return;
    }
    var record := FlashRecord(context, ReadSymbol(symbolBytes.value));
    if record.None? {
      report := report.(status := ResolveFailed, resolveStatus := UnsupportedPointType);
      return;
    }
    var link := ResolveLinkRequest(context.publisher, context.points, record.value.id, record.value.expectedType,
                                   record.value.access);
    report := report.(resolveStatus := link.status);
    if link.status != Resolved {
      report := report.(status := ResolveFailed);
      return;
    }
    var bytes := PatchBytes(relocation.kind, link);
    PatchInside(was, base, code, relocation.codeOffset, bytes);
    Store(out, base + relocation.codeOffset, bytes);
    next := Patch(code, relocation.codeOffset, bytes);
    report := report.(resolved := report.resolved + 1);
  }

  /** A record read into a structure of its own. */
  method ReadRecord(flash: Flash, at: u32, size: u32) returns (r: Option<seq<byte>>)
    ensures r == Span(flash, at, size)
  {
    var buffer := new byte[size](_ => 0);
    var ok := FlashReadBytes(flash, at, buffer, 0, size);
    CopiedAll(flash, at, 0, size);
    ghost var span := SpanBytes(flash, at, size);
    assert span[..size] == span;
    assert ok ==> buffer[0..size] == buffer[..] == span;
    r := if ok then Some(buffer[0..size]) else None;
  }

  // The flash linker against the linker in memory

  predicate HasByte(flash: Flash, at: nat, b: byte) {
    flash.Reachable(at) && flash.At(at) == b
  }

  /** Flash holds the file at the offset, on pages that can be read. */
  predicate Holds(flash: Flash, offset: u32, file: seq<byte>) {
    && offset + |file| <= FLASH_SIZE
    && forall i | 0 <= i < |file| :: HasByte(flash, offset + i, file[i])
  }

  lemma HeldSpan(flash: Flash, offset: u32, file: seq<byte>, at: nat, size: nat)
    requires Holds(flash, offset, file) && at + size <= |file|
    ensures Span(flash, (offset + at) % 0x1_0000_0000, size) == Some(file[at..at + size])
  {
    hide HasByte;
    var start := (offset + at) % 0x1_0000_0000;
    assert start == offset + at;
    forall i: nat | i < size
      ensures HasByte(flash, Address(start, i), file[at + i])
    {
      HeldAddress(offset, at, i);
      assert HasByte(flash, offset + (at + i), file[at + i]);
    }
    SpanOfBytes(flash, start, file[at..at + size]);
  }

  lemma SpanOfBytes(flash: Flash, start: nat, bytes: seq<byte>)
    requires forall i: nat | i < |bytes| :: HasByte(flash, Address(start, i), bytes[i])
    ensures Span(flash, start, |bytes|) == Some(bytes)
  {
    hide Address;
    forall i: nat | i < |bytes|
      ensures flash.Reachable(Address(start, i))
    {
      assert HasByte(flash, Address(start, i), bytes[i]);
    }
    forall i | 0 <= i < |bytes|
      ensures SpanBytes(flash, start, |bytes|)[i] == bytes[i]
    {
      assert HasByte(flash, Address(start, i), bytes[i]);
    }
    assert SpanReadable(flash, start, |bytes|) && SpanBytes(flash, start, |bytes|) == bytes;
  }

  lemma HeldAddress(offset: nat, at: nat, i: nat)
    requires offset + at + i < 0x1_0000_0000
    ensures Address(offset + at, i) == offset + (at + i)
  {
  }

  lemma HeldRecord(flash: Flash, offset: u32, file: seq<byte>, table: u32, size: nat, i: nat)
    requires Holds(flash, offset, file) && table + size * i + size <= |file|
    ensures Span(flash, RecordAddress(offset, table, size, i), size) == Some(Block(file, table, size, i))
  {
    var at := table + size * i;
    assert RecordAddress(offset, table, size, i) == offset + at;
    hide Holds;
    HeldSpan(flash, offset, file, at, size);
  }

  /** A slot variable that the loader resolves: no built-in name, and a known kind of access. */
  predicate Admissible(record: SymbolRecord) {
    record.kind == SLOT_VAR ==> record.name !in BUILTIN_POINTS && record.access <= ACCESS_READ_WRITE
  }

  lemma DecimalIsDigits(n: nat)
    ensures AllDigits(Decimal(n))
  {
  }

  /** A slot variable that resolves by the linker's rules resolves by the loader's to the same place,
      exactly if it is admissible. */
  lemma SlotVariableAlike(context: Context, record: SymbolRecord)
    requires context.slot != NO_SLOT && record.kind == SLOT_VAR
    requires ResolveRecord(context, record).Some?
    requires ResolveResolved(context, ResolveRecord(context, record).value).status == Resolved
    ensures
      var resolved := ResolveRecord(context, record).value;
      var link := ResolveLinkRequest(context.publisher, context.points, resolved.id, resolved.expectedType,
                                     resolved.access);
      && (FlashRecord(context, record).Some? ==> FlashRecord(context, record).value == resolved)
      && (Admissible(record) <==> FlashRecord(context, record).Some? && link.status == Resolved)
      && (Admissible(record) ==> link == ResolveResolved(context, resolved))
  {
    hide BUILTIN_POINTS, SlotDevice, FindIndex, Decimal, AllDigits;
    var resolved := ResolveRecord(context, record).value;
    var feature := SlotFeature(context.slot);
    DecimalIsDigits(context.slot);
    assert feature[..|SLOT_FEATURE|] == SLOT_FEATURE && feature[|SLOT_FEATURE|..] == Decimal(context.slot);
  }

  /** Records of one relocation, read from flash, are those of the parsed image. */
  lemma RelocateAlike(context: Context, file: seq<byte>, flash: Flash, offset: u32, i: u16, code: seq<byte>,
                      report: Report)
    requires ParseObject(file).Ok? && Holds(flash, offset, file) && context.slot != NO_SLOT
    requires
      var parsed := ParseObject(file).value;
      && i < |parsed.image.relocations| && |code| == parsed.header.codeSize && report.status == LinkOk
      && Relocate(context, parsed.image.symbols, parsed.image.relocations[i], i, code, report).0.status == LinkOk
    ensures
      var parsed := ParseObject(file).value;
      var relocation := parsed.image.relocations[i];
      var flashed := FlashRelocate(context, flash, offset, parsed.header, i, code, report);
      && relocation.symbolIndex < |parsed.image.symbols|
      && (flashed.0.status == LinkOk <==> Admissible(parsed.image.symbols[relocation.symbolIndex]))
      && (flashed.0.status == LinkOk ==>
            flashed == Relocate(context, parsed.image.symbols, relocation, i, code, report))
  {
    hide ReadHeader, Fnv.Checksum, ReadSymbol, ReadRelocation, Block, RecordAddress, Span, ResolveRecord, ResolveResolved,
         FlashRecord, ResolveLinkRequest, Admissible, Holds, Patch, PatchBytes;
    var parsed := ParseObject(file).value;
    var h, relocation := parsed.header, parsed.image.relocations[i];
    HeldRecord(flash, offset, file, h.relocationTableOffset, RELOCATION_SIZE, i);
    HeldRecord(flash, offset, file, h.symbolTableOffset, SYMBOL_SIZE, relocation.symbolIndex);
    var record := parsed.image.symbols[relocation.symbolIndex];
    if record.kind == SLOT_VAR {
      SlotVariableAlike(context, record);
    } else {
      OtherAlike(context, record);
    }
  }

  lemma OtherAlike(context: Context, record: SymbolRecord)
    requires record.kind != SLOT_VAR
    ensures ResolveRecord(context, record) == Some(record) == FlashRecord(context, record) && Admissible(record)
    ensures ResolveResolved(context, record) ==
            ResolveLinkRequest(context.publisher, context.points, record.id, record.expectedType, record.access)
  {
  }

  /** The records that relocations from `i` on refer to are admissible. */
  predicate AllAdmissible(image: Image, i: nat) {
    forall k | i <= k < |image.relocations| && image.relocations[k].symbolIndex < |image.symbols| ::
      Admissible(image.symbols[image.relocations[k].symbolIndex])
  }

  lemma {:induction false} RelocateFromAlike(context: Context, file: seq<byte>, flash: Flash, offset: u32, i: nat,
                                             code: seq<byte>, report: Report)
    requires ParseObject(file).Ok? && Holds(flash, offset, file) && context.slot != NO_SLOT
    requires
      var parsed := ParseObject(file).value;
      && i <= |parsed.image.relocations| == parsed.header.relocationCount
      && |code| == parsed.header.codeSize && report.status == LinkOk
      && RelocateFrom(context, parsed.image, i, code, report).0.status == LinkOk
    ensures
      var parsed := ParseObject(file).value;
      var flashed := FlashRelocateFrom(context, flash, offset, parsed.header, i, code, report);
      && (flashed.0.status == LinkOk <==> AllAdmissible(parsed.image, i))
      && (flashed.0.status == LinkOk ==> flashed == RelocateFrom(context, parsed.image, i, code, report))
    decreases |ParseObject(file).value.image.relocations| - i
  {
    hide ParseObject, Holds, Relocate, FlashRelocate, Admissible;
    var parsed := ParseObject(file).value;
    if i < |parsed.image.relocations| {
      RelocateAlike(context, file, flash, offset, i, code, report);
      var next := Relocate(context, parsed.image.symbols, parsed.image.relocations[i], i, code, report);
      RelocateFromAlike(context, file, flash, offset, i + 1, next.1, next.0);
    }
  }

  /** The flash linker refines the linker in memory. Whenever the linker accepts an object file, the
      loader links the same file from flash to the same code with the same report, exactly if the slot
      variables the relocations use have no built-in names and known access. */
  lemma FlashLinkRefines(context: Context, file: seq<byte>, flash: Flash, offset: u32, capacity: nat)
    requires ParseObject(file).Ok? && Holds(flash, offset, file) && context.slot != NO_SLOT
    requires Link(context, ParseObject(file).value.image, capacity).0.status == LinkOk
    ensures
      var parsed := ParseObject(file).value;
      var linked := Link(context, parsed.image, capacity);
      var flashed := FlashLink(context, flash, offset, parsed.header, parsed.image.code, capacity);
      && (flashed.0.status == LinkOk <==> AllAdmissible(parsed.image, 0))
      && (flashed.0.status == LinkOk ==> flashed == (linked.0, linked.1.value))
  {
    hide ReadHeader, Fnv.Checksum, Holds, Relocate, FlashRelocate, Admissible, ReadSymbols, ReadRelocations;
    var parsed := ParseObject(file).value;
    assert |parsed.image.code| == parsed.header.codeSize && parsed.image.entryOffset == parsed.header.entryOffset;
    assert |parsed.image.relocations| == parsed.header.relocationCount;
    hide ParseObject;
    RelocateFromAlike(context, file, flash, offset, 0, parsed.image.code, Begin(parsed.image));
  }

  // And back

  /** The point a slot variable refers to has exactly its type: the loader takes an enumeration for a 16-bit
      integer and the other way round, the linker does not. */
  predicate Typed(context: Context, record: SymbolRecord) {
    record.kind == SLOT_VAR && FlashRecord(context, record).Some? ==>
      var i := FindIndex(context.points, FlashRecord(context, record).value.id);
      i < |context.points| ==> context.points[i].valueType == record.expectedType
  }

  predicate AllTyped(context: Context, image: Image, i: nat) {
    forall k | i <= k < |image.relocations| && image.relocations[k].symbolIndex < |image.symbols| ::
      Typed(context, image.symbols[image.relocations[k].symbolIndex])
  }

  /** A slot variable that resolves by the loader's rules resolves by the linker's to the same place,
      exactly if it has the type of its point. */
  lemma SlotVariableBack(context: Context, record: SymbolRecord)
    requires context.slot != NO_SLOT && record.kind == SLOT_VAR && FlashRecord(context, record).Some?
    requires
      var found := FlashRecord(context, record).value;
      ResolveLinkRequest(context.publisher, context.points, found.id, found.expectedType, found.access).status == Resolved
    ensures
      var found := FlashRecord(context, record).value;
      var link := ResolveLinkRequest(context.publisher, context.points, found.id, found.expectedType, found.access);
      && ResolveRecord(context, record) == Some(found)
      && (ResolveResolved(context, found).status == Resolved <==> Typed(context, record))
      && (Typed(context, record) ==> ResolveResolved(context, found) == link)
  {
    hide BUILTIN_POINTS, SlotDevice, FindIndex, SlotFeature, AccessAllowed, RuntimeType;
  }

  lemma RelocateBack(context: Context, file: seq<byte>, flash: Flash, offset: u32, i: u16, code: seq<byte>,
                     report: Report)
    requires ParseObject(file).Ok? && Holds(flash, offset, file) && context.slot != NO_SLOT
    requires
      var parsed := ParseObject(file).value;
      && i < |parsed.image.relocations| && |code| == parsed.header.codeSize && report.status == LinkOk
      && FlashRelocate(context, flash, offset, parsed.header, i, code, report).0.status == LinkOk
    ensures
      var parsed := ParseObject(file).value;
      var relocation := parsed.image.relocations[i];
      var linked := Relocate(context, parsed.image.symbols, relocation, i, code, report);
      && relocation.symbolIndex < |parsed.image.symbols|
      && (linked.0.status == LinkOk <==> Typed(context, parsed.image.symbols[relocation.symbolIndex]))
      && (linked.0.status == LinkOk ==>
            linked == FlashRelocate(context, flash, offset, parsed.header, i, code, report))
  {
    hide ReadHeader, Fnv.Checksum, ReadSymbol, ReadRelocation, Block, RecordAddress, Span, ResolveRecord, ResolveResolved,
         FlashRecord, ResolveLinkRequest, Holds, Patch, PatchBytes, FindIndex;
    var parsed := ParseObject(file).value;
    var h, relocation := parsed.header, parsed.image.relocations[i];
    HeldRecord(flash, offset, file, h.relocationTableOffset, RELOCATION_SIZE, i);
    HeldRecord(flash, offset, file, h.symbolTableOffset, SYMBOL_SIZE, relocation.symbolIndex);
    var record := parsed.image.symbols[relocation.symbolIndex];
    if record.kind == SLOT_VAR {
      SlotVariableBack(context, record);
    } else {
      OtherAlike(context, record);
    }
  }

  lemma {:induction false} RelocateFromBack(context: Context, file: seq<byte>, flash: Flash, offset: u32, i: nat,
                                            code: seq<byte>, report: Report)
    requires ParseObject(file).Ok? && Holds(flash, offset, file) && context.slot != NO_SLOT
    requires
      var parsed := ParseObject(file).value;
      && i <= |parsed.image.relocations| == parsed.header.relocationCount
      && |code| == parsed.header.codeSize && report.status == LinkOk
      && FlashRelocateFrom(context, flash, offset, parsed.header, i, code, report).0.status == LinkOk
    ensures
      var parsed := ParseObject(file).value;
      var linked := RelocateFrom(context, parsed.image, i, code, report);
      && (linked.0.status == LinkOk <==> AllTyped(context, parsed.image, i))
      && (linked.0.status == LinkOk ==>
            linked == FlashRelocateFrom(context, flash, offset, parsed.header, i, code, report))
    decreases |ParseObject(file).value.image.relocations| - i
  {
    hide ParseObject, Holds, Relocate, FlashRelocate, Typed;
    var parsed := ParseObject(file).value;
    if i < |parsed.image.relocations| {
      RelocateBack(context, file, flash, offset, i, code, report);
      var next := FlashRelocate(context, flash, offset, parsed.header, i, code, report);
      RelocateFromBack(context, file, flash, offset, i + 1, next.1, next.0);
    }
  }

  /** The other way round: whenever the loader links an object file from flash, the linker in memory links
      it to the same code with the same report, exactly if the points of the slot variables the relocations
      use have their types. */
  lemma FlashLinkRefined(context: Context, file: seq<byte>, flash: Flash, offset: u32, capacity: nat)
    requires ParseObject(file).Ok? && Holds(flash, offset, file) && context.slot != NO_SLOT
    ensures |ParseObject(file).value.image.code| == ParseObject(file).value.header.codeSize
    ensures |ParseObject(file).value.image.relocations| <= 0xFFFF
    ensures
      var parsed := ParseObject(file).value;
      var flashed := FlashLink(context, flash, offset, parsed.header, parsed.image.code, capacity);
      var linked := Link(context, parsed.image, capacity);
      flashed.0.status == LinkOk ==>
        && (linked.0.status == LinkOk <==> AllTyped(context, parsed.image, 0))
        && (linked.0.status == LinkOk ==> linked == (flashed.0, Some(flashed.1)))
  {
    hide ReadHeader, Fnv.Checksum, Holds, Relocate, FlashRelocate, Typed, ReadSymbols, ReadRelocations;
    var parsed := ParseObject(file).value;
    assert |parsed.image.code| == parsed.header.codeSize && parsed.image.entryOffset == parsed.header.entryOffset;
    assert |parsed.image.relocations| == parsed.header.relocationCount;
    assert parsed.header.entryOffset <= parsed.header.codeSize;
    hide ParseObject;
    if FlashLink(context, flash, offset, parsed.header, parsed.image.code, capacity).0.status == LinkOk {
      RelocateFromBack(context, file, flash, offset, 0, parsed.image.code, Begin(parsed.image));
    }
  }

  lemma HeaderAlike(h: Header, capacity: nat)
    requires HEADER_SIZE <= h.totalSize <= capacity <= FLASH_SIZE
    ensures
      HeaderAccepted(h, capacity) && HEADER_SIZE + h.codeSize < 0x1_0000_0000 <==>
      && h.magic == MAGIC && h.version == VERSION && h.abiVersion == ABI_VERSION
      && h.entryOffset <= h.codeSize && HEADER_SIZE + h.codeSize <= h.totalSize
      && h.symbolTableOffset + SYMBOL_SIZE * h.symbolCount <= h.totalSize
      && h.relocationTableOffset + RELOCATION_SIZE * h.relocationCount <= h.totalSize
      && HEADER_SIZE <= h.symbolTableOffset && HEADER_SIZE <= h.relocationTableOffset
  {
  }

  /** From flash the loader accepts exactly the files the parser accepts whose tables lie behind the
      header; only a code size that wraps around is left to its capacity check. */
  lemma FlashHeaderAlike(file: seq<byte>, flash: Flash, offset: u32)
    requires Holds(flash, offset, file) && HEADER_SIZE <= |file|
    ensures
      var h := ReadHeader(file);
      FlashHeader(flash, offset, |file|).Ok? && HEADER_SIZE + h.codeSize < 0x1_0000_0000 <==>
      ParseObject(file).Ok? && HEADER_SIZE <= h.symbolTableOffset && HEADER_SIZE <= h.relocationTableOffset
    ensures FlashHeader(flash, offset, |file|).Ok? ==> FlashHeader(flash, offset, |file|).value == ReadHeader(file)
  {
    hide Span, ReadSymbols, ReadRelocations, Fnv.Checksum, HasByte, ReadHeader;
    var h := ReadHeader(file);
    HeldSpan(flash, offset, file, 0, HEADER_SIZE);
    assert (offset + 0) % 0x1_0000_0000 == offset;
    SameHeader(file[0..HEADER_SIZE], file);
    if HEADER_SIZE <= h.totalSize <= |file| {
      var size := h.totalSize - HEADER_SIZE;
      HeldSpan(flash, offset, file, HEADER_SIZE, size);
      assert HEADER_SIZE + size == h.totalSize;
      assert FlashChecksum(flash, Address(offset, HEADER_SIZE), size) == Fnv.Checksum(file[HEADER_SIZE..h.totalSize]);
      HeaderAlike(h, |file|);
    }
  }
}
