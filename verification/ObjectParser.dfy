/** The two parsers of objectFileV1, the firmware's and the disassembler's, and the proof that both
    recover what the builder wrote. */
module ObjectParser {
  import opened Bytes
  import opened Assembler
  import opened ObjectFile
  import Fnv

  datatype Image = Image(code: seq<byte>, entryOffset: u32, symbols: seq<SymbolRecord>, relocations: seq<Relocation>)

  datatype ParseError =
    | HeaderOutOfRange
    | BadMagic
    | BadVersion
    | CodeOutOfRange
    | EntryOffsetOutOfRange
    | SymbolTableOutOfRange
    | RelocationTableOutOfRange

  datatype Parsed = Parsed(header: Header, image: Image)

  /** The text of a character field: what comes before its first zero. */
  function CString(s: seq<byte>): string {
    if s == [] || s[0] == 0 then "" else [s[0] as char] + CString(s[1..])
  }

  function ReadSymbol(s: seq<byte>): SymbolRecord
    requires |s| == SYMBOL_SIZE
  {
    SymbolRecord(CString(s[..16]), s[16], s[17], Identity(CString(s[18..34]), CString(s[34..66]), CString(s[66..98])),
                 s[98], s[99])
  }

  /** Record `i` of a table of records of one size. */
  function Block(s: seq<byte>, at: nat, size: nat, i: nat): (r: seq<byte>)
    requires at + size * i + size <= |s|
    ensures |r| == size
  {
    s[at + size * i..at + size * i + size]
  }

  function ReadSymbols(s: seq<byte>, at: nat, count: nat): (r: seq<SymbolRecord>)
    requires at + SYMBOL_SIZE * count <= |s|
    ensures |r| == count
  {
    seq(count, i requires 0 <= i < count => ReadSymbol(Block(s, at, SYMBOL_SIZE, i)))
  }

  function ReadRelocation(s: seq<byte>): Relocation
    requires |s| == RELOCATION_SIZE
  {
    Relocation(Fetch32(s, 0), Fetch16(s, 4), s[6])
  }

  function ReadRelocations(s: seq<byte>, at: nat, count: nat): (r: seq<Relocation>)
    requires at + RELOCATION_SIZE * count <= |s|
    ensures |r| == count
  {
    seq(count, i requires 0 <= i < count => ReadRelocation(Block(s, at, RELOCATION_SIZE, i)))
  }

  /** parseObjectFile. The tables may lie anywhere in the file. */
  function ParseObject(s: seq<byte>): Result<Parsed, ParseError> {
    if |s| < HEADER_SIZE then Err(HeaderOutOfRange)
    else
      var h := ReadHeader(s);
      var symbolTableEnd := h.symbolTableOffset + SYMBOL_SIZE * h.symbolCount;
      var relocationTableEnd := h.relocationTableOffset + RELOCATION_SIZE * h.relocationCount;
      if h.magic != MAGIC then Err(BadMagic)
      else if h.version != VERSION then Err(BadVersion)
      else if h.abiVersion != ABI_VERSION then Err(BadVersion)
      else if h.totalSize < HEADER_SIZE || |s| < h.totalSize then Err(HeaderOutOfRange)
      else if h.codeSize < h.entryOffset then Err(EntryOffsetOutOfRange)
      else if h.totalSize < HEADER_SIZE + h.codeSize then Err(CodeOutOfRange)
      else if h.totalSize < symbolTableEnd then Err(SymbolTableOutOfRange)
      else if h.totalSize < relocationTableEnd then Err(RelocationTableOutOfRange)
      else if Fnv.Checksum(s[HEADER_SIZE..h.totalSize]) != h.checksum then Err(BadMagic)
      else
        Ok(Parsed(h, Image(s[HEADER_SIZE..HEADER_SIZE + h.codeSize], h.entryOffset,
                           ReadSymbols(s, h.symbolTableOffset, h.symbolCount),
                           ReadRelocations(s, h.relocationTableOffset, h.relocationCount))))
  }

  /** The files the firmware accepts, field by field. */
  lemma ParsesExactly(s: seq<byte>)
    ensures ParseObject(s).Ok? <==>
      && 52 <= |s| && Fetch32(s, 0) == 0x314A_424F && Fetch16(s, 4) == 1 && Fetch16(s, 6) == 1
      && 52 <= Fetch32(s, 12) <= |s|
      && Fetch32(s, 20) <= Fetch32(s, 16) && 52 + Fetch32(s, 16) <= Fetch32(s, 12)
      && Fetch32(s, 28) + 102 * Fetch16(s, 24) <= Fetch32(s, 12)
      && Fetch32(s, 32) + 8 * Fetch16(s, 26) <= Fetch32(s, 12)
      && Fnv.Checksum(s[52..Fetch32(s, 12)]) == Fetch32(s, 48)
  {
    hide Fetch32, Fetch16, Fnv.Checksum;
  }

  /** Encoding.ASCII.GetString over a field up to its first zero. */
  function AsciiText(s: seq<byte>): string {
    if s == [] || s[0] == 0 then ""
    else [if s[0] < 0x80 then s[0] as char else '?'] + AsciiText(s[1..])
  }

  function BuildPointPath(id: Identity): string {
    if IsBlank(id.device) || IsBlank(id.feature) || IsBlank(id.point) then ""
    else id.device + "." + id.feature + "." + id.point
  }

  function ReadListedSymbol(s: seq<byte>): Symbol
    requires |s| == SYMBOL_SIZE
  {
    var id := Identity(AsciiText(s[18..34]), AsciiText(s[34..66]), AsciiText(s[66..98]));
    Symbol(AsciiText(s[..16]), s[16], BuildPointPath(id), s[98], s[99], s[17])
  }

  function ReadListedSymbols(s: seq<byte>, at: nat, count: nat): (r: seq<Symbol>)
    requires at + SYMBOL_SIZE * count <= |s|
    ensures |r| == count
  {
    seq(count, i requires 0 <= i < count => ReadListedSymbol(Block(s, at, SYMBOL_SIZE, i)))
  }

  /** EnsureRange: the end is computed in wrapping 32-bit arithmetic. */
  predicate InRange(offset: u32, size: nat, total: u32) {
    HEADER_SIZE <= offset && (offset + size) % 0x1_0000_0000 <= total
  }

  /** The parsing half of DisassembleObjectFile. Nothing where the source throws; a range whose end
      wraps is caught when the bytes behind it are read. */
  function ParseForListing(s: seq<byte>): Option<Assembly> {
    if |s| < HEADER_SIZE then None
    else
      var h := ReadHeader(s);
      if h.magic != MAGIC || h.version != VERSION || |s| < h.totalSize then None
      else if !InRange(h.symbolTableOffset, SYMBOL_SIZE * h.symbolCount, h.totalSize) then None
      else if !InRange(h.relocationTableOffset, RELOCATION_SIZE * h.relocationCount, h.totalSize) then None
      else if !InRange(HEADER_SIZE, h.codeSize, h.totalSize) then None
      else if |s| < HEADER_SIZE + h.codeSize || |s| < h.symbolTableOffset + SYMBOL_SIZE * h.symbolCount ||
              |s| < h.relocationTableOffset + RELOCATION_SIZE * h.relocationCount then None
      else
        Some(Assembly(s[HEADER_SIZE..HEADER_SIZE + h.codeSize],
                      ReadListedSymbols(s, h.symbolTableOffset, h.symbolCount),
                      ReadRelocations(s, h.relocationTableOffset, h.relocationCount)))
  }

  // What the object format can represent

  predicate PlainText(s: string) {
    forall i | 0 <= i < |s| :: 0 < s[i] as int < 0x80
  }

  predicate PlainSymbol(symbol: Symbol) {
    PlainText(symbol.name) && PlainText(symbol.path)
  }

  predicate Representable(assembly: Assembly, options: Options) {
    && options.abiVersion == ABI_VERSION
    && |assembly.symbols| < 0x1_0000
    && |assembly.relocations| < 0x1_0000
    && HEADER_SIZE + |assembly.code| + SYMBOL_SIZE * |assembly.symbols| + RELOCATION_SIZE * |assembly.relocations| <
       0x1_0000_0000
    && (forall i | 0 <= i < |assembly.symbols| :: PlainSymbol(assembly.symbols[i]))
    && (forall i | 0 <= i < |assembly.relocations| :: assembly.relocations[i].codeOffset < 0x1_0000_0000)
  }

  /** The record the firmware sees of a symbol. */
  function RecordOf(symbol: Symbol): SymbolRecord {
    SymbolRecord(symbol.name, symbol.kind, symbol.flags, SymbolIdentity(symbol).GetOr(NO_IDENTITY),
                 symbol.valueType, symbol.access)
  }

  function RecordsOf(symbols: seq<Symbol>): (r: seq<SymbolRecord>)
    ensures |r| == |symbols|
  {
    seq(|symbols|, i requires 0 <= i < |symbols| => RecordOf(symbols[i]))
  }

  // Fields

  lemma {:induction false} AsciiThenZeros(s: string, n: nat)
    requires PlainText(s)
    ensures CString(Ascii(s) + Zeros(n)) == s && AsciiText(Ascii(s) + Zeros(n)) == s
  {
    var bytes := Ascii(s) + Zeros(n);
    if s != "" {
      assert bytes[1..] == Ascii(s[1..]) + Zeros(n);
      AsciiThenZeros(s[1..], n);
    }
  }

  lemma FixedAsciiReads(s: string, capacity: nat)
    requires PlainText(s) && FixedAscii(s, capacity).Ok?
    ensures CString(FixedAscii(s, capacity).value) == s && AsciiText(FixedAscii(s, capacity).value) == s
  {
    if s == "" {
      AsciiThenZeros(s, capacity);
      assert Ascii(s) + Zeros(capacity) == Zeros(capacity);
    } else {
      AsciiThenZeros(s, capacity - |s|);
    }
  }

  /** A point path splits at its first and last dot and rejoins unchanged. */
  lemma PathRejoins(path: string)
    requires ParsePointPath(path).Some?
    ensures
      var id := ParsePointPath(path).value;
      id.device + "." + id.feature + "." + id.point == path
  {
  }

  lemma PathIsPlain(path: string)
    requires PlainText(path) && ParsePointPath(path).Some?
    ensures
      var id := ParsePointPath(path).value;
      PlainText(id.device) && PlainText(id.feature) && PlainText(id.point)
  {
  }

  lemma IdentityReads(symbol: Symbol)
    requires PlainSymbol(symbol) && SymbolIdentity(symbol).Some?
    requires IdentityBytes(SymbolIdentity(symbol).value).Ok?
    ensures
      var id := SymbolIdentity(symbol).value;
      var s := IdentityBytes(id).value;
      && id == Identity(CString(s[..16]), CString(s[16..48]), CString(s[48..]))
      && id == Identity(AsciiText(s[..16]), AsciiText(s[16..48]), AsciiText(s[48..]))
  {
    hide FixedAscii;
    var id := SymbolIdentity(symbol).value;
    if symbol.kind != SLOT_VAR {
      PathIsPlain(symbol.path);
    }
    hide ParsePointPath;
    FixedAsciiReads(id.device, DEVICE_SIZE);
    FixedAsciiReads(id.feature, FEATURE_SIZE);
    FixedAsciiReads(id.point, POINT_SIZE);
    var s := IdentityBytes(id).value;
    assert s[..16] == FixedAscii(id.device, DEVICE_SIZE).value;
    assert s[16..48] == FixedAscii(id.feature, FEATURE_SIZE).value;
    assert s[48..] == FixedAscii(id.point, POINT_SIZE).value;
  }

  /** Both parsers read a symbol record back as the symbol it was written from. */
  lemma SymbolReads(symbol: Symbol)
    requires PlainSymbol(symbol) && SymbolBytes(symbol).Ok?
    ensures ReadSymbol(SymbolBytes(symbol).value) == RecordOf(symbol)
    ensures ReadListedSymbol(SymbolBytes(symbol).value) ==
            symbol.(path := BuildPointPath(SymbolIdentity(symbol).value))
  {
    hide FixedAscii, IdentityBytes, SymbolIdentity, BuildPointPath;
    IdentityReads(symbol);
    FixedAsciiReads(symbol.name, NAME_SIZE);
    var s := SymbolBytes(symbol).value;
    var name := FixedAscii(symbol.name, NAME_SIZE).value;
    var id := IdentityBytes(SymbolIdentity(symbol).value).value;
    assert s[..16] == name;
    assert s[18..34] == id[..16];
    assert s[34..66] == id[16..48];
    assert s[66..98] == id[48..];
  }

  lemma RelocationReads(relocation: Relocation)
    requires relocation.codeOffset < 0x1_0000_0000
    ensures ReadRelocation(RelocationBytes(relocation)) == relocation
  {
    hide Le32, Le16;
    var s := RelocationBytes(relocation);
    FetchLe32(relocation.codeOffset, s, 0);
    FetchLe16(relocation.symbolIndex, s, 4);
  }

  // Tables

  lemma {:induction false} SymbolTableAt(symbols: seq<Symbol>, i: nat)
    requires SymbolTable(symbols).Ok? && i < |symbols|
    ensures SymbolBytes(symbols[i]).Ok?
    ensures Block(SymbolTable(symbols).value, 0, SYMBOL_SIZE, i) == SymbolBytes(symbols[i]).value
    decreases |symbols|
  {
    hide SymbolBytes;
    var last := |symbols| - 1;
    if i < last {
      SymbolTableAt(symbols[..last], i);
    }
  }

  lemma {:induction false} RelocationTableAt(relocations: seq<Relocation>, i: nat)
    requires i < |relocations|
    ensures Block(RelocationTable(relocations), 0, RELOCATION_SIZE, i) == RelocationBytes(relocations[i])
    decreases |relocations|
  {
    hide RelocationBytes;
    var last := |relocations| - 1;
    if i < last {
      RelocationTableAt(relocations[..last], i);
    }
  }

  lemma FrontReads(h: Header, rest: seq<byte>)
    requires 28 <= |rest|
    ensures
      var r := ReadHeader(HeaderFront(h) + rest);
      && r.magic == h.magic && r.version == h.version && r.abiVersion == h.abiVersion && r.flags == h.flags
      && r.totalSize == h.totalSize && r.codeSize == h.codeSize && r.entryOffset == h.entryOffset
  {
    hide Le32, Le16, Fetch32, Fetch16;
    var s := HeaderFront(h) + rest;
    FetchLe32(h.magic, s, 0);
    FetchLe16(h.version, s, 4);
    FetchLe16(h.abiVersion, s, 6);
    FetchLe32(h.flags, s, 8);
    FetchLe32(h.totalSize, s, 12);
    FetchLe32(h.codeSize, s, 16);
    FetchLe32(h.entryOffset, s, 20);
  }

  lemma BackReads(h: Header, front: seq<byte>, rest: seq<byte>)
    requires |front| == 24
    ensures
      var r := ReadHeader(front + HeaderBack(h) + rest);
      && r.symbolCount == h.symbolCount && r.relocationCount == h.relocationCount
      && r.symbolTableOffset == h.symbolTableOffset && r.relocationTableOffset == h.relocationTableOffset
      && r.maxInstructionsPerScan == h.maxInstructionsPerScan && r.maxScanTimeUs == h.maxScanTimeUs
      && r.runtimeHeaderAddress == h.runtimeHeaderAddress && r.checksum == h.checksum
  {
    hide Le32, Le16, Fetch32, Fetch16;
    var s := front + HeaderBack(h) + rest;
    FetchLe16(h.symbolCount, s, 24);
    FetchLe16(h.relocationCount, s, 26);
    FetchLe32(h.symbolTableOffset, s, 28);
    FetchLe32(h.relocationTableOffset, s, 32);
    FetchLe32(h.maxInstructionsPerScan, s, 36);
    FetchLe32(h.maxScanTimeUs, s, 40);
    FetchLe32(h.runtimeHeaderAddress, s, 44);
    FetchLe32(h.checksum, s, 48);
  }

  lemma HeaderReads(h: Header, payload: seq<byte>)
    ensures ReadHeader(HeaderBytes(h) + payload) == h
  {
    hide HeaderFront, HeaderBack, Fetch32, Fetch16;
    assert HeaderBytes(h) + payload == HeaderFront(h) + (HeaderBack(h) + payload);
    FrontReads(h, HeaderBack(h) + payload);
    BackReads(h, HeaderFront(h), payload);
  }

  /** The parts of a built file: code, symbol table and relocation table back to back. */
  lemma Sections(assembly: Assembly, options: Options)
    requires ObjectBytes(assembly, options).Ok?
    ensures
      var s := ObjectBytes(assembly, options).value;
      var symbols := SymbolTable(assembly.symbols).value;
      var tableAt := HEADER_SIZE + |assembly.code|;
      && SymbolTable(assembly.symbols).Ok?
      && |s| == tableAt + |symbols| + RELOCATION_SIZE * |assembly.relocations|
      && s[HEADER_SIZE..tableAt] == assembly.code
      && s[tableAt..tableAt + |symbols|] == symbols
      && s[tableAt + |symbols|..] == RelocationTable(assembly.relocations)
      && ReadHeader(s) == HeaderFor(assembly, options, Fnv.Checksum(s[HEADER_SIZE..]))
  {
    hide HeaderBytes, SymbolTable, RelocationTable, HeaderFor, ReadHeader, Fnv.Checksum;
    var symbols := SymbolTable(assembly.symbols).value;
    var payload := assembly.code + symbols + RelocationTable(assembly.relocations);
    var header := HeaderFor(assembly, options, Fnv.Checksum(payload));
    var s := HeaderBytes(header) + payload;
    assert s[HEADER_SIZE..] == payload;
    HeaderReads(header, payload);
  }

  /** A built file: its header, and behind it the code, the symbols of 102 bytes and the relocations of 8. */
  lemma BuiltFieldByField(assembly: Assembly, options: Options)
    requires ObjectBytes(assembly, options).Ok?
    requires 52 + |assembly.code| + 102 * |assembly.symbols| + 8 * |assembly.relocations| < 0x1_0000_0000
    requires |assembly.symbols| < 0x1_0000 && |assembly.relocations| < 0x1_0000
    ensures
      var s, n := ObjectBytes(assembly, options).value, |assembly.code|;
      var symbols := 52 + n + 102 * |assembly.symbols|;
      && |s| == symbols + 8 * |assembly.relocations|
      && Fetch32(s, 0) == 0x314A_424F && Fetch16(s, 4) == 1 && Fetch16(s, 6) == options.abiVersion
      && Fetch32(s, 8) == options.flags && Fetch32(s, 12) == |s| && Fetch32(s, 16) == n
      && Fetch32(s, 20) == options.entryOffset && Fetch16(s, 24) == |assembly.symbols|
      && Fetch16(s, 26) == |assembly.relocations| && Fetch32(s, 28) == 52 + n && Fetch32(s, 32) == symbols
      && Fetch32(s, 36) == options.maxInstructionsPerScan && Fetch32(s, 40) == options.maxScanTimeUs
      && Fetch32(s, 44) == options.runtimeHeaderAddress && Fetch32(s, 48) == Fnv.Checksum(s[52..])
      && s[52..52 + n] == assembly.code
  {
    Sections(assembly, options);
    var s := ObjectBytes(assembly, options).value;
    LiteralFields(assembly, options, Fnv.Checksum(s[52..]));
    ReadFields(s);
    hide *;
  }

  lemma ReadFields(s: seq<byte>)
    requires 52 <= |s|
    ensures
      var h := ReadHeader(s);
      && h.magic == Fetch32(s, 0) && h.version == Fetch16(s, 4) && h.abiVersion == Fetch16(s, 6) && h.flags == Fetch32(s, 8)
      && h.totalSize == Fetch32(s, 12) && h.codeSize == Fetch32(s, 16) && h.entryOffset == Fetch32(s, 20)
      && h.symbolCount == Fetch16(s, 24) && h.relocationCount == Fetch16(s, 26) && h.symbolTableOffset == Fetch32(s, 28)
      && h.relocationTableOffset == Fetch32(s, 32) && h.maxInstructionsPerScan == Fetch32(s, 36)
      && h.maxScanTimeUs == Fetch32(s, 40) && h.runtimeHeaderAddress == Fetch32(s, 44) && h.checksum == Fetch32(s, 48)
  {
    hide Fetch32, Fetch16;
  }

  lemma LiteralFields(assembly: Assembly, options: Options, checksum: u32)
    requires 52 + |assembly.code| + 102 * |assembly.symbols| + 8 * |assembly.relocations| < 0x1_0000_0000
    requires |assembly.symbols| < 0x1_0000 && |assembly.relocations| < 0x1_0000
    ensures
      var symbols := 52 + |assembly.code| + 102 * |assembly.symbols|;
      HeaderFor(assembly, options, checksum) ==
      Header(0x314A_424F, 1, options.abiVersion, options.flags, symbols + 8 * |assembly.relocations|, |assembly.code|,
             options.entryOffset, |assembly.symbols|, |assembly.relocations|, 52 + |assembly.code|, symbols,
             options.maxInstructionsPerScan, options.maxScanTimeUs, options.runtimeHeaderAddress, checksum)
  {
  }

  lemma BlockWithin(s: seq<byte>, at: nat, table: seq<byte>, size: nat, count: nat, i: nat)
    requires |table| == size * count && at + |table| <= |s| && s[at..at + |table|] == table
    requires size * i + size <= |table|
    ensures at + size * i + size <= |s| && Block(s, at, size, i) == Block(table, 0, size, i)
  {
    SliceOfSlice(s, at, at + |table|, size * i, size * i + size);
  }

  lemma SymbolsRead(s: seq<byte>, at: nat, symbols: seq<Symbol>)
    requires SymbolTable(symbols).Ok? && at + SYMBOL_SIZE * |symbols| <= |s|
    requires s[at..at + SYMBOL_SIZE * |symbols|] == SymbolTable(symbols).value
    requires forall i | 0 <= i < |symbols| :: PlainSymbol(symbols[i])
    ensures ReadSymbols(s, at, |symbols|) == RecordsOf(symbols)
  {
    hide ReadSymbol, RecordOf, SymbolBytes, SymbolTable, Block, PlainSymbol;
    forall i | 0 <= i < |symbols|
      ensures ReadSymbol(Block(s, at, SYMBOL_SIZE, i)) == RecordOf(symbols[i])
    {
      SymbolTableAt(symbols, i);
      BlockWithin(s, at, SymbolTable(symbols).value, SYMBOL_SIZE, |symbols|, i);
      SymbolReads(symbols[i]);
    }
  }

  lemma RelocationsRead(s: seq<byte>, at: nat, relocations: seq<Relocation>)
    requires at + RELOCATION_SIZE * |relocations| <= |s|
    requires s[at..at + RELOCATION_SIZE * |relocations|] == RelocationTable(relocations)
    requires forall i | 0 <= i < |relocations| :: relocations[i].codeOffset < 0x1_0000_0000
    ensures ReadRelocations(s, at, |relocations|) == relocations
  {
    hide ReadRelocation, RelocationBytes, RelocationTable, Block;
    forall i | 0 <= i < |relocations|
      ensures ReadRelocation(Block(s, at, RELOCATION_SIZE, i)) == relocations[i]
    {
      RelocationTableAt(relocations, i);
      BlockWithin(s, at, RelocationTable(relocations), RELOCATION_SIZE, |relocations|, i);
      RelocationReads(relocations[i]);
    }
  }

  lemma HeaderFields(assembly: Assembly, options: Options, checksum: u32)
    requires Representable(assembly, options) && options.entryOffset <= |assembly.code|
    ensures
      var h := HeaderFor(assembly, options, checksum);
      var relocationsAt := HEADER_SIZE + |assembly.code| + SYMBOL_SIZE * |assembly.symbols|;
      && h.magic == MAGIC && h.version == VERSION && h.abiVersion == ABI_VERSION
      && h.codeSize == |assembly.code|
      && h.entryOffset == options.entryOffset <= h.codeSize
      && h.symbolCount == |assembly.symbols|
      && h.relocationCount == |assembly.relocations|
      && h.symbolTableOffset == HEADER_SIZE + |assembly.code|
      && h.relocationTableOffset == relocationsAt
      && h.totalSize == relocationsAt + RELOCATION_SIZE * |assembly.relocations|
      && h.checksum == checksum
  {
    hide PlainSymbol;
  }

  /** The firmware accepts every file the builder writes and recovers the code, the symbols and the
      relocations from it. */
  lemma BuildThenParse(assembly: Assembly, options: Options)
    requires ObjectBytes(assembly, options).Ok? && Representable(assembly, options)
    ensures
      var parsed := ParseObject(ObjectBytes(assembly, options).value);
      && parsed.Ok?
      && parsed.value.image ==
         Image(assembly.code, options.entryOffset, RecordsOf(assembly.symbols), assembly.relocations)
  {
    hide SymbolTable, RelocationTable, Fnv.Checksum, ReadHeader, ReadSymbols, ReadRelocations, RecordsOf, PlainSymbol,
         HeaderFor;
    Sections(assembly, options);
    var s := ObjectBytes(assembly, options).value;
    HeaderFields(assembly, options, Fnv.Checksum(s[HEADER_SIZE..]));
    hide ObjectBytes;
    var tableAt := HEADER_SIZE + |assembly.code|;
    assert s[HEADER_SIZE..|s|] == s[HEADER_SIZE..];
    SymbolsRead(s, tableAt, assembly.symbols);
    var relocationsAt := tableAt + SYMBOL_SIZE * |assembly.symbols|;
    assert s[relocationsAt..relocationsAt + RELOCATION_SIZE * |assembly.relocations|] == s[relocationsAt..];
    RelocationsRead(s, relocationsAt, assembly.relocations);
  }

  lemma PathListed(symbol: Symbol)
    requires SymbolIdentity(symbol).Some?
    ensures BuildPointPath(SymbolIdentity(symbol).value) == symbol.path <==> Listable(symbol)
  {
    if symbol.kind != SLOT_VAR {
      PathRejoins(symbol.path);
    }
  }

  /** A symbol whose path the disassembler can show: slot variables have none, and no part of another
      path is blank. */
  predicate Listable(symbol: Symbol)
    requires SymbolIdentity(symbol).Some?
  {
    if symbol.kind == SLOT_VAR then symbol.path == ""
    else
      var id := SymbolIdentity(symbol).value;
      !IsBlank(id.device) && !IsBlank(id.feature) && !IsBlank(id.point)
  }

  /** The symbol as the disassembler shows it: without a path if a part of it is blank. */
  function Shown(symbol: Symbol): Symbol
    requires SymbolIdentity(symbol).Some?
  {
    symbol.(path := BuildPointPath(SymbolIdentity(symbol).value))
  }

  function ShownSymbols(symbols: seq<Symbol>): (shown: seq<Symbol>)
    requires forall i | 0 <= i < |symbols| :: SymbolIdentity(symbols[i]).Some?
    ensures |shown| == |symbols|
  {
    seq(|symbols|, i requires 0 <= i < |symbols| => Shown(symbols[i]))
  }

  lemma ListedSymbolsRead(s: seq<byte>, at: nat, symbols: seq<Symbol>)
    requires SymbolTable(symbols).Ok? && at + SYMBOL_SIZE * |symbols| <= |s|
    requires s[at..at + SYMBOL_SIZE * |symbols|] == SymbolTable(symbols).value
    requires forall i | 0 <= i < |symbols| :: PlainSymbol(symbols[i])
    ensures forall i | 0 <= i < |symbols| :: SymbolIdentity(symbols[i]).Some?
    ensures ReadListedSymbols(s, at, |symbols|) == ShownSymbols(symbols)
    ensures ReadListedSymbols(s, at, |symbols|) == symbols <==>
            forall i | 0 <= i < |symbols| :: Listable(symbols[i])
  {
    hide ReadListedSymbol, SymbolTable, BuildPointPath, Listable, IdentityBytes, SymbolIdentity, FixedAscii, Block,
         PlainSymbol;
    var listed := ReadListedSymbols(s, at, |symbols|);
    forall i | 0 <= i < |symbols|
      ensures SymbolIdentity(symbols[i]).Some?
      ensures listed[i] == Shown(symbols[i])
      ensures listed[i] == symbols[i] <==> Listable(symbols[i])
    {
      SymbolTableAt(symbols, i);
      BlockWithin(s, at, SymbolTable(symbols).value, SYMBOL_SIZE, |symbols|, i);
      SymbolReads(symbols[i]);
      PathListed(symbols[i]);
    }
  }

  lemma RangeWithin(offset: u32, size: nat, total: u32)
    requires HEADER_SIZE <= offset && offset + size <= total
    ensures InRange(offset, size, total)
  {
  }

  lemma BuiltFileIsListed(assembly: Assembly, options: Options)
    requires ObjectBytes(assembly, options).Ok? && Representable(assembly, options)
    ensures
      var s := ObjectBytes(assembly, options).value;
      var tableAt := HEADER_SIZE + |assembly.code|;
      && tableAt + SYMBOL_SIZE * |assembly.symbols| <= |s|
      && ParseForListing(s) ==
         Some(Assembly(assembly.code, ReadListedSymbols(s, tableAt, |assembly.symbols|), assembly.relocations))
  {
    hide SymbolTable, RelocationTable, Fnv.Checksum, ReadHeader, ReadListedSymbols, ReadRelocations, PlainSymbol,
         HeaderFor, InRange;
    Sections(assembly, options);
    var s := ObjectBytes(assembly, options).value;
    HeaderFields(assembly, options, Fnv.Checksum(s[HEADER_SIZE..]));
    hide ObjectBytes;
    var h := ReadHeader(s);
    RangeWithin(h.symbolTableOffset, SYMBOL_SIZE * h.symbolCount, h.totalSize);
    RangeWithin(h.relocationTableOffset, RELOCATION_SIZE * h.relocationCount, h.totalSize);
    RangeWithin(HEADER_SIZE, h.codeSize, h.totalSize);
    var relocationsAt := HEADER_SIZE + |assembly.code| + SYMBOL_SIZE * |assembly.symbols|;
    assert s[relocationsAt..relocationsAt + RELOCATION_SIZE * |assembly.relocations|] == s[relocationsAt..];
    RelocationsRead(s, relocationsAt, assembly.relocations);
  }

  /** The disassembler recovers exactly the assembly from every file the builder writes, if and only
      if it can show the path of every symbol; it always recovers all but the paths it cannot show. */
  lemma BuildThenList(assembly: Assembly, options: Options)
    requires ObjectBytes(assembly, options).Ok? && Representable(assembly, options)
    ensures forall i | 0 <= i < |assembly.symbols| :: SymbolIdentity(assembly.symbols[i]).Some?
    ensures ParseForListing(ObjectBytes(assembly, options).value) ==
            Some(assembly.(symbols := ShownSymbols(assembly.symbols)))
    ensures
      ParseForListing(ObjectBytes(assembly, options).value) == Some(assembly) <==>
      forall i | 0 <= i < |assembly.symbols| :: Listable(assembly.symbols[i])
  {
    hide ParseForListing, ObjectBytes, SymbolTable, RelocationTable, ReadHeader, ReadListedSymbols, SymbolIdentity,
         Listable, PlainSymbol, HeaderFor;
    Sections(assembly, options);
    BuiltFileIsListed(assembly, options);
    var s := ObjectBytes(assembly, options).value;
    ListedSymbolsRead(s, HEADER_SIZE + |assembly.code|, assembly.symbols);
  }

  /** Any change of one payload byte of an accepted file makes the firmware reject it, and nothing
      but the checksum test does so. */
  lemma TamperedPayloadRejected(s: seq<byte>, i: nat, b: byte)
    requires ParseObject(s).Ok? && HEADER_SIZE <= i < ParseObject(s).value.header.totalSize
    requires b != s[i]
    ensures ParseObject(s[i := b]) == Err(BadMagic)
  {
    hide ReadSymbols, ReadRelocations, Fnv.Checksum;
    var t := s[i := b];
    var total := ReadHeader(s).totalSize;
    SameHeader(s, t);
    var payload := s[HEADER_SIZE..total];
    assert t[HEADER_SIZE..total] == payload[i - HEADER_SIZE := b];
    Fnv.OneByteChangesChecksum(payload, i - HEADER_SIZE, b);
  }

  lemma SameHeader(s: seq<byte>, t: seq<byte>)
    requires HEADER_SIZE <= |s| && HEADER_SIZE <= |t| && s[..HEADER_SIZE] == t[..HEADER_SIZE]
    ensures ReadHeader(s) == ReadHeader(t)
  {
    var h := s[..HEADER_SIZE];
    assert forall k | 0 <= k < HEADER_SIZE :: s[k] == h[k] && t[k] == h[k];
  }
}
