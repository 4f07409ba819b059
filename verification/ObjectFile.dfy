/** objectFileV1: the builder that serialises an assembly, and the firmware's parser. */
module ObjectFile {
  import opened Bytes
  import opened Assembler
  import Fnv
  import Lexer

  const MAGIC: u32 := 0x314A424F
  const VERSION: u16 := 1
  const ABI_VERSION: u16 := 1
  const HEADER_SIZE: nat := 52
  const SYMBOL_SIZE: nat := 102
  const RELOCATION_SIZE: nat := 8
  const NAME_SIZE: nat := 16
  const DEVICE_SIZE: nat := 16
  const FEATURE_SIZE: nat := 32
  const POINT_SIZE: nat := 32

  datatype Identity = Identity(device: string, feature: string, point: string)

  const NO_IDENTITY: Identity := Identity("", "", "")

  datatype SymbolRecord = SymbolRecord(name: string, kind: byte, flags: byte, id: Identity, expectedType: byte,
                                       access: byte)

  datatype Header = Header(
    magic: u32,
    version: u16,
    abiVersion: u16,
    flags: u32,
    totalSize: u32,
    codeSize: u32,
    entryOffset: u32,
    symbolCount: u16,
    relocationCount: u16,
    symbolTableOffset: u32,
    relocationTableOffset: u32,
    maxInstructionsPerScan: u32,
    maxScanTimeUs: u32,
    runtimeHeaderAddress: u32,
    checksum: u32
  )

  function HeaderFront(h: Header): (s: seq<byte>)
    ensures |s| == 24
  {
    Le32(h.magic) + Le16(h.version) + Le16(h.abiVersion) + Le32(h.flags) + Le32(h.totalSize) + Le32(h.codeSize) +
    Le32(h.entryOffset)
  }

  function HeaderBack(h: Header): (s: seq<byte>)
    ensures |s| == 28
  {
    Le16(h.symbolCount) + Le16(h.relocationCount) + Le32(h.symbolTableOffset) + Le32(h.relocationTableOffset) +
    Le32(h.maxInstructionsPerScan) + Le32(h.maxScanTimeUs) + Le32(h.runtimeHeaderAddress) + Le32(h.checksum)
  }

  function HeaderBytes(h: Header): (s: seq<byte>)
    ensures |s| == HEADER_SIZE
  {
    HeaderFront(h) + HeaderBack(h)
  }

  function ReadHeader(s: seq<byte>): Header
    requires HEADER_SIZE <= |s|
  {
    Header(Fetch32(s, 0), Fetch16(s, 4), Fetch16(s, 6), Fetch32(s, 8), Fetch32(s, 12), Fetch32(s, 16), Fetch32(s, 20),
           Fetch16(s, 24), Fetch16(s, 26), Fetch32(s, 28), Fetch32(s, 32), Fetch32(s, 36), Fetch32(s, 40),
           Fetch32(s, 44), Fetch32(s, 48))
  }

  // Building

  datatype BuildError = EntryOutOfRange | FieldTooLong | BadPointPath

  function AsciiByte(c: char): byte {
    if c as int < 0x80 then c as int else '?' as int
  }

  function Ascii(s: string): (r: seq<byte>)
    ensures |r| == |s|
  {
    seq(|s|, i requires 0 <= i < |s| => AsciiByte(s[i]))
  }

  /** WriteFixedAscii: a field always keeps room for a terminating zero. */
  function FixedAscii(value: string, capacity: nat): (r: Result<seq<byte>, BuildError>)
    ensures r.Ok? ==> |r.value| == capacity
  {
    if value == "" then Ok(Zeros(capacity))
    else if capacity <= |value| then Err(FieldTooLong)
    else Ok(Ascii(value) + Zeros(capacity - |value|))
  }

  function LastDot(s: string): (n: int)
    ensures -1 <= n < |s|
    ensures 0 <= n ==> s[n] == '.'
    ensures forall i | n < i < |s| :: s[i] != '.'
  {
    if s == "" then -1
    else if s[|s| - 1] == '.' then |s| - 1
    else LastDot(s[..|s| - 1])
  }

  /** ParsePointPath: device and point are cut off at the first and the last dot. */
  function ParsePointPath(path: string): Option<Identity> {
    var first := Lexer.Find(path, c => c == '.');
    var last := LastDot(path);
    if IsBlank(path) || first == |path| || first == 0 || last <= first + 1 || |path| - 1 <= last then None
    else Some(Identity(path[..first], path[first + 1..last], path[last + 1..]))
  }

  function IdentityBytes(id: Identity): (r: Result<seq<byte>, BuildError>)
    ensures r.Ok? ==> |r.value| == DEVICE_SIZE + FEATURE_SIZE + POINT_SIZE
  {
    var device := FixedAscii(id.device, DEVICE_SIZE);
    var feature := FixedAscii(id.feature, FEATURE_SIZE);
    var point := FixedAscii(id.point, POINT_SIZE);
    if device.Ok? && feature.Ok? && point.Ok? then Ok(device.value + feature.value + point.value) else Err(FieldTooLong)
  }

  function SymbolIdentity(symbol: Symbol): Option<Identity> {
    if symbol.kind == SLOT_VAR then Some(NO_IDENTITY) else ParsePointPath(symbol.path)
  }

  function SymbolBytes(symbol: Symbol): (r: Result<seq<byte>, BuildError>)
    ensures r.Ok? ==> |r.value| == SYMBOL_SIZE
  {
    var name := FixedAscii(symbol.name, NAME_SIZE);
    if name.Err? then Err(FieldTooLong)
    else if SymbolIdentity(symbol).None? then Err(BadPointPath)
    else
      var id := IdentityBytes(SymbolIdentity(symbol).value);
      if id.Err? then Err(FieldTooLong)
      else Ok(name.value + [symbol.kind, symbol.flags] + id.value + [symbol.valueType, symbol.access, 0, 0])
  }

  function SymbolTable(symbols: seq<Symbol>): (r: Result<seq<byte>, BuildError>)
    ensures r.Ok? ==> |r.value| == SYMBOL_SIZE * |symbols|
  {
    if symbols == [] then Ok([])
    else
      var last := |symbols| - 1;
      var init := SymbolTable(symbols[..last]);
      if init.Err? then init
      else
        var bytes := SymbolBytes(symbols[last]);
        if bytes.Err? then bytes else Ok(init.value + bytes.value)
  }

  function RelocationBytes(relocation: Relocation): (r: seq<byte>)
    ensures |r| == RELOCATION_SIZE
  {
    Le32(relocation.codeOffset % 0x1_0000_0000) + Le16(relocation.symbolIndex) + [relocation.kind, 0]
  }

  function RelocationTable(relocations: seq<Relocation>): (r: seq<byte>)
    ensures |r| == RELOCATION_SIZE * |relocations|
  {
    if relocations == [] then []
    else RelocationTable(relocations[..|relocations| - 1]) + RelocationBytes(relocations[|relocations| - 1])
  }

  function HeaderFor(assembly: Assembly, options: Options, checksum: u32): Header {
    var symbolTable := HEADER_SIZE + |assembly.code|;
    var relocationTable := symbolTable + SYMBOL_SIZE * |assembly.symbols|;
    var total := relocationTable + RELOCATION_SIZE * |assembly.relocations|;
    Header(MAGIC, VERSION, options.abiVersion, options.flags, total % 0x1_0000_0000,
           |assembly.code| % 0x1_0000_0000, options.entryOffset, |assembly.symbols| % 0x1_0000,
           |assembly.relocations| % 0x1_0000, symbolTable % 0x1_0000_0000, relocationTable % 0x1_0000_0000,
           options.maxInstructionsPerScan, options.maxScanTimeUs, options.runtimeHeaderAddress, checksum)
  }

  function ObjectBytes(assembly: Assembly, options: Options): Result<seq<byte>, BuildError> {
    if |assembly.code| < options.entryOffset then Err(EntryOutOfRange)
    else
      var symbols := SymbolTable(assembly.symbols);
      if symbols.Err? then symbols
      else
        var payload := assembly.code + symbols.value + RelocationTable(assembly.relocations);
        Ok(HeaderBytes(HeaderFor(assembly, options, Fnv.Checksum(payload))) + payload)
  }

  /** Build: the records are written with a zero checksum, which is then patched in. */
  method Build(assembly: Assembly, options: Options) returns (r: Result<seq<byte>, BuildError>)
    ensures r == ObjectBytes(assembly, options)
  {
    hide SymbolBytes, RelocationBytes, HeaderFor;
    if |assembly.code| < options.entryOffset {
      return Err(EntryOutOfRange);
    }
    var header := HeaderFor(assembly, options, 0);
    var stream := HeaderBytes(header) + assembly.code;
    for i := 0 to |assembly.symbols|
      invariant SymbolTable(assembly.symbols[..i]).Ok?
      invariant stream == HeaderBytes(header) + assembly.code + SymbolTable(assembly.symbols[..i]).value
    {
      SymbolTableStep(assembly.symbols, i);
      var bytes := SymbolBytes(assembly.symbols[i]);
      if bytes.Err? {
        SymbolTableFails(assembly.symbols, i + 1);
        return bytes;
      }
      stream := stream + bytes.value;
    }
    assert assembly.symbols[..|assembly.symbols|] == assembly.symbols;
    ghost var symbols := SymbolTable(assembly.symbols).value;
    for i := 0 to |assembly.relocations|
      invariant stream == HeaderBytes(header) + assembly.code + symbols + RelocationTable(assembly.relocations[..i])
    {
      assert assembly.relocations[..i + 1][..i] == assembly.relocations[..i];
      stream := stream + RelocationBytes(assembly.relocations[i]);
    }
    assert assembly.relocations[..|assembly.relocations|] == assembly.relocations;
    ghost var payload := assembly.code + symbols + RelocationTable(assembly.relocations);
    assert stream == HeaderBytes(header) + payload;
    var checksum := Fnv.Checksum32(stream[HEADER_SIZE..]);
    assert stream[HEADER_SIZE..] == payload;
    PatchChecksum(header, payload, checksum);
    HeaderForChecksum(assembly, options, checksum);
    stream := stream[..48] + Le32(checksum) + stream[52..];
    r := Ok(stream);
  }

  lemma HeaderForChecksum(assembly: Assembly, options: Options, checksum: u32)
    ensures HeaderFor(assembly, options, 0).(checksum := checksum) == HeaderFor(assembly, options, checksum)
  {
  }

  lemma PatchChecksum(header: Header, payload: seq<byte>, checksum: u32)
    ensures
      var stream := HeaderBytes(header) + payload;
      stream[..48] + Le32(checksum) + stream[52..] == HeaderBytes(header.(checksum := checksum)) + payload
  {
    hide Le32, Le16;
  }

  lemma SymbolTableStep(symbols: seq<Symbol>, i: nat)
    requires i < |symbols| && SymbolTable(symbols[..i]).Ok?
    ensures
      var bytes := SymbolBytes(symbols[i]);
      SymbolTable(symbols[..i + 1]) ==
      if bytes.Err? then bytes else Ok(SymbolTable(symbols[..i]).value + bytes.value)
  {
    hide SymbolBytes;
    assert symbols[..i + 1][..i] == symbols[..i];
  }

  lemma {:induction false} SymbolTableFails(symbols: seq<Symbol>, i: nat)
    requires i <= |symbols| && SymbolTable(symbols[..i]).Err?
    ensures SymbolTable(symbols) == SymbolTable(symbols[..i])
    decreases |symbols|
  {
    hide SymbolBytes;
    if i == |symbols| {
      assert symbols[..i] == symbols;
    } else {
      var init := symbols[..|symbols| - 1];
      assert init[..i] == symbols[..i];
      SymbolTableFails(init, i);
    }
  }
}
