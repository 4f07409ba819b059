/** The two-pass assembler: source lines to code bytes, symbols and relocations. */
module Assembler {
  import opened Bytes
  import opened Isa
  import opened Literals
  import opened Lexer

  // PlcObjectSymbolKind
  const CONST_POINT_ID: byte := 0
  const PARAM_POINT_ID: byte := 1
  const SLOT_VAR: byte := 2

  // PlcAssemblySymbolFlags
  const FLAG_NONE: byte := 0
  const FLAG_SLOT_VAR_PRIVATE: byte := 1

  const MAX_SYMBOLS: nat := 0xFFFF

  /** Names a slot variable may not take, as the assembler knows them. */
  const RESERVED_NAMES: set<string> := {
    "loaded", "state", "runEnabled", "status", "cycleCounter", "faultCode", "faultInfo", "bytecodeSize",
    "source", "programType", "paramsSummary", "inputChannel", "outputChannel", "runtimeMapOk", "start",
    "stop", "reset", "clearFault"
  }

  datatype Options = Options(
    abiVersion: u16,
    flags: u32,
    entryOffset: u32,
    maxInstructionsPerScan: u32,
    maxScanTimeUs: u32,
    runtimeHeaderAddress: u32,
    pointBindings: map<string, string>
  )

  datatype Symbol = Symbol(name: string, kind: byte, path: string, valueType: byte, access: byte, flags: byte)

  datatype Relocation = Relocation(codeOffset: nat, symbolIndex: u16, kind: byte)

  datatype Assembly = Assembly(code: seq<byte>, symbols: seq<Symbol>, relocations: seq<Relocation>)

  datatype Reason =
    | BadLine(reason: LineError)
    | DuplicateLabel
    | LabelOutOfRange
    | UnsupportedInstruction
    | OperandCount
    | BadLiteral
    | UnknownLabel
    | BranchOutOfRange
    | UnknownSymbol
    | TypeConflict
    | DeclarationSyntax
    | MissingBinding
    | BadValueType
    | ReservedName
    | NameMissing
    | DuplicateSymbol
    | TooManySymbols

  datatype Error = Error(line: nat, reason: Reason)

  // Reading

  function ReadLines(source: seq<string>, number: nat, lines: seq<Line>, host: Host): Result<seq<Line>, Error> {
    if source == [] then Ok(lines)
    else
      match ReadLine(source[0], number + 1, host)
      case Err(e) => Err(Error(number + 1, BadLine(e)))
      case Ok(None) => ReadLines(source[1..], number + 1, lines, host)
      case Ok(Some(line)) => ReadLines(source[1..], number + 1, lines + [line], host)
  }

  // First pass

  type Labels = map<string, u16>

  /** The size the first pass gives an instruction with operands. */
  function OperandFormSize(opcode: byte): Option<nat> {
    if opcode == 0x14 || 0x2C <= opcode <= 0x30 || 0x32 <= opcode <= 0x35 || opcode == 0x37 || opcode == 0x38 ||
       opcode == 0x3A || opcode == 0x3B || 0x3D <= opcode <= 0x3F || 0x41 <= opcode <= 0x43 then Some(3)
    else if 0x10 <= opcode <= 0x13 || 0x15 <= opcode <= 0x1A || opcode == 0x20 || opcode == 0x21 then Some(5)
    else if 0x1B <= opcode <= 0x1D then Some(5)
    else if opcode == 0x3C || opcode == 0x40 then Some(5)
    else if opcode == 0x31 || opcode == 0x36 || opcode == 0x39 then Some(7)
    else None
  }

  /** GetEncodedInstructionSize: nothing where the source throws. */
  function EncodedSize(tokens: seq<string>): Option<nat> {
    if tokens == [] then Some(0)
    else
      var bare := if |tokens| == 1 then Some(1) else None;
      match KeywordOf(tokens[0])
      case Some(Instruction(opcode)) =>
        if OperandFormSize(opcode).Some? then OperandFormSize(opcode) else bare
      case Some(DB) => Some(|tokens| - 1)
      case Some(_) => Some(0)
      case None => bare
  }

  function LabelLines(lines: seq<Line>, offset: nat, labels: Labels): Result<Labels, Error> {
    if lines == [] then Ok(labels)
    else
      var line := lines[0];
      if line.tag != "" && line.tag in labels then Err(Error(line.number, DuplicateLabel))
      else if line.tag != "" && 0xFFFF < offset then Err(Error(line.number, LabelOutOfRange))
      else
        var next := if line.tag != "" then labels[line.tag := offset] else labels;
        match EncodedSize(line.tokens)
        case None => Err(Error(line.number, UnsupportedInstruction))
        case Some(size) => LabelLines(lines[1..], offset + size, next)
  }

  // Second pass

  /** What the second pass has written so far. */
  datatype Output = Output(
    code: seq<byte>,
    symbols: seq<Symbol>,
    relocations: seq<Relocation>,
    index: map<string, nat>
  )

  const EMPTY: Output := Output([], [], [], map[])

  function ValueTypeOf(token: string): Option<byte> {
    var word := Upper(Trim(token));
    if word == "BOOL" then Some(TYPE_BOOL)
    else if word == "UINT16" || word == "WORD" then Some(TYPE_UINT16)
    else if word == "INT" || word == "INT16" then Some(TYPE_INT16)
    else if word == "UINT32" || word == "DWORD" then Some(TYPE_UINT32)
    else if word == "DINT" || word == "INT32" then Some(TYPE_INT32)
    else if word == "FLOAT" || word == "REAL" then Some(TYPE_FLOAT)
    else if word == "ENUM" then Some(TYPE_ENUM)
    else if word == "STRING" then Some(TYPE_STRING)
    else None
  }

  predicate IsBlank(s: string) {
    forall i | 0 <= i < |s| :: IsWhiteSpace(s[i])
  }

  function AddSymbol(out: Output, line: nat, symbol: Symbol): Result<Output, Error> {
    if IsBlank(symbol.name) then Err(Error(line, NameMissing))
    else if symbol.name in out.index then Err(Error(line, DuplicateSymbol))
    else if MAX_SYMBOLS <= |out.symbols| then Err(Error(line, TooManySymbols))
    else
      Ok(out.(symbols := out.symbols + [symbol], index := out.index[symbol.name := |out.symbols|]))
  }

  /** The symbol a declaration line declares. */
  function DeclaredSymbol(keyword: Keyword, tokens: seq<string>, options: Options): Result<Symbol, Reason> {
    if keyword == CONST then
      if |tokens| != 4 || Upper(tokens[1]) != "POINT_ID" then Err(DeclarationSyntax)
      else Ok(Symbol(tokens[2], CONST_POINT_ID, tokens[3], TYPE_UNKNOWN, ACCESS_READ, FLAG_NONE))
    else if keyword == PARAM then
      if |tokens| != 3 || Upper(tokens[1]) != "POINT_ID" then Err(DeclarationSyntax)
      else if tokens[2] !in options.pointBindings then Err(MissingBinding)
      else Ok(Symbol(tokens[2], PARAM_POINT_ID, options.pointBindings[tokens[2]], TYPE_UNKNOWN, ACCESS_READ, FLAG_NONE))
    else
      if |tokens| != 3 && |tokens| != 4 then Err(DeclarationSyntax)
      else
        var qualified := |tokens| == 4;
        var typeToken := if qualified then tokens[2] else tokens[1];
        var name := if qualified then tokens[3] else tokens[2];
        var private := qualified && Upper(tokens[1]) == "PRIVATE";
        if qualified && !private && Upper(tokens[1]) != "PUBLIC" then Err(DeclarationSyntax)
        else if ValueTypeOf(typeToken).None? then Err(BadValueType)
        else if name in RESERVED_NAMES then Err(ReservedName)
        else Ok(Symbol(name, SLOT_VAR, "", ValueTypeOf(typeToken).value, ACCESS_READ_WRITE,
                       if private then FLAG_SLOT_VAR_PRIVATE else FLAG_NONE))
  }

  function MergeAccess(current: byte, next: byte): byte {
    if current == ACCESS_READ_WRITE || next == ACCESS_READ_WRITE then ACCESS_READ_WRITE
    else if current == next then current
    else ACCESS_READ_WRITE
  }

  /** The symbol after one more use at the given type and access; nothing if the types conflict. */
  function Used(symbol: Symbol, valueType: byte, access: byte): Option<Symbol> {
    if symbol.valueType == TYPE_UNKNOWN then
      Some(symbol.(valueType := valueType, access := MergeAccess(symbol.access, access)))
    else if symbol.valueType != valueType then None
    else Some(symbol.(access := MergeAccess(symbol.access, access)))
  }

  predicate WellIndexed(out: Output) {
    && |out.symbols| <= MAX_SYMBOLS
    && forall name | name in out.index :: out.index[name] < |out.symbols|
  }

  /** WriteRelocatedSymbol: the operand is written as zero and left to the linker. */
  function WriteSymbol(out: Output, line: nat, name: string, operand: Operand): (r: Result<Output, Error>)
    requires WellIndexed(out) && operand.IsSymbol()
    ensures r.Ok? ==> WellIndexed(r.value)
  {
    if name !in out.index then Err(Error(line, UnknownSymbol))
    else
      var i := out.index[name];
      match Used(out.symbols[i], operand.valueType, operand.access)
      case None => Err(Error(line, TypeConflict))
      case Some(symbol) =>
        Ok(Output(out.code + (if operand.PointIndex? then Le16(0) else Le32(0)),
                  out.symbols[i := symbol],
                  out.relocations + [Relocation(|out.code|, i, operand.RelocationKind())],
                  out.index))
  }

  /** ResolveBranchOffset, at the position of the operand. A numeric operand is never a label. */
  function BranchPattern(token: string, at: nat, labels: Labels): Result<u16, Reason> {
    match Int16Pattern(token)
    case Some(v) => Ok(v)
    case None =>
      if token !in labels then Err(UnknownLabel)
      else
        var offset := labels[token] - (at + 2);
        if offset < -0x8000 || 0x7FFF < offset then Err(BranchOutOfRange) else Ok(Pattern16(offset))
  }

  function LiteralValue(operand: Operand, token: string, host: Host): (v: Option<u32>)
    ensures v.Some? ==> v.value < operand.Limit()
  {
    match operand
    case Int16Literal => Int16Pattern(token)
    case UInt16Literal => UInt16Value(token)
    case UInt32Literal => UInt32Value(token)
    case Int32Literal => Int32Pattern(token)
    case Float32Literal => host.parseFloat(token)
    case _ => None
  }

  function LeBytes(width: nat, v: u32): (s: seq<byte>)
    requires width == 2 ==> v < 0x1_0000
    requires width == 2 || width == 4
    ensures |s| == width
  {
    if width == 2 then Le16(v) else Le32(v)
  }

  function WriteOperand(out: Output, line: nat, operand: Operand, token: string, labels: Labels, host: Host)
    : (r: Result<Output, Error>)
    requires WellIndexed(out)
    ensures r.Ok? ==> WellIndexed(r.value)
  {
    if operand.IsSymbol() then WriteSymbol(out, line, token, operand)
    else if operand == BranchTarget then
      match BranchPattern(token, |out.code|, labels)
      case Err(reason) => Err(Error(line, reason))
      case Ok(v) => Ok(out.(code := out.code + Le16(v)))
    else
      match LiteralValue(operand, token, host)
      case None => Err(Error(line, BadLiteral))
      case Some(v) => Ok(out.(code := out.code + LeBytes(operand.Width(), v)))
  }

  function WriteOperands(out: Output, line: nat, operands: seq<Operand>, tokens: seq<string>, labels: Labels,
                         host: Host): (r: Result<Output, Error>)
    requires WellIndexed(out) && |operands| == |tokens|
    ensures r.Ok? ==> WellIndexed(r.value)
    decreases operands
  {
    if operands == [] then Ok(out)
    else
      match WriteOperand(out, line, operands[0], tokens[0], labels, host)
      case Err(e) => Err(e)
      case Ok(next) => WriteOperands(next, line, operands[1..], tokens[1..], labels, host)
  }

  function WriteData(out: Output, line: nat, tokens: seq<string>): (r: Result<Output, Error>)
    requires WellIndexed(out)
    ensures r.Ok? ==> WellIndexed(r.value)
    decreases tokens
  {
    if tokens == [] then Ok(out)
    else
      match ByteValue(tokens[0])
      case None => Err(Error(line, BadLiteral))
      case Some(b) => WriteData(out.(code := out.code + [b]), line, tokens[1..])
  }

  function WriteInstruction(out: Output, line: nat, opcode: byte, tokens: seq<string>, labels: Labels, host: Host)
    : (r: Result<Output, Error>)
    requires WellIndexed(out)
    ensures r.Ok? ==> WellIndexed(r.value)
  {
    if |tokens| != |OperandsOf(opcode)| then Err(Error(line, OperandCount))
    else WriteOperands(out.(code := out.code + [opcode]), line, OperandsOf(opcode), tokens, labels, host)
  }

  /** One line of the second pass. */
  function WriteLine(out: Output, line: Line, labels: Labels, options: Options, host: Host)
    : (r: Result<Output, Error>)
    requires WellIndexed(out)
    ensures r.Ok? ==> WellIndexed(r.value)
  {
    if line.tokens == [] then Ok(out)
    else
      match KeywordOf(line.tokens[0])
      case None => Err(Error(line.number, UnsupportedInstruction))
      case Some(Instruction(opcode)) =>
        WriteInstruction(out, line.number, opcode, line.tokens[1..], labels, host)
      case Some(DB) =>
        if |line.tokens| < 2 then Err(Error(line.number, OperandCount))
        else WriteData(out, line.number, line.tokens[1..])
      case Some(keyword) =>
        match DeclaredSymbol(keyword, line.tokens, options)
        case Err(reason) => Err(Error(line.number, reason))
        case Ok(symbol) => AddSymbol(out, line.number, symbol)
  }

  function WriteLines(out: Output, lines: seq<Line>, labels: Labels, options: Options, host: Host)
    : (r: Result<Output, Error>)
    requires WellIndexed(out)
    ensures r.Ok? ==> WellIndexed(r.value)
    decreases lines
  {
    if lines == [] then Ok(out)
    else
      match WriteLine(out, lines[0], labels, options, host)
      case Err(e) => Err(e)
      case Ok(next) => WriteLines(next, lines[1..], labels, options, host)
  }

  function AssembleLines(lines: seq<Line>, options: Options, host: Host): Result<Assembly, Error> {
    match LabelLines(lines, 0, map[])
    case Err(e) => Err(e)
    case Ok(labels) =>
      match WriteLines(EMPTY, lines, labels, options, host)
      case Err(e) => Err(e)
      case Ok(out) => Ok(Assembly(out.code, out.symbols, out.relocations))
  }

  function Assemble(source: seq<string>, options: Options, host: Host): Result<Assembly, Error> {
    match ReadLines(source, 0, [], host)
    case Err(e) => Err(e)
    case Ok(lines) => AssembleLines(lines, options, host)
  }

  /** The assembler's three loops. */
  method Run(source: seq<string>, options: Options, host: Host) returns (r: Result<Assembly, Error>)
    ensures r == Assemble(source, options, host)
  {
    hide ReadLine, EncodedSize, WriteLine;
    var lines: seq<Line> := [];
    for i := 0 to |source|
      invariant ReadLines(source[i..], i, lines, host) == ReadLines(source, 0, [], host)
    {
      assert source[i..][1..] == source[i + 1..];
      match ReadLine(source[i], i + 1, host)
      case Err(e) => return Err(Error(i + 1, BadLine(e)));
      case Ok(None) =>
      case Ok(Some(line)) => lines := lines + [line];
    }

    var labels: Labels := map[];
    var offset := 0;
    for i := 0 to |lines|
      invariant 0 <= offset
      invariant LabelLines(lines[i..], offset, labels) == LabelLines(lines, 0, map[])
    {
      assert lines[i..][1..] == lines[i + 1..];
      var line := lines[i];
      if line.tag != "" {
        if line.tag in labels {
          return Err(Error(line.number, DuplicateLabel));
        }
        if 0xFFFF < offset {
          return Err(Error(line.number, LabelOutOfRange));
        }
        labels := labels[line.tag := offset];
      }
      match EncodedSize(line.tokens)
      case None => return Err(Error(line.number, UnsupportedInstruction));
      case Some(size) => offset := offset + size;
    }

    var out := EMPTY;
    for i := 0 to |lines|
      invariant WellIndexed(out)
      invariant WriteLines(out, lines[i..], labels, options, host) == WriteLines(EMPTY, lines, labels, options, host)
    {
      assert lines[i..][1..] == lines[i + 1..];
      match WriteLine(out, lines[i], labels, options, host)
      case Err(e) => return Err(e);
      case Ok(next) => out := next;
    }
    r := Ok(Assembly(out.code, out.symbols, out.relocations));
  }
}
