/** The disassembler: from an object's code, symbols and relocations back to source lines. */
module Disassembler {
  import opened Bytes
  import opened Isa
  import opened Literals
  import opened Lexer
  import opened Code
  import opened Assembler
  import opened ObjectParser

  type ByOffset = map<nat, Relocation>

  /** The relocations by code offset; the last one at an offset wins. */
  function RelocationsByOffset(relocations: seq<Relocation>): ByOffset {
    if relocations == [] then map[]
    else
      var last := relocations[|relocations| - 1];
      RelocationsByOffset(relocations[..|relocations| - 1])[last.codeOffset := last]
  }

  function HexChar(n: nat): char
    requires n < 16
  {
    if n < 10 then n as char + '0' else (n - 10) as char + 'A'
  }

  function DataByte(b: byte): string {
    "0x" + [HexChar(b / 16), HexChar(b % 16)]
  }

  function SymbolName(symbols: seq<Symbol>, i: u16): string {
    if i < |symbols| then symbols[i].name else "sym" + Decimal(i)
  }

  /** The name of the symbol a relocation at the operand refers to; without one, the operand itself is
      taken for a symbol index, and nothing comes out if it is too large for one. */
  function PointText(v: u32, at: nat, relocations: ByOffset, symbols: seq<Symbol>): Option<string> {
    if at in relocations then Some(SymbolName(symbols, relocations[at].symbolIndex))
    else if v < 0x1_0000 then Some(SymbolName(symbols, v))
    else None
  }

  function LiteralText(operand: Operand, v: u32, host: Host): string
    requires v < operand.Limit()
  {
    match operand
    case Float32Literal => host.formatFloat(v)
    case Int32Literal => SignedDecimal(Signed32(v))
    case UInt32Literal => Decimal(v)
    case UInt16Literal => Decimal(v)
    case _ => if v < 0x1_0000 then SignedDecimal(Signed16(v)) else ""
  }

  function OperandTexts(operands: seq<Operand>, args: seq<u32>, at: nat, relocations: ByOffset, symbols: seq<Symbol>,
                        host: Host): Option<seq<string>>
    requires Fits(operands, args)
  {
    if operands == [] then Some([])
    else
      var first := if operands[0].IsSymbol() then PointText(args[0], at, relocations, symbols)
                   else Some(LiteralText(operands[0], args[0], host));
      var rest := OperandTexts(operands[1..], args[1..], at + operands[0].Width(), relocations, symbols, host);
      if first.Some? && rest.Some? then Some([first.value] + rest.value) else None
  }

  function InstructionText(code: seq<byte>, pc: nat, relocations: ByOffset, symbols: seq<Symbol>, host: Host)
    : Option<string>
    requires pc < |code| && pc + SizeOf(code[pc]) <= |code|
  {
    SizeIsWidths(code[pc]);
    var operands := OperandsOf(code[pc]);
    match OperandTexts(operands, ReadArgs(operands, code, pc + 1), pc + 1, relocations, symbols, host)
    case None => None
    case Some(texts) => Some(PrintLine(Mnemonic(code[pc]), texts))
  }

  /** IsInstructionOpcode: the float arithmetic is missing from it. */
  predicate EndsData(opcode: byte) {
    IsInstruction(opcode) && !(0x50 <= opcode <= 0x53)
  }

  function DataEnd(code: seq<byte>, pc: nat): (end: nat)
    requires pc <= |code|
    ensures pc <= end <= |code|
    decreases |code| - pc
  {
    if pc == |code| || EndsData(code[pc]) then pc else DataEnd(code, pc + 1)
  }

  function DataTexts(data: seq<byte>): (texts: seq<string>)
    ensures |texts| == |data|
  {
    seq(|data|, i requires 0 <= i < |data| => DataByte(data[i]))
  }

  function Prepend(lines: seq<string>, rest: Option<seq<string>>): Option<seq<string>> {
    if rest.Some? then Some(lines + rest.value) else None
  }

  lemma PrependLine(lines: seq<string>, line: string, rest: Option<seq<string>>)
    ensures Prepend(lines, Prepend([line], rest)) == Prepend(lines + [line], rest)
  {
    if rest.Some? {
      assert lines + ([line] + rest.value) == lines + [line] + rest.value;
    }
  }

  lemma PrependNothing(rest: Option<seq<string>>)
    ensures Prepend([], rest) == rest
  {
    if rest.Some? {
      assert [] + rest.value == rest.value;
    }
  }

  /** The lines of the listing from `pc` on; nothing if an instruction is cut short. */
  function ListFrom(code: seq<byte>, pc: nat, relocations: ByOffset, symbols: seq<Symbol>, host: Host)
    : Option<seq<string>>
    requires pc <= |code|
    decreases |code| - pc
  {
    if pc == |code| then Some([])
    else if IsInstruction(code[pc]) then
      if |code| < pc + SizeOf(code[pc]) then None
      else
        var line := InstructionText(code, pc, relocations, symbols, host);
        var rest := ListFrom(code, pc + SizeOf(code[pc]), relocations, symbols, host);
        if line.Some? then Prepend([line.value], rest) else None
    else
      var end := DataEnd(code, pc + 1);
      Prepend([PrintLine("DB", DataTexts(code[pc..end]))], ListFrom(code, end, relocations, symbols, host))
  }

  /** BuildInstructionListing */
  method BuildInstructionListing(code: seq<byte>, relocations: seq<Relocation>, symbols: seq<Symbol>, host: Host)
    returns (r: Option<seq<string>>)
    ensures r == ListFrom(code, 0, RelocationsByOffset(relocations), symbols, host)
  {
    hide InstructionText, SizeOf;
    var byOffset: ByOffset := map[];
    for i := 0 to |relocations|
      invariant byOffset == RelocationsByOffset(relocations[..i])
    {
      assert relocations[..i + 1][..i] == relocations[..i];
      byOffset := byOffset[relocations[i].codeOffset := relocations[i]];
    }
    assert relocations[..|relocations|] == relocations;
    var lines: seq<string> := [];
    var pc := 0;
    PrependNothing(ListFrom(code, 0, byOffset, symbols, host));
    while pc < |code|
      invariant pc <= |code|
      invariant ListFrom(code, 0, byOffset, symbols, host) == Prepend(lines, ListFrom(code, pc, byOffset, symbols, host))
    {
      if IsInstruction(code[pc]) {
        if |code| < pc + SizeOf(code[pc]) {
          return None;
        }
        match InstructionText(code, pc, byOffset, symbols, host)
        case None => return None;
        case Some(line) =>
          PrependLine(lines, line, ListFrom(code, pc + SizeOf(code[pc]), byOffset, symbols, host));
          lines := lines + [line];
          pc := pc + SizeOf(code[pc]);
      } else {
        var start := pc;
        pc := pc + 1;
        while pc < |code| && !EndsData(code[pc])
          invariant start < pc <= |code|
          invariant DataEnd(code, pc) == DataEnd(code, start + 1)
        {
          pc := pc + 1;
        }
        var line := PrintLine("DB", DataTexts(code[start..pc]));
        PrependLine(lines, line, ListFrom(code, pc, byOffset, symbols, host));
        lines := lines + [line];
      }
    }
    assert lines + [] == lines;
    r := Some(lines);
  }

  function ValueTypeWord(valueType: byte): string {
    if valueType == TYPE_UNKNOWN then "UNKNOWN"
    else if valueType == TYPE_BOOL then "BOOL"
    else if valueType == TYPE_UINT16 then "UINT16"
    else if valueType == TYPE_INT16 then "INT"
    else if valueType == TYPE_UINT32 then "UINT32"
    else if valueType == TYPE_INT32 then "DINT"
    else if valueType == TYPE_FLOAT then "FLOAT"
    else if valueType == TYPE_ENUM then "ENUM"
    else if valueType == TYPE_STRING then "STRING"
    else "TYPE_" + Decimal(valueType)
  }

  function DeclarationText(symbol: Symbol): string {
    if symbol.kind == SLOT_VAR then
      if symbol.flags % 2 == 1 then
        "VAR" + " " + ("PRIVATE" + " " + PrintLine(ValueTypeWord(symbol.valueType), [symbol.name]))
      else "VAR" + " " + PrintLine(ValueTypeWord(symbol.valueType), [symbol.name])
    else if symbol.kind == PARAM_POINT_ID then "PARAM" + " " + PrintLine("POINT_ID", [symbol.name])
    else "CONST" + " " + PrintLine("POINT_ID", [symbol.name, symbol.path])
  }

  function DeclarationTexts(symbols: seq<Symbol>): (texts: seq<string>)
    ensures |texts| == |symbols|
  {
    seq(|symbols|, i requires 0 <= i < |symbols| => DeclarationText(symbols[i]))
  }

  /** The final TrimEnd of the text: blank lines at the end go, and so does white space before them. */
  function TrimListing(lines: seq<string>): seq<string> {
    if lines == [] then []
    else
      var init, last := lines[..|lines| - 1], TrimEnd(lines[|lines| - 1]);
      if last == "" then TrimListing(init) else init + [last]
  }

  /** BuildObjectFileSource: declarations, a blank line, instructions. */
  function Listing(assembly: Assembly, host: Host): Option<seq<string>> {
    match ListFrom(assembly.code, 0, RelocationsByOffset(assembly.relocations), assembly.symbols, host)
    case None => None
    case Some(instructions) =>
      var blank := if assembly.symbols == [] then [] else [""];
      Some(TrimListing(DeclarationTexts(assembly.symbols) + blank + instructions))
  }

  /** DisassembleObjectFile */
  function Disassemble(s: seq<byte>, host: Host): Option<seq<string>> {
    match ParseForListing(s)
    case None => None
    case Some(assembly) => Listing(assembly, host)
  }
}
