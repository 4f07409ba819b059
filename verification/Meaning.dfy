/** What a source program says, read line by line without emitting anything, and the proof that the
    assembler's output encodes it. */
module Meaning {
  import opened Bytes
  import opened Isa
  import opened Literals
  import opened Lexer
  import opened Code
  import opened Assembler

  /** An operand as written: a number, a point symbol, or a label to branch to. */
  datatype Arg = Value(bits: u32) | Point(name: string) | Target(tag: string)

  datatype SourceInstr = SourceInstr(opcode: byte, args: seq<Arg>)

  function ArgOf(operand: Operand, token: string, host: Host): Option<Arg> {
    if operand.IsSymbol() then Some(Point(token))
    else if operand == BranchTarget then
      match Int16Pattern(token)
      case Some(v) => Some(Value(v))
      case None => Some(Target(token))
    else
      match LiteralValue(operand, token, host)
      case Some(v) => Some(Value(v))
      case None => None
  }

  function ArgsOf(operands: seq<Operand>, tokens: seq<string>, host: Host): (r: Option<seq<Arg>>)
    requires |operands| == |tokens|
    ensures r.Some? ==> |r.value| == |operands|
  {
    if operands == [] then Some([])
    else
      var first := ArgOf(operands[0], tokens[0], host);
      var rest := ArgsOf(operands[1..], tokens[1..], host);
      if first.Some? && rest.Some? then Some([first.value] + rest.value) else None
  }

  /** The instruction on a line, if it holds one. */
  function InstrOf(line: Line, host: Host): (r: Option<SourceInstr>)
    ensures r.Some? ==> Shaped(r.value)
  {
    if line.tokens == [] then None
    else
      match KeywordOf(line.tokens[0])
      case Some(Instruction(opcode)) =>
        if |line.tokens| - 1 != |OperandsOf(opcode)| then None
        else
          var args := ArgsOf(OperandsOf(opcode), line.tokens[1..], host);
          if args.Some? then Some(SourceInstr(opcode, args.value)) else None
      case _ => None
  }

  predicate Shaped(instr: SourceInstr) {
    IsInstruction(instr.opcode) && |instr.args| == |OperandsOf(instr.opcode)|
  }

  /** The source program: its instructions in order. */
  function Program(lines: seq<Line>, host: Host): (program: seq<SourceInstr>)
    ensures forall k | 0 <= k < |program| :: Shaped(program[k])
  {
    if lines == [] then []
    else
      match InstrOf(lines[0], host)
      case Some(instr) => [instr] + Program(lines[1..], host)
      case None => Program(lines[1..], host)
  }

  function SourceOpcodes(program: seq<SourceInstr>): (s: seq<byte>)
    ensures |s| == |program| && forall k | 0 <= k < |s| :: s[k] == program[k].opcode
  {
    seq(|program|, k requires 0 <= k < |program| => program[k].opcode)
  }

  predicate Declares(lines: seq<Line>, tag: string) {
    exists i | 0 <= i < |lines| :: lines[i].tag == tag
  }

  /** The instruction a label stands before: the number of instructions on the lines above it. */
  function LabelIndex(lines: seq<Line>, tag: string, host: Host): (k: nat)
    ensures k <= |Program(lines, host)|
  {
    if lines == [] || lines[0].tag == tag then 0
    else (if InstrOf(lines[0], host).Some? then 1 else 0) + LabelIndex(lines[1..], tag, host)
  }

  // Lowering: the instruction a source instruction becomes at a code offset, given the offsets of
  // the labels and a value for each use of a point symbol.

  type Fill = (string, Operand) -> u32

  function Zero(name: string, operand: Operand): u32 {
    0
  }

  function LowerArg(operand: Operand, arg: Arg, next: nat, labels: Labels, fill: Fill): (v: u32)
    ensures v < operand.Limit()
  {
    match arg
    case Value(bits) => bits % operand.Limit()
    case Point(name) => fill(name, operand) % operand.Limit()
    case Target(tag) => if tag in labels then (labels[tag] - next) % 0x1_0000 else 0
  }

  function LowerArgs(operands: seq<Operand>, args: seq<Arg>, next: nat, labels: Labels, fill: Fill): (r: seq<u32>)
    requires |operands| == |args|
    ensures Fits(operands, r)
    ensures forall i | 0 <= i < |r| :: r[i] == LowerArg(operands[i], args[i], next, labels, fill)
  {
    if operands == [] then []
    else [LowerArg(operands[0], args[0], next, labels, fill)] +
         LowerArgs(operands[1..], args[1..], next, labels, fill)
  }

  function Lower(instr: SourceInstr, at: nat, labels: Labels, fill: Fill): (r: Instr)
    requires Shaped(instr)
    ensures Legal(r) && r.opcode == instr.opcode
  {
    Instr(instr.opcode, LowerArgs(OperandsOf(instr.opcode), instr.args, at + SizeOf(instr.opcode), labels, fill))
  }

  function LowerAll(program: seq<SourceInstr>, at: nat, labels: Labels, fill: Fill): (r: seq<Instr>)
    requires forall k | 0 <= k < |program| :: Shaped(program[k])
    ensures AllLegal(r) && |r| == |program|
    ensures forall k | 0 <= k < |r| :: r[k].opcode == program[k].opcode
  {
    hide Legal, Lower, Shaped, SizeOf;
    if program == [] then []
    else [Lower(program[0], at, labels, fill)] +
         LowerAll(program[1..], at + SizeOf(program[0].opcode), labels, fill)
  }

  /** An argument that its operand can hold: a branch target is a declared label within reach. */
  predicate ArgSound(operand: Operand, arg: Arg, next: nat, labels: Labels) {
    match arg
    case Value(bits) => !operand.IsSymbol() && bits < operand.Limit()
    case Point(_) => operand.IsSymbol()
    case Target(tag) => operand == BranchTarget && tag in labels && -0x8000 <= labels[tag] - next < 0x8000
  }

  predicate Sound(instr: SourceInstr, at: nat, labels: Labels)
    requires Shaped(instr)
  {
    forall i | 0 <= i < |instr.args| ::
      ArgSound(OperandsOf(instr.opcode)[i], instr.args[i], at + SizeOf(instr.opcode), labels)
  }

  predicate AllSound(program: seq<SourceInstr>, at: nat, labels: Labels)
    requires forall k | 0 <= k < |program| :: Shaped(program[k])
  {
    program == [] || (Sound(program[0], at, labels) &&
                      AllSound(program[1..], at + SizeOf(program[0].opcode), labels))
  }

  // Uses of point symbols

  /** The point operand of an instruction: only instructions with a single operand have one. */
  predicate UsesPoint(instr: SourceInstr)
    requires Shaped(instr)
  {
    |instr.args| == 1 && instr.args[0].Point? && OperandsOf(instr.opcode)[0].IsSymbol()
  }

  predicate Known(instr: SourceInstr, index: map<string, nat>)
    requires Shaped(instr)
  {
    UsesPoint(instr) ==> instr.args[0].name in index && index[instr.args[0].name] < MAX_SYMBOLS
  }

  function RelocationOf(instr: SourceInstr, at: nat, index: map<string, nat>): seq<Relocation>
    requires Shaped(instr) && Known(instr, index)
  {
    if UsesPoint(instr) then
      [Relocation(at + 1, index[instr.args[0].name], OperandsOf(instr.opcode)[0].RelocationKind())]
    else []
  }

  function RelocationsOf(program: seq<SourceInstr>, at: nat, index: map<string, nat>): seq<Relocation>
    requires forall k | 0 <= k < |program| :: Shaped(program[k]) && Known(program[k], index)
  {
    if program == [] then []
    else
      RelocationOf(program[0], at, index) +
      RelocationsOf(program[1..], at + SizeOf(program[0].opcode), index)
  }

  /** The symbol table after the uses an instruction makes of it. */
  function SymbolsAfter(symbols: seq<Symbol>, instr: SourceInstr, index: map<string, nat>): seq<Symbol>
    requires Shaped(instr)
  {
    if UsesPoint(instr) && instr.args[0].name in index && index[instr.args[0].name] < |symbols| then
      var operand := OperandsOf(instr.opcode)[0];
      var i := index[instr.args[0].name];
      match Used(symbols[i], operand.valueType, operand.access)
      case Some(symbol) => symbols[i := symbol]
      case None => symbols
    else symbols
  }

  // One operand, one instruction, one line

  /** What writing one operand means: `r` is `out` with the operand appended as lowered with zeros. */
  predicate OperandWritten(out: Output, operand: Operand, token: string, labels: Labels, host: Host, next: nat, r: Output)
  {
    var arg := ArgOf(operand, token, host);
    && arg.Some?
    && ArgSound(operand, arg.value, next, labels)
    && r.code == out.code + ArgBytes(operand, LowerArg(operand, arg.value, next, labels, Zero))
    && (!operand.IsSymbol() ==> r == out.(code := r.code))
  }

  lemma WriteOperandMeaning(out: Output, line: nat, operand: Operand, token: string, labels: Labels, host: Host,
                            next: nat)
    requires WellIndexed(out) && WriteOperand(out, line, operand, token, labels, host).Ok?
    requires operand == BranchTarget ==> next == |out.code| + 2
    ensures OperandWritten(out, operand, token, labels, host, next,
                           WriteOperand(out, line, operand, token, labels, host).value)
  {
    hide WriteOperand, OperandWritten;
    if operand.IsSymbol() {
      WriteSymbolMeaning(out, line, operand, token, labels, host, next);
    } else if operand == BranchTarget {
      WriteBranchMeaning(out, line, token, labels, host);
    } else {
      WriteLiteralMeaning(out, line, operand, token, labels, host, next);
    }
  }

  lemma WriteSymbolMeaning(out: Output, line: nat, operand: Operand, name: string, labels: Labels, host: Host,
                           next: nat)
    requires WellIndexed(out) && operand.IsSymbol() && WriteOperand(out, line, operand, name, labels, host).Ok?
    ensures OperandWritten(out, operand, name, labels, host, next,
                           WriteOperand(out, line, operand, name, labels, host).value)
  {
    hide Used, LiteralValue, BranchPattern, Int16Pattern;
  }

  lemma WriteLiteralMeaning(out: Output, line: nat, operand: Operand, token: string, labels: Labels, host: Host,
                            next: nat)
    requires WellIndexed(out) && !operand.IsSymbol() && operand != BranchTarget
    requires WriteOperand(out, line, operand, token, labels, host).Ok?
    ensures OperandWritten(out, operand, token, labels, host, next,
                           WriteOperand(out, line, operand, token, labels, host).value)
  {
    hide LiteralValue, WriteSymbol, BranchPattern, Int16Pattern, Le16, Le32;
  }

  lemma WriteBranchMeaning(out: Output, line: nat, token: string, labels: Labels, host: Host)
    requires WellIndexed(out) && WriteOperand(out, line, BranchTarget, token, labels, host).Ok?
    ensures OperandWritten(out, BranchTarget, token, labels, host, |out.code| + 2,
                           WriteOperand(out, line, BranchTarget, token, labels, host).value)
  {
    hide Int16Pattern, LiteralValue, WriteSymbol;
    if Int16Pattern(token).None? {
      BranchMeaning(token, |out.code|, labels);
    }
  }

  lemma BranchMeaning(token: string, at: nat, labels: Labels)
    requires BranchPattern(token, at, labels).Ok? && Int16Pattern(token).None?
    ensures token in labels && BranchPattern(token, at, labels).value == (labels[token] - (at + 2)) % 0x1_0000
    ensures Signed16(BranchPattern(token, at, labels).value) == labels[token] - (at + 2)
  {
    hide Int16Pattern;
  }

  lemma {:induction false} WriteOperandsMeaning(out: Output, line: nat, operands: seq<Operand>, tokens: seq<string>,
                                                labels: Labels, host: Host, next: nat)
    requires WellIndexed(out) && |operands| == |tokens|
    requires WriteOperands(out, line, operands, tokens, labels, host).Ok?
    requires BranchTarget in operands ==> |operands| == 1 && next == |out.code| + 2
    ensures ArgsOf(operands, tokens, host).Some?
    ensures
      var args := ArgsOf(operands, tokens, host).value;
      && (forall i | 0 <= i < |args| :: ArgSound(operands[i], args[i], next, labels))
      && WriteOperands(out, line, operands, tokens, labels, host).value.code ==
         out.code + EncodeArgs(operands, LowerArgs(operands, args, next, labels, Zero))
    decreases operands
  {
    hide WriteOperand, ArgOf, LowerArg, ArgBytes, ArgSound;
    if operands != [] {
      WriteOperandMeaning(out, line, operands[0], tokens[0], labels, host, next);
      var mid := WriteOperand(out, line, operands[0], tokens[0], labels, host).value;
      WriteOperandsMeaning(mid, line, operands[1..], tokens[1..], labels, host, next);
      var args := ArgsOf(operands, tokens, host).value;
      assert args[1..] == ArgsOf(operands[1..], tokens[1..], host).value;
      var lowered := LowerArgs(operands, args, next, labels, Zero);
      assert lowered[1..] == LowerArgs(operands[1..], args[1..], next, labels, Zero);
    }
  }

  lemma {:induction false} WriteLiteralsKeepTables(out: Output, line: nat, operands: seq<Operand>,
                                                   tokens: seq<string>, labels: Labels, host: Host)
    requires WellIndexed(out) && |operands| == |tokens|
    requires forall i | 0 <= i < |operands| :: !operands[i].IsSymbol()
    requires WriteOperands(out, line, operands, tokens, labels, host).Ok?
    ensures
      var r := WriteOperands(out, line, operands, tokens, labels, host).value;
      r == out.(code := r.code)
    decreases operands
  {
    hide LiteralValue, BranchPattern, WriteSymbol;
    if operands != [] {
      var mid := WriteOperand(out, line, operands[0], tokens[0], labels, host).value;
      assert mid == out.(code := mid.code);
      WriteLiteralsKeepTables(mid, line, operands[1..], tokens[1..], labels, host);
    }
  }

  lemma WriteInstructionTables(out: Output, line: nat, opcode: byte, tokens: seq<string>, labels: Labels, host: Host)
    requires WellIndexed(out) && IsInstruction(opcode) && |tokens| == |OperandsOf(opcode)|
    requires WriteInstruction(out, line, opcode, tokens, labels, host).Ok?
    requires ArgsOf(OperandsOf(opcode), tokens, host).Some?
    ensures
      var instr := SourceInstr(opcode, ArgsOf(OperandsOf(opcode), tokens, host).value);
      var r := WriteInstruction(out, line, opcode, tokens, labels, host).value;
      && Known(instr, out.index)
      && r.relocations == out.relocations + RelocationOf(instr, |out.code|, out.index)
      && r.symbols == SymbolsAfter(out.symbols, instr, out.index)
      && r.index == out.index
  {
    hide Used, ArgOf;
    var operands := OperandsOf(opcode);
    var begun := out.(code := out.code + [opcode]);
    if |operands| == 1 && operands[0].IsSymbol() {
      var r := WriteSymbol(begun, line, tokens[0], operands[0]).value;
      assert WriteOperands(r, line, operands[1..], tokens[1..], labels, host) == Ok(r);
      assert ArgOf(operands[0], tokens[0], host) == Some(Point(tokens[0])) by { PointArg(operands[0], tokens[0], host); }
    } else {
      WriteLiteralsKeepTables(begun, line, operands, tokens, labels, host);
    }
  }

  lemma PointArg(operand: Operand, token: string, host: Host)
    requires operand.IsSymbol()
    ensures ArgOf(operand, token, host) == Some(Point(token))
  {
  }

  lemma WriteInstructionMeaning(out: Output, line: nat, opcode: byte, tokens: seq<string>, labels: Labels, host: Host)
    requires WellIndexed(out) && IsInstruction(opcode)
    requires WriteInstruction(out, line, opcode, tokens, labels, host).Ok?
    ensures |tokens| == |OperandsOf(opcode)| && ArgsOf(OperandsOf(opcode), tokens, host).Some?
    ensures
      var instr := SourceInstr(opcode, ArgsOf(OperandsOf(opcode), tokens, host).value);
      && Sound(instr, |out.code|, labels)
      && WriteInstruction(out, line, opcode, tokens, labels, host).value.code ==
         out.code + Encode(Lower(instr, |out.code|, labels, Zero))
  {
    hide WriteOperands, ArgsOf, LowerArgs, EncodeArgs;
    var begun := out.(code := out.code + [opcode]);
    WriteOperandsMeaning(begun, line, OperandsOf(opcode), tokens, labels, host, |out.code| + SizeOf(opcode));
  }

  predicate NoData(line: Line) {
    line.tokens != [] ==> KeywordOf(line.tokens[0]) != Some(DB)
  }

  /** The symbol declared on a line, if the line declares one. */
  function DeclarationOn(line: Line, options: Options): Option<Symbol> {
    if line.tokens == [] then None
    else
      match KeywordOf(line.tokens[0])
      case None => None
      case Some(keyword) =>
        if keyword.Instruction? || keyword.DB? then None
        else
          match DeclaredSymbol(keyword, line.tokens, options)
          case Ok(symbol) => Some(symbol)
          case Err(_) => None
  }

  /** One line of the second pass writes the encoding of the instruction on it and records the uses
      the instruction makes of point symbols, or it declares a symbol, or it does nothing. */
  lemma WriteLineMeaning(out: Output, line: Line, labels: Labels, options: Options, host: Host)
    requires WellIndexed(out) && NoData(line) && WriteLine(out, line, labels, options, host).Ok?
    ensures
      var r := WriteLine(out, line, labels, options, host).value;
      match InstrOf(line, host)
      case Some(instr) =>
        && DeclarationOn(line, options).None?
        && Known(instr, out.index)
        && Sound(instr, |out.code|, labels)
        && r == Output(out.code + Encode(Lower(instr, |out.code|, labels, Zero)),
                       SymbolsAfter(out.symbols, instr, out.index),
                       out.relocations + RelocationOf(instr, |out.code|, out.index),
                       out.index)
      case None =>
        match DeclarationOn(line, options)
        case Some(symbol) => AddSymbol(out, line.number, symbol) == Ok(r)
        case None => r == out
  {
    hide WriteInstruction, DeclaredSymbol, AddSymbol, KeywordOf, ArgsOf;
    if line.tokens != [] {
      match KeywordOf(line.tokens[0])
      case None =>
      case Some(keyword) =>
        if keyword.Instruction? {
          WriteInstructionMeaning(out, line.number, keyword.opcode, line.tokens[1..], labels, host);
          WriteInstructionTables(out, line.number, keyword.opcode, line.tokens[1..], labels, host);
        }
    }
  }

  function SizeOn(line: Line, host: Host): nat {
    match InstrOf(line, host)
    case Some(instr) => SizeOf(instr.opcode)
    case None => 0
  }

  /** The two passes agree on the size of every line the second pass accepts. */
  lemma PassesAgree(out: Output, line: Line, labels: Labels, options: Options, host: Host)
    requires WellIndexed(out) && NoData(line) && WriteLine(out, line, labels, options, host).Ok?
    ensures EncodedSize(line.tokens) == Some(SizeOn(line, host))
  {
    hide WriteOperands, DeclaredSymbol, AddSymbol, KeywordOf, ArgsOf, SizeOf, OperandFormSize, OperandsOf;
    if line.tokens != [] {
      match KeywordOf(line.tokens[0])
      case None =>
      case Some(keyword) =>
        if keyword.Instruction? {
          WriteInstructionMeaning(out, line.number, keyword.opcode, line.tokens[1..], labels, host);
          FormSize(keyword.opcode);
        }
    }
  }

  lemma FormSize(opcode: byte)
    requires IsInstruction(opcode)
    ensures OperandFormSize(opcode) == if OperandsOf(opcode) == [] then None else Some(SizeOf(opcode))
    ensures OperandsOf(opcode) == [] ==> SizeOf(opcode) == 1
  {
  }

  predicate Extends(small: map<string, nat>, large: map<string, nat>) {
    forall name | name in small :: name in large && large[name] == small[name]
  }

  predicate AllKnown(program: seq<SourceInstr>, index: map<string, nat>)
    requires forall k | 0 <= k < |program| :: Shaped(program[k])
  {
    forall k | 0 <= k < |program| :: Known(program[k], index)
  }

  lemma WriteLineExtends(out: Output, line: Line, labels: Labels, options: Options, host: Host)
    requires WellIndexed(out) && NoData(line) && WriteLine(out, line, labels, options, host).Ok?
    ensures Extends(out.index, WriteLine(out, line, labels, options, host).value.index)
  {
    hide WriteLine, InstrOf, DeclarationOn, Encode, SymbolsAfter, RelocationOf;
    WriteLineMeaning(out, line, labels, options, host);
  }

  lemma LowerAllCons(instr: SourceInstr, rest: seq<SourceInstr>, at: nat, labels: Labels, fill: Fill)
    requires Shaped(instr) && forall k | 0 <= k < |rest| :: Shaped(rest[k])
    ensures
      EncodeAll(LowerAll([instr] + rest, at, labels, fill)) ==
      Encode(Lower(instr, at, labels, fill)) + EncodeAll(LowerAll(rest, at + SizeOf(instr.opcode), labels, fill))
  {
    hide Encode, EncodeAll, Lower, SizeOf, Shaped, Legal;
    LowerAllUnfold(instr, rest, at, labels, fill);
    EncodeAllCons(Lower(instr, at, labels, fill), LowerAll(rest, at + SizeOf(instr.opcode), labels, fill));
  }

  lemma LowerAllUnfold(instr: SourceInstr, rest: seq<SourceInstr>, at: nat, labels: Labels, fill: Fill)
    requires Shaped(instr) && forall k | 0 <= k < |rest| :: Shaped(rest[k])
    ensures
      LowerAll([instr] + rest, at, labels, fill) ==
      [Lower(instr, at, labels, fill)] + LowerAll(rest, at + SizeOf(instr.opcode), labels, fill)
  {
    hide Lower, SizeOf, Shaped, Legal;
    assert ([instr] + rest)[1..] == rest;
  }

  lemma RelocationsCons(instr: SourceInstr, rest: seq<SourceInstr>, at: nat, index: map<string, nat>)
    requires Shaped(instr) && Known(instr, index)
    requires forall k | 0 <= k < |rest| :: Shaped(rest[k]) && Known(rest[k], index)
    ensures
      RelocationsOf([instr] + rest, at, index) ==
      RelocationOf(instr, at, index) + RelocationsOf(rest, at + SizeOf(instr.opcode), index)
  {
    hide RelocationOf, Known, Shaped, SizeOf;
    var program := [instr] + rest;
    assert program[1..] == rest;
  }

  lemma CodeCons(pre: seq<byte>, instr: SourceInstr, rest: seq<SourceInstr>, labels: Labels)
    requires Shaped(instr) && (forall k | 0 <= k < |rest| :: Shaped(rest[k]))
    ensures
      pre + EncodeAll(LowerAll([instr] + rest, |pre|, labels, Zero)) ==
      pre + Encode(Lower(instr, |pre|, labels, Zero)) +
      EncodeAll(LowerAll(rest, |pre| + SizeOf(instr.opcode), labels, Zero))
  {
    hide *;
    LowerAllCons(instr, rest, |pre|, labels, Zero);
    var a := Encode(Lower(instr, |pre|, labels, Zero));
    var b := EncodeAll(LowerAll(rest, |pre| + SizeOf(instr.opcode), labels, Zero));
    assert pre + (a + b) == pre + a + b;
  }

  lemma KnownSoundCons(instr: SourceInstr, rest: seq<SourceInstr>, at: nat, labels: Labels, index: map<string, nat>)
    requires Shaped(instr) && (forall k | 0 <= k < |rest| :: Shaped(rest[k]))
    requires AllKnown([instr] + rest, index) && AllSound([instr] + rest, at, labels)
    ensures Known(instr, index) && AllKnown(rest, index)
    ensures Sound(instr, at, labels) && AllSound(rest, at + SizeOf(instr.opcode), labels)
  {
    hide Shaped, SizeOf, Known, Sound;
    var program := [instr] + rest;
    assert program[0] == instr && program[1..] == rest;
    assert Known(program[0], index);
    forall k | 0 <= k < |rest|
      ensures Known(rest[k], index)
    {
      assert rest[k] == program[k + 1];
    }
  }

  lemma LowerPoint(instr: SourceInstr, at: nat, labels: Labels, fill: Fill)
    requires Shaped(instr) && UsesPoint(instr)
    ensures
      var operand := OperandsOf(instr.opcode)[0];
      var v := fill(instr.args[0].name, operand) % operand.Limit();
      Encode(Lower(instr, at, labels, fill)) == [instr.opcode] + ArgBytes(operand, v)
  {
    hide OperandsOf, SizeOf, IsInstruction, ArgBytes;
    var operands := OperandsOf(instr.opcode);
    var args := Lower(instr, at, labels, fill).args;
    assert operands[1..] == [] && args[1..] == [];
    assert EncodeArgs(operands[1..], args[1..]) == [];
  }

  lemma KnownEach(program: seq<SourceInstr>, index: map<string, nat>)
    requires forall k | 0 <= k < |program| :: Shaped(program[k])
    requires AllKnown(program, index)
    ensures forall k | 0 <= k < |program| :: Known(program[k], index)
  {
  }

  lemma KnownExtends(instr: SourceInstr, at: nat, small: map<string, nat>, large: map<string, nat>)
    requires Shaped(instr) && Known(instr, small) && Extends(small, large)
    ensures Known(instr, large) && RelocationOf(instr, at, large) == RelocationOf(instr, at, small)
  {
  }

  /** From `out`, `r` has written the encoding of `program`, point operands zero, and one relocation
      for each point operand. */
  predicate Wrote(out: Output, program: seq<SourceInstr>, labels: Labels, r: Output)
    requires forall k | 0 <= k < |program| :: Shaped(program[k])
  {
    && Extends(out.index, r.index)
    && AllKnown(program, r.index)
    && AllSound(program, |out.code|, labels)
    && r.code == out.code + EncodeAll(LowerAll(program, |out.code|, labels, Zero))
    && r.relocations == out.relocations + RelocationsOf(program, |out.code|, r.index)
  }

  lemma WroteMore(out: Output, mid: Output, r: Output, instr: SourceInstr, rest: seq<SourceInstr>, labels: Labels)
    requires Shaped(instr) && forall k | 0 <= k < |rest| :: Shaped(rest[k])
    requires Known(instr, out.index) && Sound(instr, |out.code|, labels) && mid.index == out.index
    requires mid.code == out.code + Encode(Lower(instr, |out.code|, labels, Zero))
    requires mid.relocations == out.relocations + RelocationOf(instr, |out.code|, out.index)
    requires Wrote(mid, rest, labels, r)
    ensures Wrote(out, [instr] + rest, labels, r)
  {
    hide Encode, EncodeAll, Lower, LowerAll, Shaped, Known, Sound, RelocationOf, RelocationsOf, SizeOf;
    assert ([instr] + rest)[1..] == rest;
    KnownExtends(instr, |out.code|, out.index, r.index);
    LowerAllCons(instr, rest, |out.code|, labels, Zero);
    RelocationsCons(instr, rest, |out.code|, r.index);
  }

  lemma {:induction false} WriteLinesMeaning(out: Output, lines: seq<Line>, labels: Labels, options: Options, host: Host)
    requires WellIndexed(out) && (forall i | 0 <= i < |lines| :: NoData(lines[i]))
    requires WriteLines(out, lines, labels, options, host).Ok?
    ensures Wrote(out, Program(lines, host), labels, WriteLines(out, lines, labels, options, host).value)
    decreases lines
  {
    hide WriteLine, InstrOf, DeclarationOn, Encode, Lower, WellIndexed, Shaped, SizeOf, Known, Sound,
         RelocationOf, SymbolsAfter;
    if lines != [] {
      hide Wrote;
      var mid := WriteLine(out, lines[0], labels, options, host).value;
      WriteLineMeaning(out, lines[0], labels, options, host);
      WriteLinesMeaning(mid, lines[1..], labels, options, host);
      var r := WriteLines(out, lines, labels, options, host).value;
      var rest := Program(lines[1..], host);
      match InstrOf(lines[0], host)
      case Some(instr) => WroteMore(out, mid, r, instr, rest, labels);
      case None =>
        WriteLineExtends(out, lines[0], labels, options, host);
        WroteNothing(out, mid, r, rest, labels);
    }
  }

  lemma WroteNothing(out: Output, mid: Output, r: Output, rest: seq<SourceInstr>, labels: Labels)
    requires forall k | 0 <= k < |rest| :: Shaped(rest[k])
    requires mid.code == out.code && mid.relocations == out.relocations && Extends(out.index, mid.index)
    requires Wrote(mid, rest, labels, r)
    ensures Wrote(out, rest, labels, r)
  {
  }
}
