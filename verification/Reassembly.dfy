/** Writing a listing again: the instructions and declarations the disassembler prints assemble to what
    they were printed from. */
module Reassembly {
  import opened Bytes
  import opened Isa
  import opened IsaWords
  import opened Literals
  import opened Lexer
  import opened Code
  import opened Assembler
  import opened Meaning
  import opened Placement
  import opened Disassembler
  import opened Relisting

  // Instructions

  /** The runtime prints the instruction's float, if it pushes one, so that it can be read back. */
  predicate FloatsPrint(instr: SourceInstr, host: Host)
    requires Shaped(instr)
  {
    forall j | 0 <= j < |instr.args| ::
      OperandsOf(instr.opcode)[j] == Float32Literal && instr.args[j].Value? ==> FloatPrints(instr.args[j].bits, host)
  }

  lemma WriteLiteral(out: Output, line: nat, operand: Operand, v: u32, host: Host)
    requires WellIndexed(out) && !operand.IsSymbol() && v < operand.Limit()
    requires operand == Float32Literal ==> FloatPrints(v, host)
    ensures WriteOperand(out, line, operand, LiteralText(operand, v, host), map[], host) ==
            Ok(out.(code := out.code + ArgBytes(operand, v)))
  {
    hide LiteralText, LiteralValue, Int16Pattern, WriteSymbol, FloatPrints, PlainWord, Le16, Le32;
    LiteralReadsBack(operand, v, host);
  }

  lemma {:induction false} WriteLiterals(out: Output, line: nat, operands: seq<Operand>, args: seq<Arg>,
                                         values: seq<u32>, host: Host)
    requires WellIndexed(out) && |operands| == |args| && Fits(operands, values)
    requires forall i | 0 <= i < |operands| ::
               !operands[i].IsSymbol() && !args[i].Point? && (operands[i] == Float32Literal ==> FloatPrints(values[i], host))
    ensures WriteOperands(out, line, operands, ArgTexts(operands, args, values, host), map[], host) ==
            Ok(out.(code := out.code + EncodeArgs(operands, values)))
    decreases operands
  {
    hide WriteOperand, LiteralText, FloatPrints, ArgBytes;
    if operands != [] {
      WriteLiteral(out, line, operands[0], values[0], host);
      var bytes := ArgBytes(operands[0], values[0]);
      var mid := out.(code := out.code + bytes);
      WriteLiterals(mid, line, operands[1..], args[1..], values[1..], host);
      assert ArgTexts(operands, args, values, host)[1..] == ArgTexts(operands[1..], args[1..], values[1..], host);
      var rest := EncodeArgs(operands[1..], values[1..]);
      assert out.code + bytes + rest == out.code + (bytes + rest);
    } else {
      assert out.code + [] == out.code;
    }
  }

  /** The use an instruction makes of its point operand, if any, agrees with the symbol's type. */
  predicate UseAgrees(instr: SourceInstr, index: map<string, nat>, symbols: seq<Symbol>)
    requires Shaped(instr) && Known(instr, index)
  {
    UsesPoint(instr) ==>
      var operand := OperandsOf(instr.opcode)[0];
      var i := index[instr.args[0].name];
      i < |symbols| && Used(symbols[i], operand.valueType, operand.access).Some?
  }

  function Emitted(out: Output, instr: SourceInstr, labels: Labels): Output
    requires Shaped(instr) && Known(instr, out.index)
  {
    Output(out.code + Encode(Lower(instr, |out.code|, labels, Zero)),
           SymbolsAfter(out.symbols, instr, out.index),
           out.relocations + RelocationOf(instr, |out.code|, out.index),
           out.index)
  }

  lemma WriteInstrTexts(out: Output, line: nat, instr: SourceInstr, labels: Labels, host: Host)
    requires WellIndexed(out) && Shaped(instr) && Known(instr, out.index) && Sound(instr, |out.code|, labels)
    requires UseAgrees(instr, out.index, out.symbols) && FloatsPrint(instr, host)
    ensures WriteInstruction(out, line, instr.opcode, InstrTexts(instr, |out.code|, labels, host), map[], host) ==
            Ok(Emitted(out, instr, labels))
  {
    hide *;
    if UsesPoint(instr) {
      WritePointText(out, line, instr, labels, host);
    } else {
      WriteOtherTexts(out, line, instr, labels, host);
    }
  }

  lemma WritePointText(out: Output, line: nat, instr: SourceInstr, labels: Labels, host: Host)
    requires WellIndexed(out) && Shaped(instr) && Known(instr, out.index) && UsesPoint(instr)
    requires UseAgrees(instr, out.index, out.symbols)
    ensures WriteInstruction(out, line, instr.opcode, InstrTexts(instr, |out.code|, labels, host), map[], host) ==
            Ok(Emitted(out, instr, labels))
  {
    hide OperandsOf, SizeOf, IsInstruction, Used, Le16, Le32, LiteralText;
    hide Lower, Encode;
    var operands := OperandsOf(instr.opcode);
    LowerPoint(instr, |out.code|, labels, Zero);
    var texts := InstrTexts(instr, |out.code|, labels, host);
    PointText(instr, |out.code|, labels, host);
    assert operands[1..] == [] && texts[1..] == [];
    var begun := out.(code := out.code + [instr.opcode]);
    var written := WriteSymbol(begun, line, texts[0], operands[0]);
    assert WriteOperands(written.value, line, operands[1..], texts[1..], map[], host) == written;
    assert begun.code + ArgBytes(operands[0], 0) == out.code + ([instr.opcode] + ArgBytes(operands[0], 0));
  }

  lemma PointText(instr: SourceInstr, at: nat, labels: Labels, host: Host)
    requires Shaped(instr) && UsesPoint(instr)
    ensures InstrTexts(instr, at, labels, host) == [instr.args[0].name]
  {
    hide OperandsOf, SizeOf, IsInstruction, LiteralText;
    var operands := OperandsOf(instr.opcode);
    var values := Lower(instr, at, labels, Zero).args;
    assert operands[1..] == [] && instr.args[1..] == [] && values[1..] == [];
    assert ArgTexts(operands[1..], instr.args[1..], values[1..], host) == [];
  }

  lemma WriteOtherTexts(out: Output, line: nat, instr: SourceInstr, labels: Labels, host: Host)
    requires WellIndexed(out) && Shaped(instr) && Known(instr, out.index) && Sound(instr, |out.code|, labels)
    requires !UsesPoint(instr) && FloatsPrint(instr, host)
    ensures WriteInstruction(out, line, instr.opcode, InstrTexts(instr, |out.code|, labels, host), map[], host) ==
            Ok(Emitted(out, instr, labels))
  {
    var operands := OperandsOf(instr.opcode);
    hide OperandsOf, SizeOf, IsInstruction, FloatPrints, LiteralText, ArgBytes, WriteOperand, EncodeArgs, ArgTexts;
    var next := |out.code| + SizeOf(instr.opcode);
    var values := Lower(instr, |out.code|, labels, Zero).args;
    forall i | 0 <= i < |operands|
      ensures !operands[i].IsSymbol() && !instr.args[i].Point?
      ensures operands[i] == Float32Literal ==> FloatPrints(values[i], host)
    {
      assert ArgSound(operands[i], instr.args[i], next, labels);
      assert values[i] == LowerArg(operands[i], instr.args[i], next, labels, Zero);
    }
    var begun := out.(code := out.code + [instr.opcode]);
    WriteLiterals(begun, line, operands, instr.args, values, host);
    assert out.relocations + [] == out.relocations;
    assert begun.code + EncodeArgs(operands, values) == out.code + ([instr.opcode] + EncodeArgs(operands, values));
  }

  // Lines of words

  function Numbered(words: seq<seq<string>>, n: nat): (lines: seq<Line>)
    ensures |lines| == |words|
    ensures forall i | 0 <= i < |lines| :: lines[i] == Line(n + i + 1, "", words[i])
  {
    seq(|words|, i requires 0 <= i < |words| => Line(n + i + 1, "", words[i]))
  }

  function InstrWords(instr: SourceInstr, at: nat, labels: Labels, host: Host): (words: seq<string>)
    requires Shaped(instr)
    ensures words != [] && words[0] == Mnemonic(instr.opcode) && words[1..] == InstrTexts(instr, at, labels, host)
  {
    [Mnemonic(instr.opcode)] + InstrTexts(instr, at, labels, host)
  }

  function ProgramWords(program: seq<SourceInstr>, at: nat, labels: Labels, host: Host): (words: seq<seq<string>>)
    requires forall k | 0 <= k < |program| :: Shaped(program[k])
    ensures |words| == |program|
  {
    if program == [] then []
    else
      [InstrWords(program[0], at, labels, host)] +
      ProgramWords(program[1..], at + SizeOf(program[0].opcode), labels, host)
  }

  lemma WriteInstrWords(out: Output, line: Line, instr: SourceInstr, labels: Labels, options: Options, host: Host)
    requires WellIndexed(out) && Shaped(instr) && Known(instr, out.index) && Sound(instr, |out.code|, labels)
    requires UseAgrees(instr, out.index, out.symbols) && FloatsPrint(instr, host)
    requires line.tokens == InstrWords(instr, |out.code|, labels, host)
    ensures WriteLine(out, line, map[], options, host) == Ok(Emitted(out, instr, labels)) && NoData(line)
  {
    hide Mnemonic, KeywordOf, WriteInstruction, InstrTexts, Emitted, SizeOf, Lower, FloatsPrint, Sound, UseAgrees,
         WellIndexed;
    KeywordOfMnemonic(instr.opcode);
    WriteInstrTexts(out, line.number, instr, labels, host);
  }

  // Declarations come first

  function Declared(lines: seq<Line>, options: Options): seq<Symbol> {
    if lines == [] then []
    else
      match DeclarationOn(lines[0], options)
      case Some(symbol) => [symbol] + Declared(lines[1..], options)
      case None => Declared(lines[1..], options)
  }

  lemma UsesAgree(out: Output, line: Line, labels: Labels, options: Options, host: Host)
    requires WellIndexed(out) && NoData(line) && WriteLine(out, line, labels, options, host).Ok?
    requires InstrOf(line, host).Some? && Known(InstrOf(line, host).value, out.index)
    ensures UseAgrees(InstrOf(line, host).value, out.index, out.symbols)
  {
    var instr := InstrOf(line, host).value;
    hide KeywordOf, Used, LiteralValue, Int16Pattern, BranchPattern, IsInstruction, DeclaredSymbol, AddSymbol, WriteData;
    if UsesPoint(instr) {
      var operands := OperandsOf(instr.opcode);
      hide OperandsOf;
      assert ArgOf(operands[0], line.tokens[1..][0], host) == Some(instr.args[0]);
      assert instr.args[0] == Point(line.tokens[1]);
    }
  }

  /** A use does not see the declarations that come after it. */
  lemma LaterDeclarations(symbols: seq<Symbol>, later: seq<Symbol>, instr: SourceInstr, small: map<string, nat>,
                          large: map<string, nat>)
    requires Shaped(instr) && Known(instr, small) && Extends(small, large)
    requires forall name | name in small :: small[name] < |symbols|
    ensures Known(instr, large)
    ensures SymbolsAfter(symbols + later, instr, large) == SymbolsAfter(symbols, instr, small) + later
    ensures UseAgrees(instr, small, symbols) ==> UseAgrees(instr, large, symbols + later)
  {
    hide OperandsOf, IsInstruction, Used;
  }

  /** `ahead` is `out` with the remaining declarations made already. */
  predicate Ahead(out: Output, ahead: Output, later: seq<Symbol>, final: Output) {
    && WellIndexed(ahead)
    && ahead.code == out.code
    && ahead.relocations == out.relocations
    && ahead.symbols == out.symbols + later
    && ahead.index == final.index
  }

  lemma AheadInstr(out: Output, ahead: Output, later: seq<Symbol>, final: Output, instr: SourceInstr, labels: Labels)
    requires WellIndexed(out) && Ahead(out, ahead, later, final) && Extends(out.index, final.index)
    requires Shaped(instr) && Known(instr, out.index)
    ensures Known(instr, ahead.index)
    ensures Ahead(Emitted(out, instr, labels), Emitted(ahead, instr, labels), later, final)
    ensures UseAgrees(instr, out.index, out.symbols) ==> UseAgrees(instr, ahead.index, ahead.symbols)
  {
    hide Shaped, Known, Encode, Lower, SymbolsAfter, RelocationOf, UseAgrees;
    LaterDeclarations(out.symbols, later, instr, out.index, final.index);
    KnownExtends(instr, |out.code|, out.index, final.index);
    SymbolsAfterKeepsNames(ahead.symbols, instr, ahead.index);
  }

  lemma WriteNumberedCons(out: Output, words: seq<seq<string>>, n: nat, options: Options, host: Host)
    requires WellIndexed(out) && words != []
    ensures
      var first := WriteLine(out, Line(n + 1, "", words[0]), map[], options, host);
      first.Ok? ==>
      WriteLines(out, Numbered(words, n), map[], options, host) ==
      WriteLines(first.value, Numbered(words[1..], n + 1), map[], options, host)
  {
    hide WriteLine, WellIndexed;
    var lines := Numbered(words, n);
    assert lines[1..] == Numbered(words[1..], n + 1);
  }

  lemma WriteInstrOfLine(out: Output, line: Line, labels: Labels, options: Options, host: Host)
    requires WellIndexed(out) && NoData(line) && WriteLine(out, line, labels, options, host).Ok?
    requires InstrOf(line, host).Some?
    ensures
      var instr := InstrOf(line, host).value;
      && Known(instr, out.index)
      && Sound(instr, |out.code|, labels)
      && UseAgrees(instr, out.index, out.symbols)
      && WriteLine(out, line, labels, options, host) == Ok(Emitted(out, instr, labels))
      && DeclarationOn(line, options) == None
  {
    hide WriteLine, InstrOf, DeclarationOn, Encode, Lower, SymbolsAfter, RelocationOf, Known, Sound, UseAgrees, NoData,
         WellIndexed;
    WriteLineMeaning(out, line, labels, options, host);
    UsesAgree(out, line, labels, options, host);
  }

  function OptionSeq<T>(option: Option<T>): seq<T> {
    match option
    case Some(value) => [value]
    case None => []
  }

  lemma WriteOtherLine(out: Output, line: Line, labels: Labels, options: Options, host: Host)
    requires WellIndexed(out) && NoData(line) && WriteLine(out, line, labels, options, host).Ok?
    requires InstrOf(line, host).None?
    ensures
      var r := WriteLine(out, line, labels, options, host).value;
      && r.code == out.code && r.relocations == out.relocations && Extends(out.index, r.index)
      && r.symbols == out.symbols + OptionSeq(DeclarationOn(line, options))
      && (DeclarationOn(line, options).Some? ==>
            AddSymbol(out, line.number, DeclarationOn(line, options).value) == Ok(r))
  {
    hide WriteLine, InstrOf, DeclarationOn, Encode, Lower, SymbolsAfter, RelocationOf, Known, Sound, NoData, IsBlank;
    WriteLineMeaning(out, line, labels, options, host);
  }

  lemma LinesCons(lines: seq<Line>, options: Options, host: Host)
    requires lines != []
    ensures Program(lines, host) == OptionSeq(InstrOf(lines[0], host)) + Program(lines[1..], host)
    ensures Declared(lines, options) == OptionSeq(DeclarationOn(lines[0], options)) + Declared(lines[1..], options)
  {
    hide InstrOf, DeclarationOn, Shaped;
  }

  lemma WriteLinesHead(out: Output, lines: seq<Line>, labels: Labels, options: Options, host: Host)
    requires WellIndexed(out) && AllNoData(lines) && lines != [] && WriteLines(out, lines, labels, options, host).Ok?
    ensures
      var first := WriteLine(out, lines[0], labels, options, host);
      && first.Ok?
      && NoData(lines[0]) && AllNoData(lines[1..])
      && WriteLines(out, lines, labels, options, host) == WriteLines(first.value, lines[1..], labels, options, host)
      && Extends(first.value.index, WriteLines(out, lines, labels, options, host).value.index)
  {
    hide WriteLine, WellIndexed, NoData, Program;
    WriteLinesMeaning(WriteLine(out, lines[0], labels, options, host).value, lines[1..], labels, options, host);
  }

  lemma ProgramWordsCons(instr: SourceInstr, rest: seq<SourceInstr>, at: nat, labels: Labels, host: Host)
    requires Shaped(instr) && forall k | 0 <= k < |rest| :: Shaped(rest[k])
    ensures
      ProgramWords([instr] + rest, at, labels, host) ==
      [InstrWords(instr, at, labels, host)] + ProgramWords(rest, at + SizeOf(instr.opcode), labels, host)
  {
    hide Shaped, SizeOf, InstrWords, InstrTexts, ArgTexts, Lower, Mnemonic, OperandsOf, IsInstruction;
    var program := [instr] + rest;
    assert program[1..] == rest && program[0] == instr;
  }

  lemma NoDataCons(words: seq<seq<string>>, n: nat)
    requires words != [] && NoData(Line(n + 1, "", words[0])) && AllNoData(Numbered(words[1..], n + 1))
    ensures AllNoData(Numbered(words, n))
  {
    hide NoData;
    var lines, rest := Numbered(words, n), Numbered(words[1..], n + 1);
    forall i | 0 <= i < |lines|
      ensures NoData(lines[i])
    {
      if i > 0 {
        assert lines[i] == rest[i - 1];
      }
    }
  }

  lemma EmittedLength(out: Output, instr: SourceInstr, labels: Labels)
    requires Shaped(instr) && Known(instr, out.index)
    ensures |Emitted(out, instr, labels).code| == |out.code| + SizeOf(instr.opcode)
  {
    hide Shaped, Known, Encode, Lower, SymbolsAfter, RelocationOf, SizeOf;
  }

  /** What the printed instructions of a line and of the lines after it come to. */
  lemma WriteInstrCons(ahead: Output, instr: SourceInstr, rest: seq<SourceInstr>, labels: Labels, n: nat,
                       options: Options, host: Host)
    requires Shaped(instr) && forall k | 0 <= k < |rest| :: Shaped(rest[k])
    requires WellIndexed(ahead) && Known(instr, ahead.index) && Sound(instr, |ahead.code|, labels)
    requires UseAgrees(instr, ahead.index, ahead.symbols) && FloatsPrint(instr, host)
    requires WellIndexed(Emitted(ahead, instr, labels))
    requires AllNoData(Numbered(ProgramWords(rest, |ahead.code| + SizeOf(instr.opcode), labels, host), n + 1))
    ensures
      var words := ProgramWords([instr] + rest, |ahead.code|, labels, host);
      && AllNoData(Numbered(words, n))
      && WriteLines(ahead, Numbered(words, n), map[], options, host) ==
         WriteLines(Emitted(ahead, instr, labels),
                    Numbered(ProgramWords(rest, |ahead.code| + SizeOf(instr.opcode), labels, host), n + 1),
                    map[], options, host)
  {
    hide *;
    var words := ProgramWords([instr] + rest, |ahead.code|, labels, host);
    var others := ProgramWords(rest, |ahead.code| + SizeOf(instr.opcode), labels, host);
    ProgramWordsCons(instr, rest, |ahead.code|, labels, host);
    assert words[1..] == others;
    var line := Line(n + 1, "", words[0]);
    WriteInstrWords(ahead, line, instr, labels, options, host);
    WriteNumberedCons(ahead, words, n, options, host);
    NoDataCons(words, n);
  }

  predicate AllFloatsPrint(program: seq<SourceInstr>, host: Host)
    requires forall k | 0 <= k < |program| :: Shaped(program[k])
  {
    forall k | 0 <= k < |program| :: FloatsPrint(program[k], host)
  }

  lemma FloatsCons(instr: Option<SourceInstr>, rest: seq<SourceInstr>, host: Host)
    requires (instr.Some? ==> Shaped(instr.value)) && forall k | 0 <= k < |rest| :: Shaped(rest[k])
    requires AllFloatsPrint(OptionSeq(instr) + rest, host)
    ensures (instr.Some? ==> FloatsPrint(instr.value, host)) && AllFloatsPrint(rest, host)
  {
    hide FloatsPrint, Shaped;
    var program := OptionSeq(instr) + rest;
    if instr.Some? {
      assert program[0] == instr.value;
    }
    forall k | 0 <= k < |rest|
      ensures FloatsPrint(rest[k], host)
    {
      assert rest[k] == program[|OptionSeq(instr)| + k];
    }
  }

  lemma AheadOther(out: Output, mid: Output, ahead: Output, declared: Option<Symbol>, later: seq<Symbol>, final: Output)
    requires Ahead(out, ahead, OptionSeq(declared) + later, final)
    requires mid.code == out.code && mid.relocations == out.relocations
    requires mid.symbols == out.symbols + OptionSeq(declared)
    ensures Ahead(mid, ahead, later, final)
  {
    hide WellIndexed;
    assert out.symbols + (OptionSeq(declared) + later) == out.symbols + OptionSeq(declared) + later;
  }

  lemma AheadNothing(out: Output, ahead: Output, labels: Labels, n: nat, options: Options, host: Host)
    requires WellIndexed(out)
    requires Ahead(out, ahead, Declared([], options), WriteLines(out, [], labels, options, host).value)
    ensures
      var words := ProgramWords(Program([], host), |out.code|, labels, host);
      && AllNoData(Numbered(words, n))
      && WriteLines(ahead, Numbered(words, n), map[], options, host) == WriteLines(out, [], labels, options, host)
  {
    assert ProgramWords(Program([], host), |out.code|, labels, host) == [];
    assert ahead.symbols == out.symbols + [] == out.symbols;
  }

  lemma ProgramIs(lines: seq<Line>, instr: Option<SourceInstr>, host: Host)
    requires lines != [] && instr == InstrOf(lines[0], host)
    ensures Program(lines, host) ==
            if instr.Some? then [instr.value] + Program(lines[1..], host) else Program(lines[1..], host)
  {
    hide InstrOf, Shaped;
  }

  /** The printed instructions of `lines`, written after all their declarations, end where the lines
      themselves end. */
  lemma {:induction false} WriteProgramWords(out: Output, ahead: Output, lines: seq<Line>, labels: Labels, n: nat,
                                             options: Options, host: Host)
    requires WellIndexed(out) && AllNoData(lines) && WriteLines(out, lines, labels, options, host).Ok?
    requires Ahead(out, ahead, Declared(lines, options), WriteLines(out, lines, labels, options, host).value)
    requires AllFloatsPrint(Program(lines, host), host)
    ensures
      var words := ProgramWords(Program(lines, host), |out.code|, labels, host);
      && AllNoData(Numbered(words, n))
      && WriteLines(ahead, Numbered(words, n), map[], options, host) == WriteLines(out, lines, labels, options, host)
    decreases lines
  {
    hide *;
    if lines == [] {
      AheadNothing(out, ahead, labels, n, options, host);
    } else {
      var line, rest := lines[0], Program(lines[1..], host);
      LinesCons(lines, options, host);
      ProgramIs(lines, InstrOf(line, host), host);
      WriteLinesHead(out, lines, labels, options, host);
      FloatsCons(InstrOf(line, host), rest, host);
      var final := WriteLines(out, lines, labels, options, host).value;
      var mid := WriteLine(out, line, labels, options, host).value;
      if InstrOf(line, host).Some? {
        var instr := InstrOf(line, host).value;
        WriteInstrOfLine(out, line, labels, options, host);
        EmittedIndex(out, instr, labels);
        NothingDeclared(Declared(lines[1..], options));
        AheadInstr(out, ahead, Declared(lines[1..], options), final, instr, labels);
        AheadCode(out, ahead, Declared(lines, options), final);
        AheadCode(mid, Emitted(ahead, instr, labels), Declared(lines[1..], options), final);
        EmittedLength(out, instr, labels);
        WriteProgramWords(mid, Emitted(ahead, instr, labels), lines[1..], labels, n + 1, options, host);
        WriteInstrCons(ahead, instr, rest, labels, n, options, host);
      } else {
        WriteOtherLine(out, line, labels, options, host);
        AheadOther(out, mid, ahead, DeclarationOn(line, options), Declared(lines[1..], options), final);
        WriteProgramWords(mid, ahead, lines[1..], labels, n, options, host);
      }
    }
  }

  lemma NothingDeclared(later: seq<Symbol>)
    ensures OptionSeq(None) + later == later
  {
  }

  lemma AheadCode(out: Output, ahead: Output, later: seq<Symbol>, final: Output)
    requires Ahead(out, ahead, later, final)
    ensures ahead.code == out.code && WellIndexed(ahead)
  {
  }

  lemma EmittedIndex(out: Output, instr: SourceInstr, labels: Labels)
    requires Shaped(instr) && Known(instr, out.index)
    ensures Emitted(out, instr, labels).index == out.index
  {
    hide Encode, Lower, SymbolsAfter, RelocationOf, Shaped, Known;
  }
}
