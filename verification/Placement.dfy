/** Where the assembler puts instructions and labels: the first pass counts what the second writes. */
module Placement {
  import opened Bytes
  import opened Isa
  import opened Lexer
  import opened Code
  import opened Assembler
  import opened Meaning

  predicate AllNoData(lines: seq<Line>) {
    forall i | 0 <= i < |lines| :: NoData(lines[i])
  }

  predicate Sized(lines: seq<Line>, host: Host) {
    forall i | 0 <= i < |lines| :: EncodedSize(lines[i].tokens) == Some(SizeOn(lines[i], host))
  }

  lemma {:induction false} WriteLinesSized(out: Output, lines: seq<Line>, labels: Labels, options: Options, host: Host)
    requires WellIndexed(out) && AllNoData(lines) && WriteLines(out, lines, labels, options, host).Ok?
    ensures Sized(lines, host)
    decreases lines
  {
    hide WriteLine, WellIndexed, NoData, EncodedSize, SizeOn;
    if lines != [] {
      PassesAgree(out, lines[0], labels, options, host);
      var mid := WriteLine(out, lines[0], labels, options, host).value;
      WriteLinesSized(mid, lines[1..], labels, options, host);
    }
  }

  /** The offset of the instruction a label stands before. */
  function LabelOffset(lines: seq<Line>, tag: string, host: Host): nat {
    Offset(SourceOpcodes(Program(lines, host)), LabelIndex(lines, tag, host))
  }

  lemma OffsetStep(program: seq<SourceInstr>, k: nat)
    requires 0 < k <= |program|
    ensures Offset(SourceOpcodes(program), k) ==
            SizeOf(program[0].opcode) + Offset(SourceOpcodes(program[1..]), k - 1)
  {
    hide SizeOf;
    assert SourceOpcodes(program)[1..] == SourceOpcodes(program[1..]);
  }

  lemma LabelOffsetStep(lines: seq<Line>, tag: string, host: Host)
    requires lines != []
    ensures LabelOffset(lines, tag, host) ==
            if lines[0].tag == tag then 0 else SizeOn(lines[0], host) + LabelOffset(lines[1..], tag, host)
  {
    hide InstrOf, SizeOf, Shaped;
    match InstrOf(lines[0], host)
    case None =>
    case Some(instr) =>
      var rest := Program(lines[1..], host);
      assert Program(lines, host) == [instr] + rest && ([instr] + rest)[1..] == rest;
      hide Program;
      if lines[0].tag != tag {
        OffsetStep(Program(lines, host), LabelIndex(lines, tag, host));
      }
  }

  /** `final` is `labels` and, for each label declared on `lines`, its offset counted from `offset`. */
  ghost predicate Placed(lines: seq<Line>, offset: nat, labels: Labels, final: Labels, host: Host) {
    && (forall tag | tag in labels :: tag in final && final[tag] == labels[tag])
    && (forall tag | tag in final :: tag in labels || (tag != "" && Declares(lines, tag)))
    && (forall tag | tag != "" && Declares(lines, tag) ::
          tag !in labels && tag in final && final[tag] == offset + LabelOffset(lines, tag, host))
  }

  lemma {:induction false} LabelLinesPlaced(lines: seq<Line>, offset: nat, labels: Labels, host: Host)
    requires Sized(lines, host) && LabelLines(lines, offset, labels).Ok?
    ensures Placed(lines, offset, labels, LabelLines(lines, offset, labels).value, host)
    decreases lines
  {
    hide LabelOffset, EncodedSize, SizeOn;
    if lines != [] {
      var line := lines[0];
      var next := if line.tag != "" then labels[line.tag := offset] else labels;
      var final := LabelLines(lines, offset, labels).value;
      assert Sized(lines[1..], host);
      LabelLinesPlaced(lines[1..], offset + SizeOn(line, host), next, host);
      forall tag: string
        ensures Declares(lines, tag) <==> line.tag == tag || Declares(lines[1..], tag)
      {
        DeclaresCons(lines, tag);
      }
      forall tag | tag != "" && Declares(lines, tag)
        ensures tag !in labels && tag in final && final[tag] == offset + LabelOffset(lines, tag, host)
      {
        LabelOffsetStep(lines, tag, host);
      }
    }
  }

  lemma DeclaresCons(lines: seq<Line>, tag: string)
    requires lines != []
    ensures Declares(lines, tag) <==> lines[0].tag == tag || Declares(lines[1..], tag)
  {
    if Declares(lines, tag) && lines[0].tag != tag {
      var i :| 0 <= i < |lines| && lines[i].tag == tag;
      assert lines[1..][i - 1].tag == tag;
    } else if Declares(lines[1..], tag) {
      var i :| 0 <= i < |lines[1..]| && lines[1..][i].tag == tag;
      assert lines[i + 1].tag == tag;
    }
  }

  /** What the second pass has written when it ends. */
  function Final(lines: seq<Line>, options: Options, host: Host): (out: Output)
    requires AssembleLines(lines, options, host).Ok?
    ensures AssembleLines(lines, options, host).value == Assembly(out.code, out.symbols, out.relocations)
    ensures WellIndexed(out)
  {
    WriteLines(EMPTY, lines, LabelLines(lines, 0, map[]).value, options, host).value
  }

  /** The assembled code and relocations are those of the source program, and labels lie where the
      instructions they stand before were written. */
  lemma AssembledProgram(lines: seq<Line>, options: Options, host: Host)
    requires AllNoData(lines) && AssembleLines(lines, options, host).Ok?
    ensures
      var labels := LabelLines(lines, 0, map[]).value;
      && Wrote(EMPTY, Program(lines, host), labels, Final(lines, options, host))
      && Placed(lines, 0, map[], labels, host)
  {
    hide WriteLines, LabelLines, Wrote, Placed, Sized, NoData;
    var labels := LabelLines(lines, 0, map[]).value;
    WriteLinesMeaning(EMPTY, lines, labels, options, host);
    WriteLinesSized(EMPTY, lines, labels, options, host);
    LabelLinesPlaced(lines, 0, map[], host);
  }

  // Instruction by instruction

  lemma {:induction false} LowerAllAt(program: seq<SourceInstr>, at: nat, labels: Labels, fill: Fill, k: nat)
    requires (forall i | 0 <= i < |program| :: Shaped(program[i])) && k < |program|
    ensures LowerAll(program, at, labels, fill)[k] ==
            Lower(program[k], at + Offset(SourceOpcodes(program), k), labels, fill)
    decreases k
  {
    hide Lower, LowerAll, Offset, SizeOf, Shaped, Legal;
    if k == 0 {
      LowerAllHead(program, at, labels, fill);
    } else {
      OffsetStep(program, k);
      LowerAllAt(program[1..], at + SizeOf(program[0].opcode), labels, fill, k - 1);
      LowerAllTail(program, at, labels, fill, k);
    }
  }

  lemma LowerAllHead(program: seq<SourceInstr>, at: nat, labels: Labels, fill: Fill)
    requires (forall i | 0 <= i < |program| :: Shaped(program[i])) && program != []
    ensures LowerAll(program, at, labels, fill)[0] ==
            Lower(program[0], at + Offset(SourceOpcodes(program), 0), labels, fill)
  {
    hide Lower, SizeOf, Shaped, Legal;
  }

  lemma LowerAllTail(program: seq<SourceInstr>, at: nat, labels: Labels, fill: Fill, k: nat)
    requires (forall i | 0 <= i < |program| :: Shaped(program[i])) && 0 < k < |program|
    ensures LowerAll(program, at, labels, fill)[k] ==
            LowerAll(program[1..], at + SizeOf(program[0].opcode), labels, fill)[k - 1]
  {
    hide Lower, SizeOf, Shaped, Legal;
  }

  lemma {:induction false} SoundAt(program: seq<SourceInstr>, at: nat, labels: Labels, k: nat)
    requires (forall i | 0 <= i < |program| :: Shaped(program[i])) && k < |program|
    requires AllSound(program, at, labels)
    ensures Sound(program[k], at + Offset(SourceOpcodes(program), k), labels)
    decreases k
  {
    hide Sound, SizeOf, Shaped;
    if k > 0 {
      hide Offset;
      OffsetStep(program, k);
      SoundAt(program[1..], at + SizeOf(program[0].opcode), labels, k - 1);
    }
  }

  lemma {:induction false} OffsetNext(opcodes: seq<byte>, k: nat)
    requires k < |opcodes|
    ensures Offset(opcodes, k + 1) == Offset(opcodes, k) + SizeOf(opcodes[k])
    decreases k
  {
    hide SizeOf;
    if k > 0 {
      OffsetNext(opcodes[1..], k - 1);
    }
  }

  // The symbol table and its index

  /** The index maps exactly the names in the symbol table, each to its position. */
  predicate Indexed(out: Output) {
    && (forall name | name in out.index :: out.index[name] < |out.symbols| && out.symbols[out.index[name]].name == name)
    && (forall i | 0 <= i < |out.symbols| :: out.symbols[i].name in out.index && out.index[out.symbols[i].name] == i)
  }

  lemma UsedKeepsName(symbol: Symbol, valueType: byte, access: byte)
    ensures
      match Used(symbol, valueType, access)
      case Some(r) => r.name == symbol.name && r.kind == symbol.kind && r.path == symbol.path && r.flags == symbol.flags
      case None => true
  {
  }

  lemma SymbolsAfterKeepsNames(symbols: seq<Symbol>, instr: SourceInstr, index: map<string, nat>)
    requires Shaped(instr)
    ensures
      var r := SymbolsAfter(symbols, instr, index);
      |r| == |symbols| && forall i | 0 <= i < |r| :: r[i].name == symbols[i].name
  {
    hide Used, OperandsOf, IsInstruction;
    if UsesPoint(instr) && instr.args[0].name in index && index[instr.args[0].name] < |symbols| {
      var operand := OperandsOf(instr.opcode)[0];
      UsedKeepsName(symbols[index[instr.args[0].name]], operand.valueType, operand.access);
    }
  }

  lemma AddSymbolIndexed(out: Output, line: nat, symbol: Symbol)
    requires Indexed(out) && AddSymbol(out, line, symbol).Ok?
    ensures Indexed(AddSymbol(out, line, symbol).value)
  {
    hide IsBlank;
  }

  lemma WriteLineIndexed(out: Output, line: Line, labels: Labels, options: Options, host: Host)
    requires WellIndexed(out) && Indexed(out) && NoData(line) && WriteLine(out, line, labels, options, host).Ok?
    ensures Indexed(WriteLine(out, line, labels, options, host).value)
  {
    hide WriteLine, InstrOf, DeclarationOn, Encode, SymbolsAfter, RelocationOf, AddSymbol, NoData, Sound, Known, Shaped;
    WriteLineMeaning(out, line, labels, options, host);
    match InstrOf(line, host)
    case Some(instr) => SymbolsAfterKeepsNames(out.symbols, instr, out.index);
    case None =>
      match DeclarationOn(line, options)
      case Some(symbol) => AddSymbolIndexed(out, line.number, symbol);
      case None =>
  }

  lemma {:induction false} WriteLinesIndexed(out: Output, lines: seq<Line>, labels: Labels, options: Options, host: Host)
    requires WellIndexed(out) && Indexed(out) && AllNoData(lines) && WriteLines(out, lines, labels, options, host).Ok?
    ensures Indexed(WriteLines(out, lines, labels, options, host).value)
    decreases lines
  {
    hide WriteLine, WellIndexed, Indexed, NoData;
    if lines != [] {
      WriteLineIndexed(out, lines[0], labels, options, host);
      WriteLinesIndexed(WriteLine(out, lines[0], labels, options, host).value, lines[1..], labels, options, host);
    }
  }

  lemma FinalIndexed(lines: seq<Line>, options: Options, host: Host)
    requires AllNoData(lines) && AssembleLines(lines, options, host).Ok?
    ensures Indexed(Final(lines, options, host))
  {
    hide WriteLines, LabelLines, NoData;
    WriteLinesIndexed(EMPTY, lines, LabelLines(lines, 0, map[]).value, options, host);
  }
}
