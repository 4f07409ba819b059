/** What the disassembler lists for an assembled object: the instructions of the source, label branches
    as distances and point operands by name. */
module Relisting {
  import opened Bytes
  import opened Isa
  import opened Literals
  import opened Lexer
  import opened Code
  import opened Assembler
  import opened Meaning
  import opened Placement
  import opened Disassembler

  /** The runtime prints the float with these bits as a word that it parses back to the same bits. */
  predicate FloatPrints(v: u32, host: Host) {
    PlainWord(host.formatFloat(v)) && host.parseFloat(host.formatFloat(v)) == Some(v)
  }

  lemma DecimalIsWord(n: nat)
    ensures PlainWord(Decimal(n)) && PlainWord(SignedDecimal(n)) && PlainWord(SignedDecimal(0 - n))
  {
    var d := Decimal(n);
    assert forall i | 0 <= i < |d| :: IsDigit(d[i]);
    if n > 0 {
      assert SignedDecimal(0 - n) == ['-'] + d;
    }
  }

  lemma WordIsPlain(word: string)
    requires IsWord(word)
    ensures PlainWord(word)
  {
    assert forall i | 0 <= i < |word| :: WordChar(word[i]);
  }

  /** A printed literal is a word and reads back as the value it was printed from. */
  lemma LiteralReadsBack(operand: Operand, v: u32, host: Host)
    requires !operand.IsSymbol() && v < operand.Limit()
    requires operand == Float32Literal ==> FloatPrints(v, host)
    ensures PlainWord(LiteralText(operand, v, host))
    ensures
      var text := LiteralText(operand, v, host);
      if operand == BranchTarget then Int16Pattern(text) == Some(v) else LiteralValue(operand, text, host) == Some(v)
  {
    hide PlainWord, Decimal, SignedDecimal, Int16Pattern, Int32Pattern, UInt16Value, UInt32Value;
    DecimalIsWord(v);
    if v < 0x1_0000 {
      LiteralsReadBack(v, v);
      DecimalIsWord(if Signed16(v) < 0 then -Signed16(v) else Signed16(v));
    }
    LiteralsReadBack(0, v);
    DecimalIsWord(if Signed32(v) < 0 then -Signed32(v) else Signed32(v));
  }

  // Operands

  function ArgTexts(operands: seq<Operand>, args: seq<Arg>, values: seq<u32>, host: Host): (texts: seq<string>)
    requires |operands| == |args| && Fits(operands, values)
    ensures |texts| == |operands|
  {
    if operands == [] then []
    else
      [if args[0].Point? then args[0].name else LiteralText(operands[0], values[0], host)] +
      ArgTexts(operands[1..], args[1..], values[1..], host)
  }

  /** The operands printed for a source instruction at a code offset. */
  function InstrTexts(instr: SourceInstr, at: nat, labels: Labels, host: Host): (texts: seq<string>)
    requires Shaped(instr)
    ensures |texts| == |OperandsOf(instr.opcode)|
  {
    ArgTexts(OperandsOf(instr.opcode), instr.args, Lower(instr, at, labels, Zero).args, host)
  }

  function ProgramTexts(program: seq<SourceInstr>, at: nat, labels: Labels, host: Host): (texts: seq<string>)
    requires forall k | 0 <= k < |program| :: Shaped(program[k])
    ensures |texts| == |program|
  {
    if program == [] then []
    else
      [PrintLine(Mnemonic(program[0].opcode), InstrTexts(program[0], at, labels, host))] +
      ProgramTexts(program[1..], at + SizeOf(program[0].opcode), labels, host)
  }

  lemma {:induction false} LiteralTexts(operands: seq<Operand>, args: seq<Arg>, values: seq<u32>, at: nat,
                                        relocations: ByOffset, symbols: seq<Symbol>, host: Host)
    requires |operands| == |args| && Fits(operands, values)
    requires forall i | 0 <= i < |operands| :: !operands[i].IsSymbol() && !args[i].Point?
    ensures OperandTexts(operands, values, at, relocations, symbols, host) ==
            Some(ArgTexts(operands, args, values, host))
    decreases operands
  {
    hide LiteralText, PointText;
    if operands != [] {
      LiteralTexts(operands[1..], args[1..], values[1..], at + operands[0].Width(), relocations, symbols, host);
    }
  }

  /** The relocation and the symbol of the instruction's point operand, if any, are in the tables. */
  predicate Finds(instr: SourceInstr, at: nat, index: map<string, nat>, relocations: ByOffset, symbols: seq<Symbol>)
    requires Shaped(instr) && Known(instr, index)
  {
    UsesPoint(instr) ==>
      var i := index[instr.args[0].name];
      && at + 1 in relocations && relocations[at + 1].symbolIndex == i
      && i < |symbols| && symbols[i].name == instr.args[0].name
  }

  lemma InstrIsListed(instr: SourceInstr, at: nat, labels: Labels, index: map<string, nat>, relocations: ByOffset,
                      symbols: seq<Symbol>, host: Host)
    requires Shaped(instr) && Known(instr, index) && Sound(instr, at, labels)
    requires Finds(instr, at, index, relocations, symbols)
    ensures OperandTexts(OperandsOf(instr.opcode), Lower(instr, at, labels, Zero).args, at + 1, relocations, symbols, host)
            == Some(InstrTexts(instr, at, labels, host))
  {
    var operands := OperandsOf(instr.opcode);
    hide OperandsOf, SizeOf, IsInstruction, LiteralText;
    var values := Lower(instr, at, labels, Zero).args;
    var next := at + SizeOf(instr.opcode);
    if UsesPoint(instr) {
      assert operands[1..] == [] && instr.args[1..] == [] && values[1..] == [];
      assert OperandTexts(operands[1..], values[1..], at + 1 + operands[0].Width(), relocations, symbols, host) == Some([]);
    } else {
      forall i | 0 <= i < |operands|
        ensures !operands[i].IsSymbol() && !instr.args[i].Point?
      {
        assert ArgSound(operands[i], instr.args[i], next, labels);
      }
      LiteralTexts(operands, instr.args, values, at + 1, relocations, symbols, host);
    }
  }

  // Relocations by offset

  /** Relocations in the order of their offsets, all behind `low`. */
  predicate Ascending(relocations: seq<Relocation>, low: nat) {
    && (forall i | 0 <= i < |relocations| :: low < relocations[i].codeOffset)
    && (forall i, j | 0 <= i < j < |relocations| :: relocations[i].codeOffset < relocations[j].codeOffset)
  }

  lemma {:induction false} RelocationsAscend(program: seq<SourceInstr>, at: nat, index: map<string, nat>)
    requires forall k | 0 <= k < |program| :: Shaped(program[k]) && Known(program[k], index)
    ensures Ascending(RelocationsOf(program, at, index), at)
    decreases program
  {
    hide Shaped, Known, RelocationOf, SizeOf;
    if program != [] {
      RelocationsAscend(program[1..], at + SizeOf(program[0].opcode), index);
      OneRelocation(program[0], at, index);
    }
  }

  lemma OneRelocation(instr: SourceInstr, at: nat, index: map<string, nat>)
    requires Shaped(instr) && Known(instr, index)
    ensures |RelocationOf(instr, at, index)| <= 1
    ensures forall r | r in RelocationOf(instr, at, index) :: r.codeOffset == at + 1
  {
  }

  lemma {:induction false} AscendingFound(relocations: seq<Relocation>, low: nat, i: nat)
    requires Ascending(relocations, low) && i < |relocations|
    ensures relocations[i].codeOffset in RelocationsByOffset(relocations)
    ensures RelocationsByOffset(relocations)[relocations[i].codeOffset] == relocations[i]
    decreases |relocations|
  {
    if i < |relocations| - 1 {
      AscendingFound(relocations[..|relocations| - 1], low, i);
    }
  }

  predicate AllFound(relocations: seq<Relocation>, byOffset: ByOffset) {
    forall i | 0 <= i < |relocations| ::
      relocations[i].codeOffset in byOffset && byOffset[relocations[i].codeOffset] == relocations[i]
  }

  predicate NamesSymbols(index: map<string, nat>, symbols: seq<Symbol>) {
    forall name | name in index :: index[name] < |symbols| && symbols[index[name]].name == name
  }

  lemma FoundCons(instr: SourceInstr, rest: seq<SourceInstr>, at: nat, index: map<string, nat>, byOffset: ByOffset,
                  symbols: seq<Symbol>)
    requires Shaped(instr) && Known(instr, index)
    requires forall k | 0 <= k < |rest| :: Shaped(rest[k]) && Known(rest[k], index)
    requires NamesSymbols(index, symbols)
    requires AllFound(RelocationsOf([instr] + rest, at, index), byOffset)
    ensures Finds(instr, at, index, byOffset, symbols)
    ensures AllFound(RelocationsOf(rest, at + SizeOf(instr.opcode), index), byOffset)
  {
    hide SizeOf, OperandsOf, IsInstruction, RelocationsOf;
    RelocationsCons(instr, rest, at, index);
    var first, others := RelocationOf(instr, at, index), RelocationsOf(rest, at + SizeOf(instr.opcode), index);
    var all := RelocationsOf([instr] + rest, at, index);
    forall i | 0 <= i < |others|
      ensures others[i].codeOffset in byOffset && byOffset[others[i].codeOffset] == others[i]
    {
      assert others[i] == all[|first| + i];
    }
    if UsesPoint(instr) {
      assert all[0] == first[0];
    }
  }

  // The instruction listing

  lemma ListCons(pre: seq<byte>, instr: SourceInstr, labels: Labels, index: map<string, nat>, code: seq<byte>,
                 relocations: ByOffset, symbols: seq<Symbol>, host: Host)
    requires Shaped(instr) && Known(instr, index) && Sound(instr, |pre|, labels)
    requires Finds(instr, |pre|, index, relocations, symbols)
    requires |pre| + SizeOf(instr.opcode) <= |code|
    requires code[|pre|..|pre| + SizeOf(instr.opcode)] == Encode(Lower(instr, |pre|, labels, Zero))
    ensures ListFrom(code, |pre|, relocations, symbols, host) ==
            Prepend([PrintLine(Mnemonic(instr.opcode), InstrTexts(instr, |pre|, labels, host))],
                    ListFrom(code, |pre| + SizeOf(instr.opcode), relocations, symbols, host))
  {
    hide *;
    InstrIsListed(instr, |pre|, labels, index, relocations, symbols, host);
    InstructionListed(code, |pre|, Lower(instr, |pre|, labels, Zero), InstrTexts(instr, |pre|, labels, host),
                      relocations, symbols, host);
    ListStep(code, |pre|, relocations, symbols, host);
  }

  lemma InstructionListed(code: seq<byte>, pc: nat, instr: Instr, texts: seq<string>, relocations: ByOffset,
                          symbols: seq<Symbol>, host: Host)
    requires Legal(instr) && pc + SizeOf(instr.opcode) <= |code|
    requires code[pc..pc + SizeOf(instr.opcode)] == Encode(instr)
    requires OperandTexts(OperandsOf(instr.opcode), instr.args, pc + 1, relocations, symbols, host) == Some(texts)
    ensures code[pc] == instr.opcode && IsInstruction(instr.opcode)
    ensures InstructionText(code, pc, relocations, symbols, host) == Some(PrintLine(Mnemonic(instr.opcode), texts))
  {
    hide OperandsOf, SizeOf, OperandTexts, Mnemonic, PrintLine, EncodeArgs, ReadArgs, Widths, IsInstruction;
    var bytes := Encode(instr);
    SizeIsWidths(instr.opcode);
    assert code[pc] == bytes[0];
    assert code[pc + 1..pc + SizeOf(instr.opcode)] == bytes[1..];
    ReadArgsEncoded(OperandsOf(instr.opcode), instr.args, code, pc + 1);
  }

  lemma ListStep(code: seq<byte>, pc: nat, relocations: ByOffset, symbols: seq<Symbol>, host: Host)
    requires pc < |code| && IsInstruction(code[pc]) && pc + SizeOf(code[pc]) <= |code|
    requires InstructionText(code, pc, relocations, symbols, host).Some?
    ensures ListFrom(code, pc, relocations, symbols, host) ==
            Prepend([InstructionText(code, pc, relocations, symbols, host).value],
                    ListFrom(code, pc + SizeOf(code[pc]), relocations, symbols, host))
  {
    hide InstructionText, IsInstruction, SizeOf;
  }

  lemma {:induction false} ListProgram(pre: seq<byte>, program: seq<SourceInstr>, labels: Labels,
                                       index: map<string, nat>, relocations: ByOffset, symbols: seq<Symbol>, host: Host)
    requires forall k | 0 <= k < |program| :: Shaped(program[k])
    requires AllKnown(program, index) && AllSound(program, |pre|, labels) && NamesSymbols(index, symbols)
    requires AllFound(RelocationsOf(program, |pre|, index), relocations)
    ensures ListFrom(pre + EncodeAll(LowerAll(program, |pre|, labels, Zero)), |pre|, relocations, symbols, host) ==
            Some(ProgramTexts(program, |pre|, labels, host))
    decreases program
  {
    hide *;
    if program == [] {
      ListNothing(pre, labels, relocations, symbols, host);
    } else {
      var instr, rest := program[0], program[1..];
      assert Shaped(instr) && program == [instr] + rest;
      var bytes := Encode(Lower(instr, |pre|, labels, Zero));
      var tail := EncodeAll(LowerAll(rest, |pre| + SizeOf(instr.opcode), labels, Zero));
      CodeCons(pre, instr, rest, labels);
      KnownSoundCons(instr, rest, |pre|, labels, index);
      KnownEach(rest, index);
      var code := pre + bytes + tail;
      assert code[|pre|..|pre| + |bytes|] == bytes;
      FoundCons(instr, rest, |pre|, index, relocations, symbols);
      ListCons(pre, instr, labels, index, code, relocations, symbols, host);
      ListProgram(pre + bytes, rest, labels, index, relocations, symbols, host);
      TextsCons(program, |pre|, labels, host);
    }
  }

  lemma ListNothing(pre: seq<byte>, labels: Labels, relocations: ByOffset, symbols: seq<Symbol>, host: Host)
    ensures ListFrom(pre + EncodeAll(LowerAll([], |pre|, labels, Zero)), |pre|, relocations, symbols, host) ==
            Some(ProgramTexts([], |pre|, labels, host))
  {
    assert EncodeAll(LowerAll([], |pre|, labels, Zero)) == [];
  }

  lemma TextsCons(program: seq<SourceInstr>, at: nat, labels: Labels, host: Host)
    requires program != [] && forall k | 0 <= k < |program| :: Shaped(program[k])
    ensures
      Prepend([PrintLine(Mnemonic(program[0].opcode), InstrTexts(program[0], at, labels, host))],
              Some(ProgramTexts(program[1..], at + SizeOf(program[0].opcode), labels, host))) ==
      Some(ProgramTexts(program, at, labels, host))
  {
    hide Shaped, SizeOf, PrintLine, Mnemonic, InstrTexts;
  }

  lemma AssembledIsListed(lines: seq<Line>, options: Options, host: Host)
    requires AllNoData(lines) && AssembleLines(lines, options, host).Ok?
    ensures
      var out := Final(lines, options, host);
      ListFrom(out.code, 0, RelocationsByOffset(out.relocations), out.symbols, host) ==
      Some(ProgramTexts(Program(lines, host), 0, LabelLines(lines, 0, map[]).value, host))
  {
    hide WriteLines, LabelLines, NoData, ListFrom, EncodeAll, LowerAll, RelocationsOf, RelocationsByOffset, Shaped, Known,
         AllSound, ProgramTexts, Placed;
    var out, program := Final(lines, options, host), Program(lines, host);
    AssembledProgram(lines, options, host);
    FinalIndexed(lines, options, host);
    RelocationsAscend(program, 0, out.index);
    assert out.relocations == RelocationsOf(program, 0, out.index);
    assert out.code == [] + EncodeAll(LowerAll(program, 0, LabelLines(lines, 0, map[]).value, Zero));
    forall i | 0 <= i < |out.relocations|
      ensures out.relocations[i].codeOffset in RelocationsByOffset(out.relocations)
      ensures RelocationsByOffset(out.relocations)[out.relocations[i].codeOffset] == out.relocations[i]
    {
      AscendingFound(out.relocations, 0, i);
    }
    ListProgram([], program, LabelLines(lines, 0, map[]).value, out.index, RelocationsByOffset(out.relocations),
                out.symbols, host);
  }
}
