/** What a program makes of its symbols: the type and access that the assembler records are those of the
    instructions that use them. */
module SymbolUses {
  import opened Bytes
  import opened Isa
  import opened Lexer
  import opened Code
  import opened Assembler
  import opened Meaning
  import opened Placement
  import opened Reassembly

  /** The instructions that write to a point: stores, increment and decrement. */
  predicate Stores(opcode: byte) {
    || opcode == 0x11 || opcode == 0x13 || opcode == 0x16 || opcode == 0x18 || opcode == 0x1A
    || opcode == 0x20 || opcode == 0x21
  }

  predicate Uses(instr: SourceInstr, name: string)
    requires Shaped(instr)
  {
    UsesPoint(instr) && instr.args[0].name == name
  }

  predicate AnyStores(program: seq<SourceInstr>, name: string)
    requires forall k | 0 <= k < |program| :: Shaped(program[k])
  {
    exists k | 0 <= k < |program| :: Uses(program[k], name) && Stores(program[k].opcode)
  }

  /** The type at which an instruction uses its point. */
  function UsedType(instr: SourceInstr): byte
    requires Shaped(instr)
  {
    if UsesPoint(instr) then OperandsOf(instr.opcode)[0].valueType else TYPE_UNKNOWN
  }

  /** All uses of the name are of one type. */
  predicate AllTypesAre(program: seq<SourceInstr>, name: string, valueType: byte)
    requires forall k | 0 <= k < |program| :: Shaped(program[k])
  {
    forall k | 0 <= k < |program| :: Uses(program[k], name) ==> UsedType(program[k]) == valueType
  }

  lemma StoresExactly(opcode: byte)
    requires OperandsOf(opcode) != [] && OperandsOf(opcode)[0].IsSymbol()
    ensures OperandsOf(opcode)[0].access != ACCESS_READ <==> Stores(opcode)
    ensures OperandsOf(opcode)[0].access <= 2 && OperandsOf(opcode)[0].valueType != TYPE_UNKNOWN
  {
  }

  /** The symbol as it was, after one more instruction. */
  predicate UsedBy(before: Symbol, instr: SourceInstr, after: Symbol)
    requires Shaped(instr)
  {
    var used := Uses(instr, before.name);
    && after.name == before.name && after.kind == before.kind
    && after.access == (if before.access == 2 || (used && Stores(instr.opcode)) then 2 else 0)
    && after.valueType == (if used then UsedType(instr) else before.valueType)
    && (before.valueType != TYPE_UNKNOWN ==> after.valueType == before.valueType)
  }

  lemma UsedOnce(before: Symbol, valueType: byte, access: byte)
    requires (before.access == 0 || before.access == 2) && access <= 2 && valueType != TYPE_UNKNOWN
    requires Used(before, valueType, access).Some?
    ensures
      var after := Used(before, valueType, access).value;
      && after.name == before.name && after.kind == before.kind && after.valueType == valueType
      && after.access == (if before.access == 2 || access != 0 then 2 else 0)
      && (before.valueType != TYPE_UNKNOWN ==> valueType == before.valueType)
  {
  }

  lemma InstrUses(out: Output, instr: SourceInstr, line: nat, labels: Labels, host: Host, i: nat)
    requires Shaped(instr) && Indexed(out) && WellIndexed(out) && Known(instr, out.index) && i < |out.symbols|
    requires out.symbols[i].access == 0 || out.symbols[i].access == 2
    requires UseAgrees(instr, out.index, out.symbols)
    ensures |SymbolsAfter(out.symbols, instr, out.index)| == |out.symbols|
    ensures UsedBy(out.symbols[i], instr, SymbolsAfter(out.symbols, instr, out.index)[i])
  {
    hide OperandsOf, IsInstruction, Used, Stores;
    if UsesPoint(instr) {
      var operand, j := OperandsOf(instr.opcode)[0], out.index[instr.args[0].name];
      StoresExactly(instr.opcode);
      if i == j {
        UsedOnce(out.symbols[i], operand.valueType, operand.access);
      }
    }
  }

  lemma DeclarationKeeps(out: Output, number: nat, symbol: Symbol, i: nat)
    requires AddSymbol(out, number, symbol).Ok? && i < |out.symbols|
    ensures
      var r := AddSymbol(out, number, symbol).value;
      |r.symbols| == |out.symbols| + 1 && r.symbols[i] == out.symbols[i] && r.symbols[|out.symbols|] == symbol
  {
    hide IsBlank;
  }

  /** One line, for a symbol that is already declared. */
  lemma LineUses(out: Output, line: Line, labels: Labels, options: Options, host: Host, i: nat)
    requires WellIndexed(out) && Indexed(out) && NoData(line) && WriteLine(out, line, labels, options, host).Ok?
    requires i < |out.symbols| && (out.symbols[i].access == 0 || out.symbols[i].access == 2)
    ensures
      var r := WriteLine(out, line, labels, options, host).value;
      && |out.symbols| <= |r.symbols|
      && match InstrOf(line, host)
         case Some(instr) => UsedBy(out.symbols[i], instr, r.symbols[i])
         case None => r.symbols[i] == out.symbols[i]
  {
    hide WriteLine, InstrOf, DeclarationOn, Encode, SymbolsAfter, RelocationOf, AddSymbol, NoData, Sound, Known, Shaped,
         UsedBy, WellIndexed, Indexed, UseAgrees;
    WriteLineMeaning(out, line, labels, options, host);
    match InstrOf(line, host)
    case Some(instr) =>
      UsesAgree(out, line, labels, options, host);
      InstrUses(out, instr, line.number, labels, host, i);
    case None =>
      match DeclarationOn(line, options)
      case Some(symbol) => DeclarationKeeps(out, line.number, symbol, i);
      case None =>
  }

  /** The symbol after a program has used it. */
  predicate UsedByAll(before: Symbol, program: seq<SourceInstr>, after: Symbol)
    requires forall k | 0 <= k < |program| :: Shaped(program[k])
  {
    && after.name == before.name && after.kind == before.kind
    && after.access == (if before.access == 2 || AnyStores(program, before.name) then 2 else 0)
    && AllTypesAre(program, before.name, after.valueType)
    && (before.valueType != TYPE_UNKNOWN ==> after.valueType == before.valueType)
  }

  lemma UsedByMore(before: Symbol, instr: SourceInstr, mid: Symbol, rest: seq<SourceInstr>, after: Symbol)
    requires Shaped(instr) && forall k | 0 <= k < |rest| :: Shaped(rest[k])
    requires UsedBy(before, instr, mid) && UsedByAll(mid, rest, after)
    ensures UsedByAll(before, [instr] + rest, after)
  {
    hide Shaped, Uses, Stores, UsedType;
    var program, name := [instr] + rest, before.name;
    assert program[0] == instr;
    forall k | 0 <= k < |program|
      ensures Uses(program[k], name) ==> UsedType(program[k]) == after.valueType
    {
      if k > 0 {
        assert program[k] == rest[k - 1];
      } else if Uses(instr, name) {
        UsedHasType(instr, name);
      }
    }
    if AnyStores(rest, name) {
      var k :| 0 <= k < |rest| && Uses(rest[k], name) && Stores(rest[k].opcode);
      assert Uses(program[k + 1], name) && Stores(program[k + 1].opcode);
    }
    if AnyStores(program, name) {
      var k :| 0 <= k < |program| && Uses(program[k], name) && Stores(program[k].opcode);
      assert k > 0 ==> Uses(rest[k - 1], name) && Stores(rest[k - 1].opcode);
    }
  }

  lemma UsedHasType(instr: SourceInstr, name: string)
    requires Shaped(instr) && Uses(instr, name)
    ensures UsedType(instr) != TYPE_UNKNOWN
  {
    StoresExactly(instr.opcode);
    hide OperandsOf, IsInstruction;
  }

  lemma UsedByNone(symbol: Symbol)
    requires symbol.access == 0 || symbol.access == 2
    ensures UsedByAll(symbol, [], symbol)
  {
  }

  lemma {:induction false} LinesUse(out: Output, lines: seq<Line>, labels: Labels, options: Options, host: Host, i: nat)
    requires WellIndexed(out) && Indexed(out) && AllNoData(lines) && WriteLines(out, lines, labels, options, host).Ok?
    requires i < |out.symbols| && (out.symbols[i].access == 0 || out.symbols[i].access == 2)
    ensures
      var r := WriteLines(out, lines, labels, options, host).value;
      |out.symbols| <= |r.symbols| && UsedByAll(out.symbols[i], Program(lines, host), r.symbols[i])
    decreases lines
  {
    hide WriteLine, WellIndexed, Indexed, NoData, UsedBy, UsedByAll, InstrOf;
    if lines == [] {
      UsedByNone(out.symbols[i]);
    } else {
      var mid := WriteLine(out, lines[0], labels, options, host).value;
      LineUses(out, lines[0], labels, options, host, i);
      WriteLineIndexed(out, lines[0], labels, options, host);
      match InstrOf(lines[0], host)
      case Some(instr) =>
        UsedAccess(out.symbols[i], instr, mid.symbols[i]);
        LinesUse(mid, lines[1..], labels, options, host, i);
        UsedByMore(out.symbols[i], instr, mid.symbols[i], Program(lines[1..], host),
                   WriteLines(out, lines, labels, options, host).value.symbols[i]);
      case None =>
        LinesUse(mid, lines[1..], labels, options, host, i);
    }
  }

  lemma UsedAccess(before: Symbol, instr: SourceInstr, after: Symbol)
    requires Shaped(instr) && UsedBy(before, instr, after)
    ensures after.access == 0 || after.access == 2
  {
    hide Shaped, Uses, Stores, UsedType;
  }

  // From the declaration on

  /** What a declaration leaves for the uses to fill in. */
  lemma DeclarationIs(line: Line, options: Options)
    requires DeclarationOn(line, options).Some?
    ensures
      var symbol := DeclarationOn(line, options).value;
      && (symbol.kind == SLOT_VAR ==> symbol.access == 2)
      && (symbol.kind != SLOT_VAR ==> symbol.access == 0 && symbol.valueType == TYPE_UNKNOWN)
  {
    hide KeywordOf, ValueTypeOf, RESERVED_NAMES, Upper;
  }

  /** The final symbol, by its uses. */
  predicate FinalUse(symbol: Symbol, program: seq<SourceInstr>)
    requires forall k | 0 <= k < |program| :: Shaped(program[k])
  {
    && symbol.access == (if symbol.kind == SLOT_VAR || AnyStores(program, symbol.name) then 2 else 0)
    && AllTypesAre(program, symbol.name, symbol.valueType)
  }

  lemma UsedSinceDeclared(declared: Symbol, program: seq<SourceInstr>, symbol: Symbol)
    requires (forall k | 0 <= k < |program| :: Shaped(program[k])) && UsedByAll(declared, program, symbol)
    requires declared.access == if declared.kind == SLOT_VAR then 2 else 0
    ensures FinalUse(symbol, program)
  {
    hide AnyStores, AllTypesAre, Shaped;
  }

  lemma NotUsedBefore(instr: SourceInstr, rest: seq<SourceInstr>, symbol: Symbol)
    requires Shaped(instr) && (forall k | 0 <= k < |rest| :: Shaped(rest[k]))
    requires FinalUse(symbol, rest) && !Uses(instr, symbol.name)
    ensures FinalUse(symbol, [instr] + rest)
  {
    hide Shaped, Uses, Stores, UsedType;
    var program, name := [instr] + rest, symbol.name;
    assert program[0] == instr;
    forall k | 0 <= k < |program| && Uses(program[k], name)
      ensures k > 0 && program[k] == rest[k - 1]
    {
    }
    if AnyStores(rest, name) {
      var k :| 0 <= k < |rest| && Uses(rest[k], name) && Stores(rest[k].opcode);
      assert Uses(program[k + 1], name) && Stores(program[k + 1].opcode);
    }
    if AnyStores(program, name) {
      var k :| 0 <= k < |program| && Uses(program[k], name) && Stores(program[k].opcode);
      assert Uses(rest[k - 1], name) && Stores(rest[k - 1].opcode);
    }
    forall k | 0 <= k < |program| && Uses(program[k], name)
      ensures UsedType(program[k]) == symbol.valueType
    {
      assert Uses(rest[k - 1], name);
    }
  }

  /** An instruction only uses what is declared before it. */
  lemma NotDeclaredYet(out: Output, mid: Output, r: Output, instr: SourceInstr, i: nat)
    requires Shaped(instr) && Known(instr, out.index) && WellIndexed(out) && Indexed(out) && Indexed(r)
    requires mid.index == out.index && |mid.symbols| == |out.symbols| <= i < |r.symbols|
    requires Extends(mid.index, r.index)
    ensures !Uses(instr, r.symbols[i].name)
  {
    hide OperandsOf, IsInstruction;
  }

  lemma DeclaredHere(out: Output, line: Line, labels: Labels, options: Options, host: Host, i: nat)
    requires WellIndexed(out) && NoData(line) && WriteLine(out, line, labels, options, host).Ok?
    requires |out.symbols| <= i < |WriteLine(out, line, labels, options, host).value.symbols|
    ensures
      var symbol := WriteLine(out, line, labels, options, host).value.symbols[i];
      && InstrOf(line, host) == None
      && (symbol.kind == SLOT_VAR ==> symbol.access == 2)
      && (symbol.kind != SLOT_VAR ==> symbol.access == 0 && symbol.valueType == TYPE_UNKNOWN)
  {
    hide WriteLine, InstrOf, DeclarationOn, Encode, SymbolsAfter, RelocationOf, AddSymbol, NoData, Sound, Known, Shaped;
    WriteLineMeaning(out, line, labels, options, host);
    match InstrOf(line, host)
    case Some(instr) => SymbolsAfterKeepsNames(out.symbols, instr, out.index);
    case None =>
      match DeclarationOn(line, options)
      case Some(symbol) =>
        DeclarationIs(line, options);
        AddedLast(out, line.number, symbol);
      case None =>
  }

  lemma AddedLast(out: Output, number: nat, symbol: Symbol)
    requires AddSymbol(out, number, symbol).Ok?
    ensures AddSymbol(out, number, symbol).value.symbols == out.symbols + [symbol]
  {
    hide IsBlank;
  }

  lemma SameCount(out: Output, line: Line, labels: Labels, options: Options, host: Host)
    requires WellIndexed(out) && NoData(line) && WriteLine(out, line, labels, options, host).Ok?
    requires InstrOf(line, host).Some?
    ensures
      var r := WriteLine(out, line, labels, options, host).value;
      && Known(InstrOf(line, host).value, out.index) && r.index == out.index && |r.symbols| == |out.symbols|
  {
    hide WriteLine, InstrOf, DeclarationOn, Encode, SymbolsAfter, RelocationOf, AddSymbol, NoData, Sound, Known, Shaped;
    WriteLineMeaning(out, line, labels, options, host);
    SymbolsAfterKeepsNames(out.symbols, InstrOf(line, host).value, out.index);
  }

  lemma {:induction false} LinesDeclare(out: Output, lines: seq<Line>, labels: Labels, options: Options, host: Host, i: nat)
    requires WellIndexed(out) && Indexed(out) && AllNoData(lines) && WriteLines(out, lines, labels, options, host).Ok?
    requires |out.symbols| <= i < |WriteLines(out, lines, labels, options, host).value.symbols|
    ensures FinalUse(WriteLines(out, lines, labels, options, host).value.symbols[i], Program(lines, host))
    decreases lines
  {
    hide WriteLine, WellIndexed, Indexed, NoData, UsedByAll, FinalUse, InstrOf, Known, Extends;
    var mid, r := WriteLine(out, lines[0], labels, options, host).value, WriteLines(out, lines, labels, options, host).value;
    WriteLineIndexed(out, lines[0], labels, options, host);
    if i < |mid.symbols| {
      DeclaredHere(out, lines[0], labels, options, host, i);
      LinesUse(mid, lines[1..], labels, options, host, i);
      UsedSinceDeclared(mid.symbols[i], Program(lines[1..], host), r.symbols[i]);
    } else {
      LinesDeclare(mid, lines[1..], labels, options, host, i);
      match InstrOf(lines[0], host)
      case Some(instr) =>
        SameCount(out, lines[0], labels, options, host);
        WriteLinesIndexed(mid, lines[1..], labels, options, host);
        IndexGrows(mid, lines[1..], labels, options, host);
        NotDeclaredYet(out, mid, r, instr, i);
        NotUsedBefore(instr, Program(lines[1..], host), r.symbols[i]);
      case None =>
    }
  }

  lemma IndexGrows(out: Output, lines: seq<Line>, labels: Labels, options: Options, host: Host)
    requires WellIndexed(out) && AllNoData(lines) && WriteLines(out, lines, labels, options, host).Ok?
    ensures Extends(out.index, WriteLines(out, lines, labels, options, host).value.index)
  {
    hide WriteLines, Program, RelocationsOf, AllKnown, AllSound, EncodeAll, LowerAll, Shaped;
    WriteLinesMeaning(out, lines, labels, options, host);
  }

  /** The assembler's symbol table is what the program makes of it: every use of a symbol has the symbol's type,
      and its access is read-write if it is a slot variable or is stored to anywhere, and read otherwise. */
  lemma FinalUses(lines: seq<Line>, options: Options, host: Host, i: nat)
    requires AllNoData(lines) && AssembleLines(lines, options, host).Ok?
    requires i < |AssembleLines(lines, options, host).value.symbols|
    ensures
      var symbol, program := AssembleLines(lines, options, host).value.symbols[i], Program(lines, host);
      && symbol.access == (if symbol.kind == SLOT_VAR || AnyStores(program, symbol.name) then 2 else 0)
      && AllTypesAre(program, symbol.name, symbol.valueType)
  {
    hide WriteLines, LabelLines, NoData, AnyStores, AllTypesAre, Program;
    LinesDeclare(EMPTY, lines, LabelLines(lines, 0, map[]).value, options, host, i);
  }
}
