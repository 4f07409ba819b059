/** The smallest program with a slot variable: it is declared and loaded once. */
module OneVariable {
  import opened Bytes
  import opened Isa
  import opened IsaWords
  import opened Lexer
  import opened Assembler
  import opened Meaning
  import opened Placement
  import opened ObjectFile
  import opened ObjectParser
  import opened LinkedProgram
  import opened Validator

  /** A name the assembler takes for a variable, and that fits into a symbol record. */
  predicate Usable(name: string) {
    && PlainWord(name) && !IsBlank(name) && name !in RESERVED_NAMES && PlainText(name) && |name| < NAME_SIZE
  }

  function VarSource(name: string): seq<string> {
    [PrintLine("VAR", ["BOOL", name]), PrintLine("LB", [name])]
  }

  function VarLines(name: string): seq<Line> {
    [Line(1, "", ["VAR", "BOOL", name]), Line(2, "", ["LB", name])]
  }

  function VarSymbol(name: string): Symbol {
    Symbol(name, SLOT_VAR, "", TYPE_BOOL, ACCESS_READ_WRITE, FLAG_NONE)
  }

  const VAR_CODE: seq<byte> := [0x10, 0, 0, 0, 0]

  function VarAssembly(name: string): Assembly {
    Assembly(VAR_CODE, [VarSymbol(name)], [Relocation(1, 0, RELOCATION_OFFSET_U32)])
  }

  function VarRecord(name: string): SymbolRecord {
    SymbolRecord(name, SLOT_VAR, FLAG_NONE, NO_IDENTITY, TYPE_BOOL, ACCESS_READ_WRITE)
  }

  function VarImage(name: string, options: Options): Image {
    Image(VAR_CODE, options.entryOffset, [VarRecord(name)], [Relocation(1, 0, RELOCATION_OFFSET_U32)])
  }

  lemma Words()
    ensures KeywordOf("LB") == Some(Instruction(0x10)) && OperandsOf(0x10) == [PointOffset(TYPE_BOOL, ACCESS_READ)]
    ensures OperandFormSize(0x10) == Some(5) && KeywordOf("VAR") == Some(VAR)
  {
    DeclarationWords();
    AliasesRead();
    hide KeywordOf;
  }

  lemma Declares(name: string, options: Options)
    requires Usable(name)
    ensures DeclaredSymbol(VAR, ["VAR", "BOOL", name], options) == Ok(VarSymbol(name)) && !IsBlank(VarSymbol(name).name)
  {
    TrimPlain("BOOL");
    UpperWord("BOOL");
    hide RESERVED_NAMES, Upper, Trim;
  }

  lemma VarReads(name: string, host: Host)
    requires Usable(name)
    ensures ReadLines(VarSource(name), 0, [], host) == Ok(VarLines(name))
  {
    hide ReadLine, PrintLine, PlainWord;
    PlainWords();
    ReadPrintedLine("VAR", ["BOOL", name], 1, host);
    ReadPrintedLine("LB", [name], 2, host);
    var first, last := VarLines(name)[0], VarLines(name)[1];
    assert ["VAR"] + ["BOOL", name] == first.tokens && ["LB"] + [name] == last.tokens;
    var source := VarSource(name);
    assert source[1..] == [source[1]] && source[1..][1..] == [];
    assert [] + [first] == [first] && [first] + [last] == VarLines(name);
    assert ReadLines([], 2, VarLines(name), host) == Ok(VarLines(name));
    assert ReadLines([source[1]], 1, [first], host) == Ok(VarLines(name));
  }

  lemma PlainWords()
    ensures PlainWord("VAR") && PlainWord("BOOL") && PlainWord("LB")
  {
  }

  lemma VarLabels(name: string)
    requires Usable(name)
    ensures LabelLines(VarLines(name), 0, map[]) == Ok(map[]) && AllNoData(VarLines(name))
  {
    Words();
    hide KeywordOf, OperandsOf, OperandFormSize, Usable;
    var lines := VarLines(name);
    var first, last := lines[0], [lines[1]];
    assert lines[1..] == last && last[1..] == [];
    assert EncodedSize(first.tokens) == Some(0) && EncodedSize(last[0].tokens) == Some(5);
    assert LabelLines([], 5, map[]) == Ok(map[]);
    assert LabelLines(last, 0, map[]) == Ok(map[]);
  }

  lemma VarAssembles(name: string, options: Options, host: Host)
    requires Usable(name)
    ensures AssembleLines(VarLines(name), options, host) == Ok(VarAssembly(name)) && AllNoData(VarLines(name))
  {
    hide LabelLines, WriteLines, Usable;
    VarLabels(name);
    VarWrites(name, options, host);
  }

  function Declared(name: string): Output {
    Output.Output([], [VarSymbol(name)], [], map[name := 0])
  }

  function Written(name: string): Output {
    Output.Output(VAR_CODE, [VarSymbol(name)], [Relocation(1, 0, RELOCATION_OFFSET_U32)], map[name := 0])
  }

  lemma DeclarationWritten(name: string, options: Options, host: Host)
    requires Usable(name)
    ensures WriteLine(EMPTY, VarLines(name)[0], map[], options, host) == Ok(Declared(name))
  {
    Words();
    Declares(name, options);
    hide KeywordOf, DeclaredSymbol, IsBlank, Usable;
    assert EMPTY.symbols + [VarSymbol(name)] == [VarSymbol(name)] && EMPTY.index[name := 0] == Declared(name).index;
  }

  lemma PointWritten(name: string, host: Host)
    requires Usable(name)
    ensures WriteOperand(Declared(name).(code := [0x10]), 2, PointOffset(TYPE_BOOL, ACCESS_READ), name, map[], host) ==
            Ok(Written(name))
  {
    var symbol, begun := VarSymbol(name), Declared(name).(code := [0x10]);
    assert [0x10] + Le32(0) == VAR_CODE;
    assert Used(symbol, TYPE_BOOL, ACCESS_READ) == Some(symbol);
    assert begun.symbols[0 := symbol] == begun.symbols;
    assert begun.relocations + [Relocation(1, 0, RELOCATION_OFFSET_U32)] == Written(name).relocations;
    hide Usable, IsBlank;
  }

  lemma InstructionWritten(name: string, host: Host)
    requires Usable(name)
    ensures WriteInstruction(Declared(name), 2, 0x10, [name], map[], host) == Ok(Written(name))
  {
    Words();
    PointWritten(name, host);
    hide KeywordOf, OperandsOf, Usable, WriteOperand;
    var operand, begun := PointOffset(TYPE_BOOL, ACCESS_READ), Declared(name).(code := [0x10]);
    assert Declared(name).code + [0x10] == [0x10];
    assert [name][1..] == [] && [operand][1..] == [];
    assert WriteOperands(Written(name), 2, [], [], map[], host) == Ok(Written(name));
    assert WriteOperands(begun, 2, [operand], [name], map[], host) == Ok(Written(name));
  }

  lemma LoadWritten(name: string, options: Options, host: Host)
    requires Usable(name)
    ensures WriteLine(Declared(name), VarLines(name)[1], map[], options, host) == Ok(Written(name))
  {
    Words();
    InstructionWritten(name, host);
    hide KeywordOf, OperandsOf, Usable, WriteInstruction;
    assert ["LB", name][1..] == [name];
  }

  lemma VarWrites(name: string, options: Options, host: Host)
    requires Usable(name)
    ensures WriteLines(EMPTY, VarLines(name), map[], options, host) == Ok(Written(name))
  {
    DeclarationWritten(name, options, host);
    LoadWritten(name, options, host);
    hide Usable, WriteLine;
    var lines := VarLines(name);
    assert lines[1..] == [lines[1]] && [lines[1]][1..] == [];
    assert WriteLines(Written(name), [], map[], options, host) == Ok(Written(name));
    assert WriteLines(Declared(name), [lines[1]], map[], options, host) == Ok(Written(name));
  }

  lemma SymbolFits(symbol: Symbol)
    requires symbol.kind == SLOT_VAR && symbol.path == "" && PlainText(symbol.name) && |symbol.name| < NAME_SIZE
    ensures SymbolBytes(symbol).Ok? && PlainSymbol(symbol)
  {
    hide Ascii, Zeros;
  }

  lemma VarObject(name: string, options: Options)
    requires Usable(name) && options.abiVersion == ABI_VERSION && options.entryOffset <= 5
    ensures ObjectBytes(VarAssembly(name), options).Ok? && Representable(VarAssembly(name), options)
    ensures |ObjectBytes(VarAssembly(name), options).value| == HEADER_SIZE + 5 + SYMBOL_SIZE + RELOCATION_SIZE
  {
    SymbolFits(VarSymbol(name));
    hide SymbolBytes, PlainSymbol, HeaderBytes, VarSymbol, Usable;
    var symbols := [VarSymbol(name)];
    assert symbols[..0] == [];
    assert SymbolTable(symbols[..0]) == Ok([]);
    RelocationsSize([Relocation(1, 0, RELOCATION_OFFSET_U32)]);
    hide RelocationTable;
  }

  lemma RelocationsSize(relocations: seq<Relocation>)
    ensures |RelocationTable(relocations)| == RELOCATION_SIZE * |relocations|
  {
  }

  /** It assembles and builds, and is read back as it was. */
  lemma VarBuilds(name: string, options: Options, host: Host)
    requires Usable(name) && options.abiVersion == ABI_VERSION && options.entryOffset <= 5
    ensures Builds(VarSource(name), VarLines(name), options, host)
    ensures
      var file := ObjectOf(VarSource(name), options, host);
      && ObjectBytes(VarAssembly(name), options) == Ok(file)
      && |file| == HEADER_SIZE + 5 + SYMBOL_SIZE + RELOCATION_SIZE
      && ParseObject(file).Ok? && ParseObject(file).value.image == VarImage(name, options)
  {
    hide *;
    VarReads(name, host);
    VarAssembles(name, options, host);
    VarObject(name, options);
    AssembleIs(VarSource(name), VarLines(name), options, host);
    BuildsIs(VarSource(name), VarLines(name), VarAssembly(name), options, host);
    BuildThenParse(VarAssembly(name), options);
    VarImageIs(name, options);
  }

  lemma AssembleIs(source: seq<string>, lines: seq<Line>, options: Options, host: Host)
    requires ReadLines(source, 0, [], host) == Ok(lines)
    ensures Assemble(source, options, host) == AssembleLines(lines, options, host)
  {
    hide ReadLines, AssembleLines;
  }

  lemma BuildsIs(source: seq<string>, lines: seq<Line>, assembly: Assembly, options: Options, host: Host)
    requires ReadLines(source, 0, [], host) == Ok(lines) && AllNoData(lines)
    requires Assemble(source, options, host) == Ok(assembly)
    requires ObjectBytes(assembly, options).Ok? && Representable(assembly, options)
    ensures Builds(source, lines, options, host) && ObjectOf(source, options, host) == ObjectBytes(assembly, options).value
  {
    hide ReadLines, Assemble, ObjectBytes, AllNoData, Representable;
  }

  lemma VarImageIs(name: string, options: Options)
    ensures
      var assembly := VarAssembly(name);
      Image(assembly.code, options.entryOffset, RecordsOf(assembly.symbols), assembly.relocations) == VarImage(name, options)
  {
    assert RecordsOf(VarAssembly(name).symbols) == [VarRecord(name)];
  }

  lemma VarAccepted()
    ensures Accepts(VAR_CODE)
  {
    AcceptsExactly(VAR_CODE);
    hide Accepts;
    assert Sweeps(VAR_CODE, 5);
    assert Sweeps(VAR_CODE, 4);
    assert Sweeps(VAR_CODE, 3);
    assert Sweeps(VAR_CODE, 0);
  }
}
