/** Declarations through the disassembler and back: declared again from the final symbol table, the
    symbols are what they were before the program used them. */
module Redeclaring {
  import opened Bytes
  import opened Isa
  import opened IsaWords
  import opened Lexer
  import opened Code
  import opened Assembler
  import opened Meaning
  import opened Placement
  import opened Disassembler
  import opened Relisting
  import opened Reassembly

  /** A symbol as a declaration line makes it. */
  predicate Fresh(symbol: Symbol, options: Options) {
    && !IsBlank(symbol.name)
    && Clean(symbol.name)
    && if symbol.kind == SLOT_VAR then
         && symbol.path == "" && symbol.valueType <= TYPE_STRING && symbol.access == ACCESS_READ_WRITE
         && (symbol.flags == FLAG_NONE || symbol.flags == FLAG_SLOT_VAR_PRIVATE)
         && symbol.name !in RESERVED_NAMES
       else
         && symbol.valueType == TYPE_UNKNOWN && symbol.access == ACCESS_READ && symbol.flags == FLAG_NONE
         && if symbol.kind == CONST_POINT_ID then Clean(symbol.path)
            else symbol.kind == PARAM_POINT_ID && symbol.name in options.pointBindings &&
                 symbol.path == options.pointBindings[symbol.name]
  }

  predicate AllFresh(symbols: seq<Symbol>, options: Options) {
    forall i | 0 <= i < |symbols| :: Fresh(symbols[i], options)
  }

  /** `used` is `symbol` after uses: they change the access, and the type if it was unknown. */
  predicate SameDeclaration(used: Symbol, symbol: Symbol) {
    && used.name == symbol.name && used.kind == symbol.kind && used.path == symbol.path && used.flags == symbol.flags
    && (symbol.valueType != TYPE_UNKNOWN ==> used.valueType == symbol.valueType)
  }

  predicate SameDeclarations(used: seq<Symbol>, symbols: seq<Symbol>) {
    |used| == |symbols| && forall i | 0 <= i < |used| :: SameDeclaration(used[i], symbols[i])
  }

  predicate CleanTokens(lines: seq<Line>) {
    forall i | 0 <= i < |lines| :: forall t | t in lines[i].tokens :: Clean(t)
  }

  lemma DeclarationIsFresh(out: Output, line: Line, options: Options)
    requires DeclarationOn(line, options).Some?
    requires AddSymbol(out, line.number, DeclarationOn(line, options).value).Ok?
    requires forall t | t in line.tokens :: Clean(t)
    ensures Fresh(DeclarationOn(line, options).value, options)
  {
    hide Clean, IsBlank, KeywordOf, Upper, RESERVED_NAMES;
    var keyword := KeywordOf(line.tokens[0]).value;
    TypeOfToken(if |line.tokens| == 4 then line.tokens[2] else "");
    TypeOfToken(if 1 < |line.tokens| then line.tokens[1] else "");
    hide ValueTypeOf;
  }

  lemma TypeOfToken(token: string)
    ensures ValueTypeOf(token).Some? ==> ValueTypeOf(token).value <= TYPE_STRING
  {
  }

  lemma SymbolsAfterSame(symbols: seq<Symbol>, instr: SourceInstr, index: map<string, nat>)
    requires Shaped(instr)
    ensures SameDeclarations(SymbolsAfter(symbols, instr, index), symbols)
  {
    hide OperandsOf, IsInstruction;
  }

  lemma SameTransitive(a: seq<Symbol>, b: seq<Symbol>, c: seq<Symbol>)
    requires SameDeclarations(a, b) && SameDeclarations(b, c)
    ensures SameDeclarations(a, c)
  {
    forall i | 0 <= i < |a|
      ensures SameDeclaration(a[i], c[i])
    {
      assert SameDeclaration(a[i], b[i]) && SameDeclaration(b[i], c[i]);
    }
  }

  lemma SameAppend(a: seq<Symbol>, b: seq<Symbol>, later: seq<Symbol>)
    requires SameDeclarations(a, b)
    ensures SameDeclarations(a + later, b + later)
  {
  }

  /** The final symbols are the declared ones, used; and everything declared is fresh. */
  lemma {:induction false} FinalDeclarations(out: Output, lines: seq<Line>, labels: Labels, options: Options, host: Host)
    requires WellIndexed(out) && AllNoData(lines) && CleanTokens(lines)
    requires WriteLines(out, lines, labels, options, host).Ok?
    ensures AllFresh(Declared(lines, options), options)
    ensures SameDeclarations(WriteLines(out, lines, labels, options, host).value.symbols,
                             out.symbols + Declared(lines, options))
    decreases lines
  {
    hide *;
    if lines == [] {
      NoDeclarations(out, labels, options, host);
    } else {
      var line := lines[0];
      WriteLinesHead(out, lines, labels, options, host);
      var mid := WriteLine(out, line, labels, options, host).value;
      var later := Declared(lines[1..], options);
      LinesCons(lines, options, host);
      CleanTail(lines);
      FinalDeclarations(mid, lines[1..], labels, options, host);
      LineDeclares(out, line, labels, options, host);
      SameAppend(mid.symbols, out.symbols + OptionSeq(DeclarationOn(line, options)), later);
      SameTransitive(WriteLines(out, lines, labels, options, host).value.symbols, mid.symbols + later,
                     out.symbols + OptionSeq(DeclarationOn(line, options)) + later);
      assert out.symbols + OptionSeq(DeclarationOn(line, options)) + later ==
             out.symbols + (OptionSeq(DeclarationOn(line, options)) + later);
      FreshCons(DeclarationOn(line, options), later, options);
    }
  }

  lemma NoDeclarations(out: Output, labels: Labels, options: Options, host: Host)
    requires WellIndexed(out)
    ensures AllFresh(Declared([], options), options)
    ensures SameDeclarations(WriteLines(out, [], labels, options, host).value.symbols, out.symbols + Declared([], options))
  {
    assert out.symbols + [] == out.symbols;
  }

  lemma CleanTail(lines: seq<Line>)
    requires CleanTokens(lines) && lines != []
    ensures CleanTokens(lines[1..]) && forall t | t in lines[0].tokens :: Clean(t)
  {
    hide Clean;
  }

  lemma FreshCons(symbol: Option<Symbol>, later: seq<Symbol>, options: Options)
    requires (symbol.Some? ==> Fresh(symbol.value, options)) && AllFresh(later, options)
    ensures AllFresh(OptionSeq(symbol) + later, options)
  {
    hide Fresh;
  }

  lemma LineDeclares(out: Output, line: Line, labels: Labels, options: Options, host: Host)
    requires WellIndexed(out) && NoData(line) && WriteLine(out, line, labels, options, host).Ok?
    requires forall t | t in line.tokens :: Clean(t)
    ensures DeclarationOn(line, options).Some? ==> Fresh(DeclarationOn(line, options).value, options)
    ensures SameDeclarations(WriteLine(out, line, labels, options, host).value.symbols,
                             out.symbols + OptionSeq(DeclarationOn(line, options)))
  {
    hide WriteLine, InstrOf, DeclarationOn, Fresh, WellIndexed, Clean, Known, Sound, UseAgrees, Shaped, NoData, AddSymbol,
         Encode, Lower, SymbolsAfter, RelocationOf;
    if InstrOf(line, host).Some? {
      var instr := InstrOf(line, host).value;
      WriteInstrOfLine(out, line, labels, options, host);
      SymbolsAfterSame(out.symbols, instr, out.index);
      assert out.symbols + [] == out.symbols;
    } else {
      WriteOtherLine(out, line, labels, options, host);
      if DeclarationOn(line, options).Some? {
        DeclarationIsFresh(out, line, options);
      }
    }
  }

  // Declaring again

  function SymbolWords(symbol: Symbol): (words: seq<string>)
    ensures 3 <= |words| <= 4
  {
    if symbol.kind == SLOT_VAR then
      if symbol.flags % 2 == 1 then ["VAR", "PRIVATE", ValueTypeWord(symbol.valueType), symbol.name]
      else ["VAR", ValueTypeWord(symbol.valueType), symbol.name]
    else if symbol.kind == PARAM_POINT_ID then ["PARAM", "POINT_ID", symbol.name]
    else ["CONST", "POINT_ID", symbol.name, symbol.path]
  }

  function AllSymbolWords(symbols: seq<Symbol>): (words: seq<seq<string>>)
    ensures |words| == |symbols|
    ensures forall i | 0 <= i < |words| :: words[i] == SymbolWords(symbols[i])
  {
    seq(|symbols|, i requires 0 <= i < |symbols| => SymbolWords(symbols[i]))
  }

  lemma TypeWordReads(valueType: byte)
    requires valueType <= TYPE_STRING
    ensures IsWord(ValueTypeWord(valueType)) && ValueTypeOf(ValueTypeWord(valueType)) == Some(valueType)
  {
    var word := ValueTypeWord(valueType);
    hide Trim, Upper;
    assert IsWord(word);
    WordIsPlain(word);
    TrimPlain(word);
    UpperWord(word);
  }

  lemma PlainKeywords()
    ensures Upper("POINT_ID") == "POINT_ID" && Upper("PRIVATE") == "PRIVATE"
  {
    UpperWord("POINT_ID");
    UpperWord("PRIVATE");
  }

  lemma DeclareAgain(out: Output, line: Line, symbol: Symbol, options: Options, host: Host)
    requires WellIndexed(out) && Fresh(symbol, options) && line.tokens == SymbolWords(symbol)
    ensures WriteLine(out, line, map[], options, host) == AddSymbol(out, line.number, symbol) && NoData(line)
  {
    hide KeywordOf, AddSymbol, Upper, ValueTypeOf, ValueTypeWord, Clean, IsBlank, RESERVED_NAMES, WellIndexed,
         WriteInstruction, WriteData;
    DeclarationWords();
    PlainKeywords();
    if symbol.kind == SLOT_VAR {
      TypeWordReads(symbol.valueType);

    }
  }

  /** `symbols` have distinct names. */
  predicate Distinct(symbols: seq<Symbol>) {
    forall i, j | 0 <= i < j < |symbols| :: symbols[i].name != symbols[j].name
  }

  lemma AddFresh(out: Output, line: nat, symbols: seq<Symbol>, k: nat, options: Options)
    requires AllFresh(symbols, options) && Distinct(symbols) && |symbols| <= MAX_SYMBOLS && k < |symbols|
    requires Indexed(out) && out.symbols == symbols[..k]
    ensures
      var r := AddSymbol(out, line, symbols[k]);
      && r.Ok? && Indexed(r.value) && r.value.symbols == symbols[..k + 1]
      && r.value.code == out.code && r.value.relocations == out.relocations
  {
    assert Fresh(symbols[k], options);
    hide Fresh, IsBlank;
    AddSymbolIndexed(out, line, symbols[k]);
  }

  lemma IndexedIsWell(out: Output)
    requires Indexed(out) && |out.symbols| <= MAX_SYMBOLS
    ensures WellIndexed(out)
  {
  }

  /** Fresh symbols with distinct names can be declared again, in order. */
  lemma {:induction false} DeclareAll(out: Output, symbols: seq<Symbol>, k: nat, n: nat, options: Options, host: Host)
    requires AllFresh(symbols, options) && Distinct(symbols) && |symbols| <= MAX_SYMBOLS && k <= |symbols|
    requires WellIndexed(out) && Indexed(out) && out.symbols == symbols[..k]
    ensures AllNoData(Numbered(AllSymbolWords(symbols[k..]), n))
    ensures
      var r := WriteLines(out, Numbered(AllSymbolWords(symbols[k..]), n), map[], options, host);
      && r.Ok? && Indexed(r.value) && r.value.symbols == symbols
      && r.value.code == out.code && r.value.relocations == out.relocations
    decreases |symbols| - k
  {
    hide *;
    if k == |symbols| {
      DeclareNone(out, symbols, n, options, host);
    } else {
      var words := AllSymbolWords(symbols[k..]);
      var line := Line(n + 1, "", words[0]);
      FreshAt(symbols, k, options);
      WordsFrom(symbols, k);
      DeclareAgain(out, line, symbols[k], options, host);
      AddFresh(out, line.number, symbols, k, options);
      var next := AddSymbol(out, line.number, symbols[k]).value;
      IndexedIsWell(next);
      WriteNumberedCons(out, words, n, options, host);
      DeclareAll(next, symbols, k + 1, n + 1, options, host);
      NoDataCons(words, n);
    }
  }

  lemma FreshAt(symbols: seq<Symbol>, k: nat, options: Options)
    requires AllFresh(symbols, options) && k < |symbols|
    ensures Fresh(symbols[k], options)
  {
  }

  lemma WordsFrom(symbols: seq<Symbol>, k: nat)
    requires k < |symbols|
    ensures
      var words := AllSymbolWords(symbols[k..]);
      words[0] == SymbolWords(symbols[k]) && words[1..] == AllSymbolWords(symbols[k + 1..])
  {
    hide SymbolWords;
  }

  lemma DeclareNone(out: Output, symbols: seq<Symbol>, n: nat, options: Options, host: Host)
    requires WellIndexed(out) && out.symbols == symbols[..|symbols|]
    ensures AllNoData(Numbered(AllSymbolWords(symbols[|symbols|..]), n))
    ensures WriteLines(out, Numbered(AllSymbolWords(symbols[|symbols|..]), n), map[], options, host) == Ok(out)
    ensures out.symbols == symbols
  {
  }

  lemma SameNamesSameIndex(a: Output, b: Output)
    requires Indexed(a) && Indexed(b) && SameDeclarations(a.symbols, b.symbols)
    ensures a.index == b.index
  {
    forall name | name in a.index
      ensures name in b.index && b.index[name] == a.index[name]
    {
      var i := a.index[name];
      assert SameDeclaration(a.symbols[i], b.symbols[i]);
    }
    forall name | name in b.index
      ensures name in a.index
    {
      var i := b.index[name];
      assert SameDeclaration(a.symbols[i], b.symbols[i]);
    }
  }

  lemma IndexedIsDistinct(out: Output, symbols: seq<Symbol>)
    requires Indexed(out) && SameDeclarations(out.symbols, symbols)
    ensures Distinct(symbols)
  {
    forall i, j | 0 <= i < j < |symbols|
      ensures symbols[i].name != symbols[j].name
    {
      assert SameDeclaration(out.symbols[i], symbols[i]) && SameDeclaration(out.symbols[j], symbols[j]);
    }
  }

  lemma SameWords(used: seq<Symbol>, symbols: seq<Symbol>, options: Options)
    requires SameDeclarations(used, symbols) && AllFresh(symbols, options)
    ensures AllSymbolWords(used) == AllSymbolWords(symbols)
    ensures DeclarationTexts(used) == DeclarationTexts(symbols)
  {
    hide Clean, IsBlank, RESERVED_NAMES, ValueTypeWord;
    forall i | 0 <= i < |used|
      ensures SymbolWords(used[i]) == SymbolWords(symbols[i]) && DeclarationText(used[i]) == DeclarationText(symbols[i])
    {
      assert SameDeclaration(used[i], symbols[i]) && Fresh(symbols[i], options);
    }
  }

  lemma {:induction false} WriteLinesAppend(out: Output, a: seq<Line>, b: seq<Line>, options: Options, host: Host)
    requires WellIndexed(out)
    ensures
      WriteLines(out, a + b, map[], options, host) ==
      match WriteLines(out, a, map[], options, host)
      case Ok(mid) => WriteLines(mid, b, map[], options, host)
      case Err(e) => Result.Err(e)
    decreases a
  {
    hide WriteLine, WellIndexed;
    if a == [] {
      assert a + b == b;
    } else {
      assert (a + b)[1..] == a[1..] + b;
      match WriteLine(out, a[0], map[], options, host)
      case Ok(mid) => WriteLinesAppend(mid, a[1..], b, options, host);
      case Err(_) =>
    }
  }

  lemma {:induction false} NoLabels(lines: seq<Line>, offset: nat, host: Host)
    requires Sized(lines, host) && forall i | 0 <= i < |lines| :: lines[i].tag == ""
    ensures LabelLines(lines, offset, map[]) == Ok(map[])
    decreases lines
  {
    hide EncodedSize, SizeOn;
    if lines != [] {
      NoLabels(lines[1..], offset + SizeOn(lines[0], host), host);
    }
  }

  function ListedLines(lines: seq<Line>, n: nat, options: Options, host: Host): seq<Line>
    requires AssembleLines(lines, options, host).Ok?
  {
    var out := Final(lines, options, host);
    Numbered(AllSymbolWords(out.symbols), 0) +
    Numbered(ProgramWords(Program(lines, host), 0, LabelLines(lines, 0, map[]).value, host), n)
  }

  /** The words of the listing assemble to what the listing was made from. */
  lemma ListedLinesAssemble(lines: seq<Line>, n: nat, options: Options, host: Host)
    requires AllNoData(lines) && CleanTokens(lines) && AssembleLines(lines, options, host).Ok?
    requires AllFloatsPrint(Program(lines, host), host)
    ensures AssembleLines(ListedLines(lines, n, options, host), options, host) == AssembleLines(lines, options, host)
  {
    hide WriteLines, LabelLines, NoData, Clean, ProgramWords, AllFloatsPrint, Shaped, FloatsPrint, Fresh, Indexed,
         SymbolWords, WellIndexed, Placed, SameDeclaration, Distinct, Program, Declared;
    var labels := LabelLines(lines, 0, map[]).value;
    var out := Final(lines, options, host);
    var declared := Declared(lines, options);
    FinalIndexed(lines, options, host);
    EmptyIsIndexed();
    FinalDeclarations(EMPTY, lines, labels, options, host);
    assert EMPTY.symbols + declared == declared;
    SameWords(out.symbols, declared, options);
    IndexedIsDistinct(out, declared);
    WellSize(out);
    assert declared[0..] == declared && declared[..0] == [];
    DeclareAll(EMPTY, declared, 0, 0, options, host);
    var first := Numbered(AllSymbolWords(declared), 0);
    var ahead := WriteLines(EMPTY, first, map[], options, host).value;
    SameNamesSameIndex(out, ahead);
    assert Ahead(EMPTY, ahead, declared, out);
    WriteProgramWords(EMPTY, ahead, lines, labels, n, options, host);
    var second := Numbered(ProgramWords(Program(lines, host), 0, labels, host), n);
    WriteLinesAppend(EMPTY, first, second, options, host);
    assert AllNoData(first + second);
    WriteLinesSized(EMPTY, first + second, map[], options, host);
    NoLabels(first + second, 0, host);
  }

  lemma EmptyIsIndexed()
    ensures Indexed(EMPTY) && WellIndexed(EMPTY)
  {
  }

  lemma WellSize(out: Output)
    requires WellIndexed(out)
    ensures |out.symbols| <= MAX_SYMBOLS
  {
  }
}
