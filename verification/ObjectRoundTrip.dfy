/** Disassembling a built object file and assembling the listing again. */
module ObjectRoundTrip {
  import opened Bytes
  import opened Isa
  import opened IsaWords
  import opened Lexer
  import opened Code
  import opened Assembler
  import opened Meaning
  import opened Placement
  import opened ObjectFile
  import opened ObjectParser
  import opened Disassembler
  import opened Relisting
  import opened Reassembly
  import opened Redeclaring
  import opened RoundTrip

  lemma {:induction false} ReadLinesAreClean(source: seq<string>, n: nat, lines: seq<Line>, host: Host)
    requires CleanTokens(lines) && ReadLines(source, n, lines, host).Ok?
    ensures CleanTokens(ReadLines(source, n, lines, host).value)
    decreases source
  {
    hide ReadLine, Clean;
    if source != [] {
      match ReadLine(source[0], n + 1, host)
      case Err(_) =>
      case Ok(None) => ReadLinesAreClean(source[1..], n + 1, lines, host);
      case Ok(Some(line)) =>
        ReadLineIsClean(source[0], n + 1, host);
        ReadLinesAreClean(source[1..], n + 1, lines + [line], host);
    }
  }

  lemma PathsAreGiven(symbols: seq<Symbol>)
    requires forall i | 0 <= i < |symbols| :: SymbolIdentity(symbols[i]).Some?
    ensures PathsGiven(symbols)
  {
    forall i | 0 <= i < |symbols| && symbols[i].kind == CONST_POINT_ID
      ensures symbols[i].path != ""
    {
      assert SymbolIdentity(symbols[i]).Some?;
    }
  }

  // Only the names of symbols show in the instructions

  predicate SameNames(a: seq<Symbol>, b: seq<Symbol>) {
    |a| == |b| && forall i | 0 <= i < |a| :: a[i].name == b[i].name
  }

  lemma {:induction false} OperandsShowNames(operands: seq<Operand>, args: seq<u32>, at: nat, relocations: ByOffset,
                                             a: seq<Symbol>, b: seq<Symbol>, host: Host)
    requires Fits(operands, args) && SameNames(a, b)
    ensures OperandTexts(operands, args, at, relocations, a, host) == OperandTexts(operands, args, at, relocations, b, host)
    decreases operands
  {
    hide LiteralText;
    if operands != [] {
      OperandsShowNames(operands[1..], args[1..], at + operands[0].Width(), relocations, a, b, host);
    }
  }

  lemma InstructionShowsNames(code: seq<byte>, pc: nat, relocations: ByOffset, a: seq<Symbol>, b: seq<Symbol>, host: Host)
    requires pc < |code| && pc + SizeOf(code[pc]) <= |code| && SameNames(a, b)
    ensures InstructionText(code, pc, relocations, a, host) == InstructionText(code, pc, relocations, b, host)
  {
    hide SameNames, OperandTexts, IsInstruction, OperandsOf, SizeOf, Mnemonic, PrintLine;
    var opcode := code[pc];
    SizeIsWidths(opcode);
    OperandsShowNames(OperandsOf(opcode), ReadArgs(OperandsOf(opcode), code, pc + 1), pc + 1, relocations, a, b, host);
  }

  lemma {:induction false} ListingShowsNames(code: seq<byte>, pc: nat, relocations: ByOffset, a: seq<Symbol>,
                                             b: seq<Symbol>, host: Host)
    requires pc <= |code| && SameNames(a, b)
    ensures ListFrom(code, pc, relocations, a, host) == ListFrom(code, pc, relocations, b, host)
    decreases |code| - pc
  {
    hide SameNames, InstructionText, IsInstruction, SizeOf, DataTexts, Prepend, PrintLine, DataEnd;
    if pc < |code| {
      if IsInstruction(code[pc]) {
        if pc + SizeOf(code[pc]) <= |code| {
          InstructionShowsNames(code, pc, relocations, a, b, host);
          ListingShowsNames(code, pc + SizeOf(code[pc]), relocations, a, b, host);
        }
      } else {
        ListingShowsNames(code, DataEnd(code, pc + 1), relocations, a, b, host);
      }
    }
  }

  // A constant without its path

  /** What the disassembler can print so that it reads back: no colon, and every constant's path. */
  predicate Printable(symbol: Symbol)
    requires SymbolIdentity(symbol).Some?
  {
    ColonFree(symbol) && (symbol.kind == CONST_POINT_ID ==> Listable(symbol))
  }

  predicate AllIdentified(symbols: seq<Symbol>) {
    forall i | 0 <= i < |symbols| :: SymbolIdentity(symbols[i]).Some?
  }

  predicate AllPrintable(symbols: seq<Symbol>)
    requires AllIdentified(symbols)
  {
    forall i | 0 <= i < |symbols| :: Printable(symbols[i])
  }

  predicate ConstantsShown(symbols: seq<Symbol>)
    requires AllIdentified(symbols)
  {
    forall i | 0 <= i < |symbols| :: symbols[i].kind == CONST_POINT_ID ==> Listable(symbols[i])
  }

  lemma ShownText(symbol: Symbol)
    requires SymbolIdentity(symbol).Some? && (symbol.kind == CONST_POINT_ID ==> Listable(symbol))
    requires symbol.kind == SLOT_VAR || symbol.kind == PARAM_POINT_ID || symbol.kind == CONST_POINT_ID
    ensures DeclarationText(Shown(symbol)) == DeclarationText(symbol)
  {
    PathListed(symbol);
    hide SymbolIdentity, BuildPointPath, PrintLine, ValueTypeWord, Listable;
  }

  predicate KnownKinds(symbols: seq<Symbol>) {
    forall i | 0 <= i < |symbols| ::
      symbols[i].kind == SLOT_VAR || symbols[i].kind == PARAM_POINT_ID || symbols[i].kind == CONST_POINT_ID
  }

  /** While the constants keep their paths, the listing is that of the assembly itself. */
  lemma ShownListing(assembly: Assembly, host: Host)
    requires AllIdentified(assembly.symbols) && ConstantsShown(assembly.symbols) && KnownKinds(assembly.symbols)
    ensures Listing(assembly.(symbols := ShownSymbols(assembly.symbols)), host) == Listing(assembly, host)
  {
    var symbols := assembly.symbols;
    var shown := ShownSymbols(symbols);
    hide ListFrom, TrimListing, SymbolIdentity, Listable, DeclarationText, Shown, SameNames, RelocationsByOffset;
    forall i | 0 <= i < |symbols|
      ensures DeclarationText(shown[i]) == DeclarationText(symbols[i])
    {
      ShownText(symbols[i]);
    }
    assert DeclarationTexts(shown) == DeclarationTexts(symbols);
    ShownNames(symbols);
    ListingShowsNames(assembly.code, 0, RelocationsByOffset(assembly.relocations), shown, symbols, host);
    assert shown == [] <==> symbols == [];
  }

  /** The text of a constant whose path is not shown, and the same at the end of a listing. */
  function Pathless(name: string): string {
    "CONST" + " " + ("POINT_ID" + " " + (name + ", "))
  }

  function PathlessLast(name: string): string {
    "CONST" + " " + ("POINT_ID" + " " + (name + ","))
  }

  lemma PathlessText(symbol: Symbol)
    requires SymbolIdentity(symbol).Some? && symbol.kind == CONST_POINT_ID && !Listable(symbol)
    ensures DeclarationText(Shown(symbol)) == Pathless(symbol.name)
  {
    hide SymbolIdentity, IsBlank;
    assert Join([symbol.name, ""], ", ") == symbol.name + ", ";
  }

  lemma PathlessTrims(name: string)
    ensures TrimEnd(Pathless(name)) == PathlessLast(name) == TrimEnd(PathlessLast(name))
  {
    var s, t := Pathless(name), PathlessLast(name);
    assert s == t + " ";
    assert t[|t| - 1] == ',';
    assert s[..|s| - 1] == t;
  }

  lemma PathlessStrips(text: string, name: string)
    requires text == Pathless(name) || text == PathlessLast(name)
    requires forall i | 0 <= i < |name| :: !StartsComment(name[i])
    ensures Trim(StripComment(text)) == PathlessLast(name)
  {
    PathlessTrims(name);
    hide TrimEnd;
    forall i | 0 <= i < |text|
      ensures !StartsComment(text[i])
    {
      assert text[i] == if i < 5 then "CONST"[i] else if i == 5 then ' ' else if i < 14 then "POINT_ID"[i - 6]
                        else if i == 14 then ' ' else if i < 15 + |name| then name[i - 15]
                        else if i == 15 + |name| then ',' else ' ';
    }
    assert StripComment(text) == text;
    assert TrimStart(text) == text;
  }

  lemma SameStripped(a: string, b: string, number: nat, host: Host)
    requires Trim(StripComment(a)) == Trim(StripComment(b))
    ensures ReadLine(a, number, host) == ReadLine(b, number, host)
  {
    hide Trim, StripComment, Tokenize;
  }

  lemma PathlessTokens(name: string)
    requires PlainWord(name)
    ensures PlainLine(PathlessLast(name)) && Tokenize(PathlessLast(name)) == ["CONST", "POINT_ID", name]
  {
    KeywordsArePlain();
    TokenizeWord(name, ",");
    assert Tokenize(",") == [];
    var more := name + ",";
    assert PlainLine(more);
    hide PlainWord, PlainLine, Tokenize;
    PrependWord("POINT_ID", more);
    PrependWord("CONST", "POINT_ID" + " " + more);
  }

  /** Either way the line does not read as a declaration of a constant with a path. */
  lemma PathlessReads(text: string, name: string, number: nat, host: Host)
    requires text == Pathless(name) || text == PathlessLast(name)
    requires name != "" && Clean(name) && !host.isLetterOrDigit(' ')
    ensures ReadLine(text, number, host).Err? ||
            ReadLine(text, number, host) == Ok(Some(Line(number, "", ["CONST", "POINT_ID", name])))
  {
    KeywordsArePlain();
    CleanIsPlain(name);
    PathlessStrips(text, name);
    PathlessStrips(PathlessLast(name), name);
    SameStripped(text, PathlessLast(name), number, host);
    hide PlainWord, IsWhiteSpace, ReadLine;
    if ':' in name {
      var more := name + ",";
      var i :| 0 <= i < |name| && name[i] == ':';
      assert more[i] == ':';
      ColonBehindWords("CONST", "POINT_ID", more, number, host);
    } else {
      PathlessTokens(name);
      ReadPlainLine(PathlessLast(name), number, host);
    }
  }

  lemma {:induction false} TrimListingAt(lines: seq<string>, i: nat)
    requires i < |lines| && TrimEnd(lines[i]) != ""
    ensures
      var trimmed := TrimListing(lines);
      i < |trimmed| && (trimmed[i] == lines[i] || trimmed[i] == TrimEnd(lines[i]))
    decreases lines
  {
    hide TrimEnd;
    if i < |lines| - 1 {
      TrimListingAt(lines[..|lines| - 1], i);
    }
  }

  lemma {:induction false} ReadLinesKeep(source: seq<string>, n: nat, lines: seq<Line>, host: Host)
    requires ReadLines(source, n, lines, host).Ok?
    ensures lines <= ReadLines(source, n, lines, host).value
    decreases source
  {
    hide ReadLine;
    if source != [] {
      match ReadLine(source[0], n + 1, host)
      case Err(_) =>
      case Ok(None) => ReadLinesKeep(source[1..], n + 1, lines, host);
      case Ok(Some(line)) => ReadLinesKeep(source[1..], n + 1, lines + [line], host);
    }
  }

  /** A line that reads as these words, if it reads, is among the lines read. */
  lemma {:induction false} ReadLinesHold(source: seq<string>, i: nat, n: nat, lines: seq<Line>, tokens: seq<string>,
                                         host: Host) returns (k: nat)
    requires i < |source| && ReadLines(source, n, lines, host).Ok?
    requires forall number: nat :: ReadLine(source[i], number, host).Err? ||
                                   ReadLine(source[i], number, host) == Ok(Some(Line(number, "", tokens)))
    ensures
      var all := ReadLines(source, n, lines, host).value;
      k < |all| && all[k].tokens == tokens
    decreases source
  {
    hide ReadLine;
    k := 0;
    match ReadLine(source[0], n + 1, host) {
      case Err(_) =>
        assert false;
      case Ok(None) =>
        k := ReadLinesHold(source[1..], i - 1, n + 1, lines, tokens, host);
      case Ok(Some(line)) =>
        if i == 0 {
          k := |lines|;
          ReadLinesKeep(source[1..], n + 1, lines + [line], host);
        } else {
          k := ReadLinesHold(source[1..], i - 1, n + 1, lines + [line], tokens, host);
        }
    }
  }

  lemma PathlessLine(out: Output, line: Line, name: string, labels: Labels, options: Options, host: Host)
    requires WellIndexed(out) && line.tokens == ["CONST", "POINT_ID", name]
    ensures WriteLine(out, line, labels, options, host).Err?
  {
    DeclarationWords();
    hide KeywordOf, WriteInstruction, WriteData, AddSymbol;
  }

  lemma {:induction false} PathlessWrites(out: Output, lines: seq<Line>, k: nat, name: string, labels: Labels,
                                          options: Options, host: Host)
    requires WellIndexed(out) && k < |lines| && lines[k].tokens == ["CONST", "POINT_ID", name]
    ensures WriteLines(out, lines, labels, options, host).Err?
    decreases lines
  {
    hide WriteLine, WellIndexed;
    if k == 0 {
      PathlessLine(out, lines[0], name, labels, options, host);
    } else {
      match WriteLine(out, lines[0], labels, options, host)
      case Err(_) =>
      case Ok(next) => PathlessWrites(next, lines[1..], k - 1, name, labels, options, host);
    }
  }

  /** A listing with a constant without its path does not assemble. */
  lemma PathlessFails(source: seq<string>, i: nat, name: string, options: Options, host: Host)
    requires i < |source| && (source[i] == Pathless(name) || source[i] == PathlessLast(name))
    requires name != "" && Clean(name) && !host.isLetterOrDigit(' ')
    ensures Assemble(source, options, host).Err?
  {
    hide ReadLine, ReadLines, LabelLines, WriteLines, Clean, Pathless, PathlessLast;
    forall number: nat
      ensures ReadLine(source[i], number, host).Err? ||
              ReadLine(source[i], number, host) == Ok(Some(Line(number, "", ["CONST", "POINT_ID", name])))
    {
      PathlessReads(source[i], name, number, host);
    }
    if ReadLines(source, 0, [], host).Ok? {
      var lines := ReadLines(source, 0, [], host).value;
      var k := ReadLinesHold(source, i, 0, [], ["CONST", "POINT_ID", name], host);
      match LabelLines(lines, 0, map[])
      case Err(_) =>
      case Ok(labels) =>
        EmptyIsIndexed();
        PathlessWrites(EMPTY, lines, k, name, labels, options, host);
    }
  }

  lemma PathlessListed(assembly: Assembly, i: nat, host: Host)
    requires AllIdentified(assembly.symbols) && i < |assembly.symbols|
    requires assembly.symbols[i].kind == CONST_POINT_ID && !Listable(assembly.symbols[i])
    requires ListFrom(assembly.code, 0, RelocationsByOffset(assembly.relocations), assembly.symbols, host).Some?
    ensures
      var name := assembly.symbols[i].name;
      var listing := Listing(assembly.(symbols := ShownSymbols(assembly.symbols)), host);
      && listing.Some? && i < |listing.value|
      && (listing.value[i] == Pathless(name) || listing.value[i] == PathlessLast(name))
  {
    var symbols := assembly.symbols;
    var shown := ShownSymbols(symbols);
    hide Listing, ListFrom, RelocationsByOffset, Listable, SymbolIdentity, DeclarationText, TrimEnd, Shown, SameNames,
         Pathless, PathlessLast;
    ShownNames(symbols);
    ListingShowsNames(assembly.code, 0, RelocationsByOffset(assembly.relocations), shown, symbols, host);
    PathlessText(symbols[i]);
    PathlessTrims(symbols[i].name);
    PathlessIsText(symbols[i].name);
    ListingHolds(assembly.(symbols := shown), i, host);
  }

  lemma PathlessIsText(name: string)
    ensures PathlessLast(name) != ""
  {
  }

  /** So a constant with a blank part in its path is lost. */
  lemma BlankPartFails(lines: seq<Line>, options: Options, host: Host)
    requires Relistable(lines, options, host) && !host.isLetterOrDigit(' ')
    requires
      var symbols := AssembleLines(lines, options, host).value.symbols;
      AllIdentified(symbols) && !ConstantsShown(symbols)
    ensures
      var assembly := AssembleLines(lines, options, host).value;
      var listing := Listing(assembly.(symbols := ShownSymbols(assembly.symbols)), host);
      listing.Some? && Assemble(listing.value, options, host).Err?
  {
    var assembly := AssembleLines(lines, options, host).value;
    var symbols := assembly.symbols;
    var i :| 0 <= i < |symbols| && symbols[i].kind == CONST_POINT_ID && !Listable(symbols[i]);
    ListedNames(lines, options, host);
    NameIsClean(lines, options, host, i);
    hide AssembleLines, Assemble, Listing, ListFrom, RelocationsByOffset, Clean, Pathless, PathlessLast, Listable,
         SymbolIdentity, Relistable, ShownSymbols;
    PathlessListed(assembly, i, host);
    PathlessFails(Listing(assembly.(symbols := ShownSymbols(symbols)), host).value, i, symbols[i].name, options, host);
  }

  lemma ShownNames(symbols: seq<Symbol>)
    requires AllIdentified(symbols)
    ensures SameNames(ShownSymbols(symbols), symbols)
  {
  }

  lemma ListedNames(lines: seq<Line>, options: Options, host: Host)
    requires Relistable(lines, options, host)
    ensures
      var assembly := AssembleLines(lines, options, host).value;
      ListFrom(assembly.code, 0, RelocationsByOffset(assembly.relocations), assembly.symbols, host).Some?
  {
    hide WriteLines, LabelLines, ListFrom, RelocationsByOffset, AllNoData;
    AssembledIsListed(lines, options, host);
  }

  /** The line of a symbol in a listing, possibly with its end trimmed. */
  lemma ListingHolds(assembly: Assembly, i: nat, host: Host)
    requires ListFrom(assembly.code, 0, RelocationsByOffset(assembly.relocations), assembly.symbols, host).Some?
    requires i < |assembly.symbols| && TrimEnd(DeclarationText(assembly.symbols[i])) != ""
    ensures
      var text := DeclarationText(assembly.symbols[i]);
      var listing := Listing(assembly, host);
      listing.Some? && i < |listing.value| && (listing.value[i] == text || listing.value[i] == TrimEnd(text))
  {
    hide ListFrom, RelocationsByOffset, TrimListing, TrimEnd, DeclarationText;
    var instructions := ListFrom(assembly.code, 0, RelocationsByOffset(assembly.relocations), assembly.symbols, host).value;
    var blank := if assembly.symbols == [] then [] else [""];
    var all := DeclarationTexts(assembly.symbols) + blank + instructions;
    assert all[i] == DeclarationText(assembly.symbols[i]);
    TrimListingAt(all, i);
  }

  lemma NameIsClean(lines: seq<Line>, options: Options, host: Host, i: nat)
    requires Relistable(lines, options, host) && i < |AssembleLines(lines, options, host).value.symbols|
    ensures
      var name := AssembleLines(lines, options, host).value.symbols[i].name;
      name != "" && Clean(name)
  {
    hide WriteLines, LabelLines, Clean, Wrote, Indexed, AllNoData, CleanTokens, AllFloatsPrint, Program, Declared;
    FinalTables(lines, options, host);
    var declared := Declared(lines, options);
    assert SameDeclaration(Final(lines, options, host).symbols[i], declared[i]) && Fresh(declared[i], options);
  }

  lemma KindsAreKnown(lines: seq<Line>, options: Options, host: Host)
    requires Relistable(lines, options, host)
    ensures KnownKinds(AssembleLines(lines, options, host).value.symbols)
  {
    hide WriteLines, LabelLines, Clean, Wrote, Indexed, AllNoData, CleanTokens, AllFloatsPrint, Program, Declared;
    FinalTables(lines, options, host);
    var declared := Declared(lines, options);
    var symbols := Final(lines, options, host).symbols;
    forall i | 0 <= i < |symbols|
      ensures symbols[i].kind == SLOT_VAR || symbols[i].kind == PARAM_POINT_ID || symbols[i].kind == CONST_POINT_ID
    {
      assert SameDeclaration(symbols[i], declared[i]) && Fresh(declared[i], options);
    }
  }

  // The law

  /** Disassembling the object of a source without `DB` and assembling the listing again gives the same
      code, symbols and relocations, exactly if no name and no constant's path holds a colon and no
      constant's path has a blank part. */
  lemma DisassembleThenAssemble(source: seq<string>, lines: seq<Line>, options: Options, host: Host)
    requires ReadLines(source, 0, [], host) == Ok(lines) && AllNoData(lines)
    requires Assemble(source, options, host).Ok? && AllFloatsPrint(Program(lines, host), host)
    requires
      var assembly := Assemble(source, options, host).value;
      ObjectBytes(assembly, options).Ok? && Representable(assembly, options)
    requires !host.isLetterOrDigit(' ')
    ensures
      var assembly := Assemble(source, options, host).value;
      var listing := Disassemble(ObjectBytes(assembly, options).value, host);
      && AllIdentified(assembly.symbols)
      && listing.Some?
      && (Assemble(listing.value, options, host) == Ok(assembly) <==> AllPrintable(assembly.symbols))
  {
    hide WriteLines, LabelLines, NoData, Clean, AllFloatsPrint, Program, Listing, ReadLines, Shaped, AllNoData,
         ColonFree, PathsGiven, CleanTokens, AssembleLines, ObjectBytes, Representable, ParseForListing, Listable,
         SymbolIdentity, ShownSymbols;
    var assembly := Assemble(source, options, host).value;
    BuildThenList(assembly, options);
    PathsAreGiven(assembly.symbols);
    NoLinesAreClean();
    ReadLinesAreClean(source, 0, [], host);
    if !ConstantsShown(assembly.symbols) {
      BlankPartFails(lines, options, host);
    } else {
      KindsAreKnown(lines, options, host);
      ShownListing(assembly, host);
      if AllColonFree(assembly.symbols) {
        ListingAssembles(lines, options, host);
      } else {
        ColonListingFails(lines, options, host);
      }
    }
  }

  lemma NoLinesAreClean()
    ensures CleanTokens([])
  {
  }
}
