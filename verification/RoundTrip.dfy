/** Disassembling and assembling again: the identity on objects built from sources without `DB`,
    exactly when no name or path holds a colon. */
module RoundTrip {
  import opened Bytes
  import opened Isa
  import opened IsaWords
  import opened Lexer
  import opened Code
  import opened Assembler
  import opened Meaning
  import opened Placement
  import opened Disassembler
  import opened Relisting
  import opened Reassembly
  import opened Redeclaring

  // Reading a listing

  /** `text` is a plain line with these words. */
  predicate Reads(text: string, words: seq<string>) {
    words != [] && PlainLine(text) && Tokenize(text) == words
  }

  predicate AllRead(texts: seq<string>, words: seq<seq<string>>) {
    |texts| == |words| && forall i | 0 <= i < |texts| :: Reads(texts[i], words[i])
  }

  lemma {:induction false} ReadTexts(texts: seq<string>, words: seq<seq<string>>, more: seq<string>, n: nat,
                                     lines: seq<Line>, host: Host)
    requires AllRead(texts, words)
    ensures ReadLines(texts + more, n, lines, host) ==
            ReadLines(more, n + |texts|, lines + Numbered(words, n), host)
    decreases texts
  {
    hide ReadLine, Reads;
    if texts == [] {
      assert texts + more == more && lines + [] == lines;
    } else {
      assert (texts + more)[1..] == texts[1..] + more;
      var line := Line(n + 1, "", words[0]);
      ReadsAsLine(texts[0], words[0], n + 1, host);
      ReadTexts(texts[1..], words[1..], more, n + 1, lines + [line], host);
      assert Numbered(words, n) == [line] + Numbered(words[1..], n + 1);
      assert lines + [line] + Numbered(words[1..], n + 1) == lines + ([line] + Numbered(words[1..], n + 1));
    }
  }

  lemma ReadsAsLine(text: string, words: seq<string>, number: nat, host: Host)
    requires Reads(text, words)
    ensures ReadLine(text, number, host) == Ok(Some(Line(number, "", words)))
  {
    hide ReadLine, Tokenize;
    ReadPlainLine(text, number, host);
  }

  lemma PrependWord(w: string, rest: string)
    requires PlainWord(w) && PlainLine(rest)
    ensures PlainLine(w + " " + rest) && Tokenize(w + " " + rest) == [w] + Tokenize(rest)
  {
    hide Tokenize;
    PlainGlue(w, " ", rest);
    assert w + " " + rest == w + (" " + rest);
    TokenizeWord(w, " " + rest);
    TokenizeGlue(" ", rest);
  }

  predicate ColonFree(symbol: Symbol) {
    ':' !in symbol.name && (symbol.kind == CONST_POINT_ID ==> ':' !in symbol.path)
  }

  predicate AllColonFree(symbols: seq<Symbol>) {
    forall i | 0 <= i < |symbols| :: ColonFree(symbols[i])
  }

  lemma FreshNameIsWord(symbol: Symbol, options: Options)
    requires Fresh(symbol, options) && ':' !in symbol.name
    ensures PlainWord(symbol.name)
  {
    CleanIsPlain(symbol.name);
  }

  lemma KeywordsArePlain()
    ensures PlainWord("VAR") && PlainWord("PRIVATE") && PlainWord("PARAM") && PlainWord("POINT_ID") && PlainWord("CONST")
  {
    WordIsPlain("VAR");
    WordIsPlain("PRIVATE");
    WordIsPlain("PARAM");
    WordIsPlain("POINT_ID");
    WordIsPlain("CONST");
  }

  lemma DeclarationReads(symbol: Symbol, options: Options)
    requires Fresh(symbol, options) && ColonFree(symbol) && (symbol.kind == CONST_POINT_ID ==> symbol.path != "")
    ensures Reads(DeclarationText(symbol), SymbolWords(symbol))
  {
    FreshNameIsWord(symbol, options);
    if symbol.kind == SLOT_VAR {
      VariableReads(symbol);
    } else {
      if symbol.kind == CONST_POINT_ID {
        CleanIsPlain(symbol.path);
      }
      PointReads(symbol);
    }
  }

  lemma TypeShown()
    ensures ValueTypeWord(0) == "BOOL" && ValueTypeWord(1) == "UINT16" && ValueTypeWord(2) == "INT"
    ensures ValueTypeWord(3) == "UINT32" && ValueTypeWord(4) == "DINT" && ValueTypeWord(5) == "FLOAT"
    ensures ValueTypeWord(6) == "ENUM" && ValueTypeWord(7) == "STRING"
  {
  }

  lemma VariableShown(symbol: Symbol)
    requires symbol.kind == 2 && symbol.flags <= 1
    ensures DeclarationText(symbol) ==
            (if symbol.flags == 1 then "VAR PRIVATE " else "VAR ") + ValueTypeWord(symbol.valueType) + " " + symbol.name
  {
    hide ValueTypeWord;
    var word := ValueTypeWord(symbol.valueType);
    assert PrintLine(word, [symbol.name]) == word + " " + symbol.name;
    assert "VAR" + " " == "VAR ";
    assert "VAR" + " " + ("PRIVATE" + " " + (word + " " + symbol.name)) == "VAR PRIVATE " + word + " " + symbol.name;
  }

  lemma PointShown(symbol: Symbol)
    requires symbol.kind == 1 || symbol.kind == 0
    ensures DeclarationText(symbol) ==
            if symbol.kind == 1 then "PARAM POINT_ID " + symbol.name
            else "CONST POINT_ID " + symbol.name + ", " + symbol.path
  {
    var words := [symbol.name, symbol.path];
    assert words[1..] == [symbol.path];
    assert Join(words, ", ") == symbol.name + ", " + symbol.path;
    assert PrintLine("POINT_ID", [symbol.name]) == "POINT_ID " + symbol.name;
    assert PrintLine("POINT_ID", words) == "POINT_ID " + (symbol.name + ", " + symbol.path);
    assert "PARAM" + " " + ("POINT_ID " + symbol.name) == "PARAM POINT_ID " + symbol.name;
    assert "CONST" + " " + ("POINT_ID " + (symbol.name + ", " + symbol.path)) ==
           "CONST POINT_ID " + symbol.name + ", " + symbol.path;
  }

  lemma TypeWordIsPlain(valueType: byte)
    requires valueType <= TYPE_STRING
    ensures PlainWord(ValueTypeWord(valueType))
  {
    hide ValueTypeOf, PlainWord;
    TypeWordReads(valueType);
    WordIsPlain(ValueTypeWord(valueType));
  }

  lemma VariableReads(symbol: Symbol)
    requires symbol.kind == SLOT_VAR && symbol.valueType <= TYPE_STRING && PlainWord(symbol.name)
    ensures Reads(DeclarationText(symbol), SymbolWords(symbol))
  {
    hide PlainWord, PlainLine, Tokenize, ValueTypeWord, PrintLine, IsWord;
    KeywordsArePlain();
    TypeWordIsPlain(symbol.valueType);
    PrintedLineTokens(ValueTypeWord(symbol.valueType), [symbol.name]);
    var rest := PrintLine(ValueTypeWord(symbol.valueType), [symbol.name]);
    if symbol.flags % 2 == 1 {
      PrependWord("PRIVATE", rest);
      PrependWord("VAR", "PRIVATE" + " " + rest);
    } else {
      PrependWord("VAR", rest);
    }
  }

  lemma PointReads(symbol: Symbol)
    requires symbol.kind == PARAM_POINT_ID || symbol.kind == CONST_POINT_ID
    requires PlainWord(symbol.name) && (symbol.kind == CONST_POINT_ID ==> PlainWord(symbol.path))
    ensures Reads(DeclarationText(symbol), SymbolWords(symbol))
  {
    KeywordsArePlain();
    hide PlainWord, PlainLine, Tokenize, PrintLine;
    var operands := if symbol.kind == PARAM_POINT_ID then [symbol.name] else [symbol.name, symbol.path];
    PrintedLineTokens("POINT_ID", operands);
    PrependWord(if symbol.kind == PARAM_POINT_ID then "PARAM" else "CONST", PrintLine("POINT_ID", operands));
  }

  lemma {:induction false} ArgTextsArePlain(operands: seq<Operand>, args: seq<Arg>, values: seq<u32>, host: Host)
    requires |operands| == |args| && Fits(operands, values)
    requires forall i | 0 <= i < |operands| ::
               if args[i].Point? then PlainWord(args[i].name)
               else !operands[i].IsSymbol() && (operands[i] == Float32Literal ==> FloatPrints(values[i], host))
    ensures forall i | 0 <= i < |operands| :: PlainWord(ArgTexts(operands, args, values, host)[i])
    decreases operands
  {
    hide LiteralText, PlainWord, FloatPrints;
    if operands != [] {
      if !args[0].Point? {
        LiteralReadsBack(operands[0], values[0], host);
      }
      ArgTextsArePlain(operands[1..], args[1..], values[1..], host);
    }
  }

  /** Any point operand of the instruction is a plain word. */
  predicate PlainPoints(instr: SourceInstr) {
    forall i | 0 <= i < |instr.args| :: instr.args[i].Point? ==> PlainWord(instr.args[i].name)
  }

  lemma InstrReads(instr: SourceInstr, at: nat, labels: Labels, host: Host)
    requires Shaped(instr) && Sound(instr, at, labels) && FloatsPrint(instr, host) && PlainPoints(instr)
    ensures Reads(PrintLine(Mnemonic(instr.opcode), InstrTexts(instr, at, labels, host)),
                  InstrWords(instr, at, labels, host))
  {
    var operands := OperandsOf(instr.opcode);
    hide OperandsOf, SizeOf, IsInstruction, FloatPrints, LiteralText, PlainWord, PlainLine, PrintLine, Tokenize, Mnemonic,
         ArgTexts;
    var values := Lower(instr, at, labels, Zero).args;
    var next := at + SizeOf(instr.opcode);
    forall i | 0 <= i < |operands|
      ensures !instr.args[i].Point? ==> !operands[i].IsSymbol()
      ensures !instr.args[i].Point? && operands[i] == Float32Literal ==> FloatPrints(values[i], host)
    {
      assert ArgSound(operands[i], instr.args[i], next, labels);
      assert values[i] == LowerArg(operands[i], instr.args[i], next, labels, Zero);
    }
    ArgTextsArePlain(operands, instr.args, values, host);
    MnemonicIsWord(instr.opcode);
    WordIsPlain(Mnemonic(instr.opcode));
    PrintedLineTokens(Mnemonic(instr.opcode), InstrTexts(instr, at, labels, host));
  }

  lemma {:induction false} ProgramReads(program: seq<SourceInstr>, at: nat, labels: Labels, host: Host)
    requires forall k | 0 <= k < |program| :: Shaped(program[k])
    requires AllSound(program, at, labels) && AllFloatsPrint(program, host)
    requires forall k | 0 <= k < |program| :: PlainPoints(program[k])
    ensures AllRead(ProgramTexts(program, at, labels, host), ProgramWords(program, at, labels, host))
    decreases program
  {
    hide Shaped, Sound, FloatsPrint, PlainPoints, SizeOf, InstrTexts, InstrWords, Mnemonic, PrintLine, Reads;
    if program != [] {
      InstrReads(program[0], at, labels, host);
      ProgramReads(program[1..], at + SizeOf(program[0].opcode), labels, host);
    }
  }

  // The final trim only drops the blank line of a program without instructions

  predicate Solid(text: string) {
    text != "" && !IsWhiteSpace(text[|text| - 1])
  }

  lemma TrimSolid(texts: seq<string>)
    requires forall i | 0 <= i < |texts| :: Solid(texts[i])
    ensures TrimListing(texts) == texts
  {
    hide *;
    if texts == [] {
      TrimNothing();
    } else {
      SolidIsTrimmed(texts[|texts| - 1]);
      TrimLast(texts);
    }
  }

  lemma TrimNothing()
    ensures TrimListing([]) == [] && TrimEnd("") == ""
  {
  }

  lemma TrimLast(texts: seq<string>)
    requires texts != []
    ensures
      var init, last := texts[..|texts| - 1], TrimEnd(texts[|texts| - 1]);
      TrimListing(texts) == if last == "" then TrimListing(init) else init + [last]
    ensures texts == texts[..|texts| - 1] + [texts[|texts| - 1]]
  {
    hide TrimEnd;
  }

  lemma SolidIsTrimmed(text: string)
    requires Solid(text)
    ensures TrimEnd(text) == text != ""
  {
  }

  lemma TrimListed(declarations: seq<string>, blank: seq<string>, instructions: seq<string>)
    requires forall i | 0 <= i < |declarations| :: Solid(declarations[i])
    requires forall i | 0 <= i < |instructions| :: Solid(instructions[i])
    requires blank == [] || blank == [""]
    ensures TrimListing(declarations + blank + instructions) ==
            if instructions == [] then declarations else declarations + blank + instructions
  {
    hide *;
    var all := declarations + blank + instructions;
    TrimNothing();
    if instructions != [] {
      assert all[|all| - 1] == instructions[|instructions| - 1];
      SolidIsTrimmed(all[|all| - 1]);
      TrimLast(all);
    } else if blank != [] {
      assert all == declarations + [""] && all[..|all| - 1] == declarations;
      TrimLast(all);
      TrimSolid(declarations);
    } else {
      assert all == declarations;
      TrimSolid(declarations);
    }
  }

  lemma {:induction false} JoinIsSolid(words: seq<string>, glue: string)
    requires words != [] && Solid(words[|words| - 1])
    ensures Solid(Join(words, glue))
  {
    if |words| > 1 {
      JoinIsSolid(words[1..], glue);
      SolidBehind(words[0] + glue, Join(words[1..], glue));
    }
  }

  lemma SolidBehind(a: string, b: string)
    requires Solid(b)
    ensures Solid(a + b)
  {
    assert (a + b)[|a + b| - 1] == b[|b| - 1];
  }

  lemma PrintedIsSolid(keyword: string, operands: seq<string>)
    requires Solid(if operands == [] then keyword else operands[|operands| - 1])
    ensures Solid(PrintLine(keyword, operands))
  {
    if operands != [] {
      JoinIsSolid(operands, ", ");
      SolidBehind(keyword + " ", Join(operands, ", "));
    }
  }

  lemma DeclarationIsSolid(symbol: Symbol, options: Options)
    requires Fresh(symbol, options) && (symbol.kind == CONST_POINT_ID ==> symbol.path != "")
    ensures Solid(DeclarationText(symbol))
  {
    hide ValueTypeWord, PrintLine, RESERVED_NAMES;
    assert symbol.name != "";
    PrintedIsSolid(ValueTypeWord(symbol.valueType), [symbol.name]);
    PrintedIsSolid("POINT_ID", [symbol.name]);
    if symbol.kind == CONST_POINT_ID {
      PrintedIsSolid("POINT_ID", [symbol.name, symbol.path]);
    }
    var variable := PrintLine(ValueTypeWord(symbol.valueType), [symbol.name]);
    SolidBehind("VAR" + " ", variable);
    if Solid(variable) {
      SolidBehind("PRIVATE" + " ", variable);
      SolidBehind("VAR" + " ", "PRIVATE" + " " + variable);
    }
    SolidBehind("PARAM" + " ", PrintLine("POINT_ID", [symbol.name]));
    if symbol.kind == CONST_POINT_ID {
      SolidBehind("CONST" + " ", PrintLine("POINT_ID", [symbol.name, symbol.path]));
    }
  }

  lemma {:induction false} ArgTextsAreSolid(operands: seq<Operand>, args: seq<Arg>, values: seq<u32>, host: Host)
    requires |operands| == |args| && Fits(operands, values)
    requires forall i | 0 <= i < |operands| ::
               if args[i].Point? then Solid(args[i].name)
               else !operands[i].IsSymbol() && (operands[i] == Float32Literal ==> FloatPrints(values[i], host))
    ensures forall i | 0 <= i < |operands| :: Solid(ArgTexts(operands, args, values, host)[i])
    decreases operands
  {
    hide LiteralText, FloatPrints;
    if operands != [] {
      if !args[0].Point? {
        LiteralReadsBack(operands[0], values[0], host);
      }
      ArgTextsAreSolid(operands[1..], args[1..], values[1..], host);
    }
  }

  lemma InstrIsSolid(instr: SourceInstr, at: nat, labels: Labels, host: Host)
    requires Shaped(instr) && Sound(instr, at, labels) && FloatsPrint(instr, host)
    requires forall i | 0 <= i < |instr.args| :: instr.args[i].Point? ==> Solid(instr.args[i].name)
    ensures Solid(PrintLine(Mnemonic(instr.opcode), InstrTexts(instr, at, labels, host)))
  {
    var operands := OperandsOf(instr.opcode);
    hide OperandsOf, SizeOf, IsInstruction, FloatPrints, LiteralText, PrintLine, Mnemonic, ArgTexts, IsWhiteSpace;
    var values := Lower(instr, at, labels, Zero).args;
    var next := at + SizeOf(instr.opcode);
    forall i | 0 <= i < |operands|
      ensures !instr.args[i].Point? ==> !operands[i].IsSymbol()
      ensures !instr.args[i].Point? && operands[i] == Float32Literal ==> FloatPrints(values[i], host)
    {
      assert ArgSound(operands[i], instr.args[i], next, labels);
      assert values[i] == LowerArg(operands[i], instr.args[i], next, labels, Zero);
    }
    ArgTextsAreSolid(operands, instr.args, values, host);
    MnemonicIsWord(instr.opcode);
    WordIsPlain(Mnemonic(instr.opcode));
    PrintedIsSolid(Mnemonic(instr.opcode), InstrTexts(instr, at, labels, host));
  }

  lemma {:induction false} ProgramIsSolid(program: seq<SourceInstr>, at: nat, labels: Labels, host: Host)
    requires forall k | 0 <= k < |program| :: Shaped(program[k])
    requires AllSound(program, at, labels) && AllFloatsPrint(program, host)
    requires forall k | 0 <= k < |program| :: forall i | 0 <= i < |program[k].args| ::
               program[k].args[i].Point? ==> Solid(program[k].args[i].name)
    ensures
      var texts := ProgramTexts(program, at, labels, host);
      forall k | 0 <= k < |texts| :: Solid(texts[k])
    decreases program
  {
    hide Shaped, Sound, FloatsPrint, SizeOf, InstrTexts, Mnemonic, PrintLine, Solid;
    if program != [] {
      assert forall i | 0 <= i < |program[0].args| :: program[0].args[i].Point? ==> Solid(program[0].args[i].name);
      InstrIsSolid(program[0], at, labels, host);
      ProgramIsSolid(program[1..], at + SizeOf(program[0].opcode), labels, host);
      var texts := ProgramTexts(program, at, labels, host);
      forall k | 0 <= k < |texts|
        ensures Solid(texts[k])
      {
        if k > 0 {
          assert texts[k] == ProgramTexts(program[1..], at + SizeOf(program[0].opcode), labels, host)[k - 1];
        }
      }
    }
  }

  // A colon makes the line unreadable

  lemma PlainBeforeColon(first: string, second: string, more: string)
    requires PlainWord(first) && PlainWord(second) && forall i | 0 <= i < |more| :: !StartsComment(more[i])
    ensures
      var s := first + " " + (second + " " + more);
      var words := first + " " + second + " ";
      && s == words + more
      && (forall i | 0 <= i < |s| :: !StartsComment(s[i]))
      && (forall i | 0 <= i < |words| :: s[i] != ':')
  {
    var s := first + " " + (second + " " + more);
    var words := first + " " + second + " ";
    assert s == words + more;
    forall i | 0 <= i < |s|
      ensures !StartsComment(s[i]) && (i < |words| ==> s[i] != ':')
    {
      assert s[i] == if i < |first| then first[i] else if i == |first| then ' '
                     else if i < |first| + 1 + |second| then second[i - |first| - 1]
                     else if i < |words| then ' ' else more[i - |words|];
    }
  }

  lemma ColonBehindWords(first: string, second: string, more: string, number: nat, host: Host)
    requires PlainWord(first) && PlainWord(second) && Solid(more) && ':' in more && !host.isLetterOrDigit(' ')
    requires forall i | 0 <= i < |more| :: !StartsComment(more[i])
    ensures ReadLine(first + " " + (second + " " + more), number, host) == Err(LabelInvalid)
  {
    var s := first + " " + (second + " " + more);
    var words := first + " " + second + " ";
    PlainBeforeColon(first, second, more);
    hide IsWhiteSpace, IsSeparator, StartsComment;
    assert StripComment(s) == s;
    assert s[|s| - 1] == more[|more| - 1];
    TrimPlain(s);
    var colon := Find(s, c => c == ':');
    var i :| 0 <= i < |more| && more[i] == ':';
    assert s[|words| + i] == ':';
    assert |words| <= colon < |s|;
    var before := s[..colon];
    assert before[0] == first[0];
    assert TrimStart(before) == before;
    TrimEndKeeps(before);
    assert before[|first| + 1] == second[0];
    var tag := Trim(s[..colon]);
    assert |first| + 1 < |tag| && tag[|first|] == ' ';
    assert !host.isLetterOrDigit(tag[|first|]) && tag[|first|] != '_';
  }

  lemma ColonUnreadable(symbol: Symbol, options: Options, number: nat, host: Host)
    requires Fresh(symbol, options) && !ColonFree(symbol) && !host.isLetterOrDigit(' ')
    requires symbol.kind == CONST_POINT_ID ==> symbol.path != ""
    ensures ReadLine(DeclarationText(symbol), number, host).Err?
  {
    assert symbol.name != "";
    if symbol.kind == SLOT_VAR {
      VariableUnreadable(symbol, number, host);
    } else if symbol.kind == PARAM_POINT_ID {
      KeywordsArePlain();
      hide PlainWord, ReadLine, IsWhiteSpace;
      ColonBehindWords("PARAM", "POINT_ID", symbol.name, number, host);
    } else {
      ConstantUnreadable(symbol, number, host);
    }
  }

  lemma VariableUnreadable(symbol: Symbol, number: nat, host: Host)
    requires symbol.kind == SLOT_VAR && symbol.valueType <= TYPE_STRING && symbol.name != "" && Clean(symbol.name)
    requires ':' in symbol.name && !host.isLetterOrDigit(' ')
    ensures ReadLine(DeclarationText(symbol), number, host).Err?
  {
    hide ValueTypeWord, IsWord, PlainWord, ReadLine, IsWhiteSpace, ValueTypeOf;
    KeywordsArePlain();
    TypeWordIsPlain(symbol.valueType);
    var name, word := symbol.name, ValueTypeWord(symbol.valueType);
    PlainIsClean(word);
    ColonBehindWords("VAR", word, name, number, host);
    var more := word + " " + name;
    assert more[|more| - 1] == name[|name| - 1];
    var i :| 0 <= i < |name| && name[i] == ':';
    assert more[|word| + 1 + i] == ':';
    ColonBehindWords("VAR", "PRIVATE", more, number, host);
    assert word + " " + name == PrintLine(word, [name]);
  }

  lemma ConstantUnreadable(symbol: Symbol, number: nat, host: Host)
    requires symbol.kind == CONST_POINT_ID && symbol.name != "" && symbol.path != ""
    requires Clean(symbol.name) && Clean(symbol.path) && (':' in symbol.name || ':' in symbol.path)
    requires !host.isLetterOrDigit(' ')
    ensures ReadLine(DeclarationText(symbol), number, host).Err?
  {
    KeywordsArePlain();
    var name, path := symbol.name, symbol.path;
    hide PlainWord, ReadLine, IsWhiteSpace;
    var more := name + ", " + path;
    assert Join([name, path], ", ") == more;
    assert more[|more| - 1] == path[|path| - 1];
    if ':' in name {
      var i :| 0 <= i < |name| && name[i] == ':';
      assert more[i] == ':';
    } else {
      var i :| 0 <= i < |path| && path[i] == ':';
      assert more[|name| + 2 + i] == ':';
    }
    ColonBehindWords("CONST", "POINT_ID", more, number, host);
  }

  lemma PlainIsClean(w: string)
    requires PlainWord(w)
    ensures Clean(w)
  {
  }

  lemma {:induction false} ReadLinesFails(source: seq<string>, i: nat, n: nat, lines: seq<Line>, host: Host)
    requires i < |source| && forall number: nat :: ReadLine(source[i], number, host).Err?
    ensures ReadLines(source, n, lines, host).Err?
    decreases source
  {
    hide ReadLine;
    if i > 0 {
      match ReadLine(source[0], n + 1, host)
      case Err(_) =>
      case Ok(None) => ReadLinesFails(source[1..], i - 1, n + 1, lines, host);
      case Ok(Some(line)) => ReadLinesFails(source[1..], i - 1, n + 1, lines + [line], host);
    }
  }

  // The listing of an assembled object

  lemma PointNames(instr: SourceInstr, at: nat, labels: Labels, out: Output, declared: seq<Symbol>, options: Options)
    requires Shaped(instr) && Sound(instr, at, labels) && Known(instr, out.index) && Indexed(out)
    requires SameDeclarations(out.symbols, declared) && AllFresh(declared, options)
    ensures forall i | 0 <= i < |instr.args| :: instr.args[i].Point? ==> Solid(instr.args[i].name)
    ensures AllColonFree(out.symbols) ==> PlainPoints(instr)
  {
    var operands := OperandsOf(instr.opcode);
    hide OperandsOf, SizeOf, IsInstruction, PlainWord, RESERVED_NAMES;
    forall i | 0 <= i < |instr.args| && instr.args[i].Point?
      ensures Solid(instr.args[i].name)
      ensures AllColonFree(out.symbols) ==> PlainWord(instr.args[i].name)
    {
      assert ArgSound(operands[i], instr.args[i], at + SizeOf(instr.opcode), labels);
      assert UsesPoint(instr);
      var k := out.index[instr.args[i].name];
      assert SameDeclaration(out.symbols[k], declared[k]) && Fresh(declared[k], options);
      if AllColonFree(out.symbols) {
        assert ColonFree(out.symbols[k]);
        FreshNameIsWord(declared[k], options);
      }
    }
  }

  lemma {:induction false} ProgramPointNames(program: seq<SourceInstr>, at: nat, labels: Labels, out: Output,
                                             declared: seq<Symbol>, options: Options)
    requires forall k | 0 <= k < |program| :: Shaped(program[k])
    requires AllSound(program, at, labels) && AllKnown(program, out.index) && Indexed(out)
    requires SameDeclarations(out.symbols, declared) && AllFresh(declared, options)
    ensures forall k | 0 <= k < |program| :: forall i | 0 <= i < |program[k].args| ::
              program[k].args[i].Point? ==> Solid(program[k].args[i].name)
    ensures AllColonFree(out.symbols) ==> forall k | 0 <= k < |program| :: PlainPoints(program[k])
  {
    hide Shaped, Sound, Known, Indexed, SameDeclarations, AllFresh, AllColonFree, PlainPoints, Solid;
    forall k | 0 <= k < |program|
      ensures forall i | 0 <= i < |program[k].args| :: program[k].args[i].Point? ==> Solid(program[k].args[i].name)
      ensures AllColonFree(out.symbols) ==> PlainPoints(program[k])
    {
      SoundAt(program, at, labels, k);
      PointNames(program[k], at + Offset(SourceOpcodes(program), k), labels, out, declared, options);
    }
  }

  /** Constants have a path; an object file holds none without. */
  predicate PathsGiven(symbols: seq<Symbol>) {
    forall i | 0 <= i < |symbols| :: symbols[i].kind == CONST_POINT_ID ==> symbols[i].path != ""
  }

  /** A source without `DB` that assembles, and whose floats the runtime prints readably. */
  predicate Relistable(lines: seq<Line>, options: Options, host: Host) {
    && AllNoData(lines) && CleanTokens(lines)
    && AssembleLines(lines, options, host).Ok?
    && AllFloatsPrint(Program(lines, host), host)
    && PathsGiven(AssembleLines(lines, options, host).value.symbols)
  }

  function BlankLine(symbols: seq<Symbol>): seq<string> {
    if symbols == [] then [] else [""]
  }

  lemma FinalTables(lines: seq<Line>, options: Options, host: Host)
    requires Relistable(lines, options, host)
    ensures
      var out, declared := Final(lines, options, host), Declared(lines, options);
      && Indexed(out) && SameDeclarations(out.symbols, declared) && AllFresh(declared, options)
      && Wrote(EMPTY, Program(lines, host), LabelLines(lines, 0, map[]).value, out)
  {
    hide WriteLines, LabelLines, NoData, Clean, AllFloatsPrint, Indexed, AllFresh, SameDeclarations, Wrote, Placed,
         Program, Declared, WellIndexed;
    FinalIndexed(lines, options, host);
    EmptyIsIndexed();
    AssembledProgram(lines, options, host);
    FinalDeclarations(EMPTY, lines, LabelLines(lines, 0, map[]).value, options, host);
    assert EMPTY.symbols + Declared(lines, options) == Declared(lines, options);
  }

  lemma DeclarationsAreSolid(used: seq<Symbol>, declared: seq<Symbol>, options: Options)
    requires SameDeclarations(used, declared) && AllFresh(declared, options) && PathsGiven(used)
    ensures forall i | 0 <= i < |used| :: Solid(DeclarationTexts(used)[i])
  {
    SameWords(used, declared, options);
    hide Fresh, Solid, DeclarationText;
    forall i | 0 <= i < |used|
      ensures Solid(DeclarationTexts(used)[i])
    {
      assert SameDeclaration(used[i], declared[i]);
      DeclarationIsSolid(declared[i], options);
    }
  }

  lemma ListingOf(lines: seq<Line>, options: Options, host: Host)
    requires Relistable(lines, options, host)
    ensures
      var assembly := AssembleLines(lines, options, host).value;
      var declarations := DeclarationTexts(assembly.symbols);
      var instructions := ProgramTexts(Program(lines, host), 0, LabelLines(lines, 0, map[]).value, host);
      Listing(assembly, host) ==
      Some(if instructions == [] then declarations else declarations + BlankLine(assembly.symbols) + instructions)
  {
    hide WriteLines, LabelLines, NoData, Clean, AllFloatsPrint, Indexed, AllFresh, SameDeclarations, AllSound, AllKnown,
         Program, Declared, Solid, ListFrom, RelocationsByOffset, TrimListing, EncodeAll, LowerAll, RelocationsOf,
         AllColonFree, DeclarationTexts, ProgramTexts, Shaped, PathsGiven, AllNoData, CleanTokens;
    var out, declared := Final(lines, options, host), Declared(lines, options);
    var program, labels := Program(lines, host), LabelLines(lines, 0, map[]).value;
    FinalTables(lines, options, host);
    AssembledIsListed(lines, options, host);
    ProgramPointNames(program, 0, labels, out, declared, options);
    ProgramIsSolid(program, 0, labels, host);
    DeclarationsAreSolid(out.symbols, declared, options);
    TrimListed(DeclarationTexts(out.symbols), BlankLine(out.symbols), ProgramTexts(program, 0, labels, host));
  }

  lemma DeclarationsRead(used: seq<Symbol>, declared: seq<Symbol>, options: Options)
    requires SameDeclarations(used, declared) && AllFresh(declared, options)
    requires PathsGiven(used) && AllColonFree(used)
    ensures AllRead(DeclarationTexts(used), AllSymbolWords(used))
  {
    SameWords(used, declared, options);
    hide Fresh, Reads, DeclarationText, SymbolWords;
    forall i | 0 <= i < |used|
      ensures Reads(DeclarationTexts(used)[i], AllSymbolWords(used)[i])
    {
      assert SameDeclaration(used[i], declared[i]) && ColonFree(used[i]);
      DeclarationReads(declared[i], options);
    }
  }

  lemma ReadListed(texts: seq<string>, words: seq<seq<string>>, blank: seq<string>, instructions: seq<string>,
                   instructionWords: seq<seq<string>>, host: Host)
    requires AllRead(texts, words) && AllRead(instructions, instructionWords) && (blank == [] || blank == [""])
    ensures ReadLines(texts + blank + instructions, 0, [], host) ==
            Ok(Numbered(words, 0) + Numbered(instructionWords, |texts| + |blank|))
    ensures instructions == [] ==>
            ReadLines(texts, 0, [], host) == Ok(Numbered(words, 0) + Numbered(instructionWords, |texts| + |blank|))
  {
    hide *;
    var lines := Numbered(words, 0);
    assert texts + blank + instructions == texts + (blank + instructions);
    ReadTexts(texts, words, blank + instructions, 0, [], host);
    assert [] + lines == lines;
    ReadBlank(blank, instructions, |texts|, lines, host);
    assert instructions + [] == instructions;
    ReadNothing(|texts| + |blank| + |instructions|, lines + Numbered(instructionWords, |texts| + |blank|), host);
    ReadTexts(instructions, instructionWords, [], |texts| + |blank|, lines, host);
    if instructions == [] {
      assert texts + [] == texts;
      ReadTexts(texts, words, [], 0, [], host);
      NoWords(instructions, instructionWords);
      ReadNothing(|texts|, lines, host);
      assert lines + Numbered(instructionWords, |texts| + |blank|) == lines;
    }
  }

  lemma ReadNothing(n: nat, lines: seq<Line>, host: Host)
    ensures ReadLines([], n, lines, host) == Ok(lines)
  {
  }

  lemma NoWords(texts: seq<string>, words: seq<seq<string>>)
    requires AllRead(texts, words) && texts == []
    ensures words == []
  {
  }

  lemma ReadBlank(blank: seq<string>, more: seq<string>, n: nat, lines: seq<Line>, host: Host)
    requires blank == [] || blank == [""]
    ensures ReadLines(blank + more, n, lines, host) == ReadLines(more, n + |blank|, lines, host)
  {
    if blank == [] {
      assert blank + more == more;
    } else {
      assert (blank + more)[1..] == more;
    }
  }

  /** Without colons the listing reads as the words it was printed from, and those assemble back. */
  lemma ListingAssembles(lines: seq<Line>, options: Options, host: Host)
    requires Relistable(lines, options, host)
    requires AllColonFree(AssembleLines(lines, options, host).value.symbols)
    ensures
      var assembly := AssembleLines(lines, options, host).value;
      Listing(assembly, host).Some? && Assemble(Listing(assembly, host).value, options, host) == Ok(assembly)
  {
    hide WriteLines, LabelLines, NoData, Clean, AllFloatsPrint, Indexed, AllFresh, SameDeclarations, AllSound, AllKnown,
         Program, Declared, Solid, Listing, EncodeAll, LowerAll, RelocationsOf, PlainPoints, ReadLines,
         AllColonFree, DeclarationTexts, ProgramTexts, ProgramWords, AllSymbolWords, Shaped, PathsGiven, AllNoData,
         CleanTokens, AllRead;
    var out, declared := Final(lines, options, host), Declared(lines, options);
    var program, labels := Program(lines, host), LabelLines(lines, 0, map[]).value;
    var blank := BlankLine(out.symbols);
    FinalTables(lines, options, host);
    ListingOf(lines, options, host);
    ProgramPointNames(program, 0, labels, out, declared, options);
    ProgramReads(program, 0, labels, host);
    DeclarationsRead(out.symbols, declared, options);
    ReadListed(DeclarationTexts(out.symbols), AllSymbolWords(out.symbols), blank, ProgramTexts(program, 0, labels, host),
               ProgramWords(program, 0, labels, host), host);
    ListedLinesAssemble(lines, |DeclarationTexts(out.symbols)| + |blank|, options, host);
  }

  /** With a colon in a name or path, the listing does not assemble. */
  lemma ColonListingFails(lines: seq<Line>, options: Options, host: Host)
    requires Relistable(lines, options, host) && !host.isLetterOrDigit(' ')
    requires !AllColonFree(AssembleLines(lines, options, host).value.symbols)
    ensures
      var assembly := AssembleLines(lines, options, host).value;
      Listing(assembly, host).Some? && Assemble(Listing(assembly, host).value, options, host).Err?
  {
    hide WriteLines, LabelLines, NoData, Clean, AllFloatsPrint, Indexed, AllFresh, AllSound, AllKnown, ColonFree,
         Program, Declared, Listing, EncodeAll, LowerAll, RelocationsOf, ReadLines, ReadLine,
         ProgramTexts, Shaped, AllNoData, CleanTokens, DeclarationText, Fresh, AssembleLines;
    var out, declared := Final(lines, options, host), Declared(lines, options);
    FinalTables(lines, options, host);
    ListingOf(lines, options, host);
    var symbols := AssembleLines(lines, options, host).value.symbols;
    SameWords(symbols, declared, options);
    var i :| 0 <= i < |symbols| && !ColonFree(symbols[i]);
    DeclaredIs(symbols[i], declared, i, options);
    var listing := Listing(AssembleLines(lines, options, host).value, host).value;
    assert listing[i] == DeclarationTexts(symbols)[i] == DeclarationText(declared[i]);
    forall number: nat
      ensures ReadLine(listing[i], number, host).Err?
    {
      ColonUnreadable(declared[i], options, number, host);
    }
    ReadLinesFails(listing, i, 0, [], host);
  }

  lemma DeclaredIs(symbol: Symbol, declared: seq<Symbol>, i: nat, options: Options)
    requires i < |declared| && AllFresh(declared, options) && SameDeclaration(symbol, declared[i])
    ensures Fresh(declared[i], options) && ColonFree(declared[i]) == ColonFree(symbol)
    ensures declared[i].kind == symbol.kind && declared[i].path == symbol.path
  {
  }
}
