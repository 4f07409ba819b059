/** Inputs on which the program falls short: each of the exact conditions proved elsewhere is one that a
    real input can miss. */
module Failures {
  import opened Bytes
  import opened Isa
  import opened IsaWords
  import opened Lexer
  import opened Assembler
  import opened Meaning
  import opened Placement
  import opened ObjectFile
  import opened ObjectParser
  import opened Disassembler
  import opened Relisting
  import opened RoundTrip
  import opened ObjectRoundTrip

  // A source of one declaration

  lemma DeclaredAlone(line: Line, keyword: Keyword, symbol: Symbol, options: Options, host: Host)
    requires line.tokens != [] && KeywordOf(line.tokens[0]) == Some(keyword)
    requires keyword == CONST || keyword == VAR
    requires DeclaredSymbol(keyword, line.tokens, options) == Ok(symbol) && !IsBlank(symbol.name)
    ensures AssembleLines([line], options, host) == Ok(Assembly([], [symbol], []))
    ensures AllNoData([line]) && Program([line], host) == []
  {
    hide KeywordOf, DeclaredSymbol, IsBlank;
    var lines := [line];
    assert lines[1..] == [];
    var labels := if line.tag != "" then map[line.tag := 0] else map[];
    assert LabelLines([], 0, labels) == Ok(labels);
    assert LabelLines(lines, 0, map[]) == Ok(labels);
    var out := Output([], [symbol], [], map[symbol.name := 0]);
    assert EMPTY.symbols + [symbol] == [symbol] && EMPTY.index[symbol.name := 0] == out.index;
    assert AddSymbol(EMPTY, line.number, symbol) == Ok(out);
    assert WriteLine(EMPTY, line, labels, options, host) == Ok(out);
    assert WriteLines(out, [], labels, options, host) == Ok(out);
  }

  lemma BuiltAlone(symbol: Symbol, options: Options)
    requires SymbolBytes(symbol).Ok? && PlainSymbol(symbol)
    requires options.abiVersion == ABI_VERSION && options.entryOffset == 0
    ensures ObjectBytes(Assembly([], [symbol], []), options).Ok? && Representable(Assembly([], [symbol], []), options)
  {
    hide SymbolBytes, PlainSymbol, HeaderBytes, Fnv.Checksum;
    var symbols := [symbol];
    assert symbols[..0] == [];
    assert SymbolTable(symbols[..0]) == Ok([]);
  }

  /** Such a source does not survive disassembling if its symbol cannot be printed. */
  lemma UnprintableFails(source: seq<string>, line: Line, keyword: Keyword, symbol: Symbol, options: Options, host: Host)
    requires ReadLines(source, 0, [], host) == Ok([line])
    requires line.tokens != [] && KeywordOf(line.tokens[0]) == Some(keyword) && (keyword == CONST || keyword == VAR)
    requires DeclaredSymbol(keyword, line.tokens, options) == Ok(symbol) && !IsBlank(symbol.name)
    requires SymbolBytes(symbol).Ok? && PlainSymbol(symbol)
    requires options.abiVersion == ABI_VERSION && options.entryOffset == 0
    requires SymbolIdentity(symbol).Some? && !Printable(symbol) && !host.isLetterOrDigit(' ')
    ensures FailsRoundTrip(source, options, host)
  {
    hide ReadLines, KeywordOf, DeclaredSymbol, IsBlank, SymbolBytes, PlainSymbol, Printable, SymbolIdentity, ObjectBytes,
         Disassemble, Representable;
    DeclaredAlone(line, keyword, symbol, options, host);
    BuiltAlone(symbol, options);
    hide AssembleLines, Program, AllNoData;
    var assembly := Assembly([], [symbol], []);
    assert Assemble(source, options, host) == Ok(assembly);
    DisassembleThenAssemble(source, [line], options, host);
    assert assembly.symbols[0] == symbol;
  }

  /** The source assembles and is built; the object is disassembled, and the listing does not assemble to
      what it was made from. */
  predicate FailsRoundTrip(source: seq<string>, options: Options, host: Host) {
    && Assemble(source, options, host).Ok?
    && var assembly := Assemble(source, options, host).value;
       ObjectBytes(assembly, options).Ok?
       && var listing := Disassemble(ObjectBytes(assembly, options).value, host);
          listing.Some? && Assemble(listing.value, options, host) != Ok(assembly)
  }

  lemma OneLine(text: string, line: Line, host: Host)
    requires ReadLine(text, 1, host) == Ok(Some(line))
    ensures ReadLines([text], 0, [], host) == Ok([line])
  {
    hide ReadLine;
    assert [text][1..] == [] && [] + [line] == [line];
    assert ReadLines([], 1, [line], host) == Ok([line]);
  }

  /** A word that may hold a colon. */
  predicate Wordlike(w: string) {
    w != "" && Clean(w)
  }

  lemma LastWord(w: string)
    requires Wordlike(w)
    ensures Tokenize(w) == [w]
  {
    TrimPlain(w);
    assert w[|w|..] == "" && w[..|w|] == w;
  }

  lemma FirstWord(w: string, rest: string)
    requires PlainWord(w)
    ensures Tokenize(w + (" " + rest)) == [w] + Tokenize(rest)
  {
    hide Tokenize;
    TokenizeWord(w, " " + rest);
    TokenizeGlue(" ", rest);
  }

  // A colon in a name

  function VariableText(word: string, kind: string, name: string): string {
    word + (" " + (kind + (" " + name)))
  }

  lemma VariableWords(word: string, kind: string, name: string)
    requires PlainWord(word) && PlainWord(kind) && Wordlike(name)
    ensures Tokenize(VariableText(word, kind, name)) == [word, kind, name]
  {
    hide PlainWord, Tokenize, Wordlike;
    FirstWord(word, kind + (" " + name));
    FirstWord(kind, name);
    LastWord(name);
  }

  lemma VariableStands(word: string, kind: string, name: string)
    requires PlainWord(word) && PlainWord(kind) && Wordlike(name)
    ensures Stands(VariableText(word, kind, name))
  {
    var text := VariableText(word, kind, name);
    assert text[|text| - 1] == name[|name| - 1];
    var a, b := |word| + 1, |word| + 1 + |kind| + 1;
    forall i | 0 <= i < |text|
      ensures !StartsComment(text[i])
    {
      assert text[i] == if i < |word| then word[i] else if i == |word| then ' ' else if i < a + |kind| then kind[i - a]
                        else if i < b then ' ' else name[i - b];
    }
  }

  function LabelledText(tag: string, words: string): string {
    tag + (":" + (" " + words))
  }

  /** Words as a line can consist of. */
  predicate Stands(words: string) {
    && words != "" && !IsWhiteSpace(words[0]) && !IsWhiteSpace(words[|words| - 1])
    && forall i | 0 <= i < |words| :: !StartsComment(words[i])
  }

  lemma LabelledStands(tag: string, words: string)
    requires PlainWord(tag) && Stands(words)
    ensures Stands(LabelledText(tag, words))
  {
    var s, n := LabelledText(tag, words), |tag|;
    assert s[|s| - 1] == words[|words| - 1];
    forall i | 0 <= i < |s|
      ensures !StartsComment(s[i])
    {
      assert s[i] == if i < n then tag[i] else if i == n then ':' else if i == n + 1 then ' ' else words[i - n - 2];
    }
  }

  lemma StandsAlone(s: string)
    requires Stands(s)
    ensures Trim(StripComment(s)) == s && Trim(s) == s && s != ""
  {
    TrimPlain(s);
    assert s[..|s|] == s;
  }

  lemma LabelledColon(tag: string, words: string)
    requires PlainWord(tag)
    ensures
      var s := LabelledText(tag, words);
      Find(s, c => c == ':') == |tag| < |s| && s[..|tag|] == tag && s[|tag| + 1..] == " " + words
  {
    var s := LabelledText(tag, words);
    var colon := Find(s, c => c == ':');
    forall i | 0 <= i < |tag|
      ensures s[i] != ':'
    {
      assert s[i] == tag[i];
    }
    assert s[|tag|] == ':';
  }

  lemma BehindSpace(words: string)
    requires Trim(words) == words
    ensures Trim(" " + words) == words
  {
    assert (" " + words)[1..] == words;
  }

  lemma PlainStands(tag: string)
    requires PlainWord(tag)
    ensures Trim(tag) == tag != ""
  {
    TrimPlain(tag);
  }

  /** A line with a label before its words. */
  lemma LabelledReads(tag: string, words: string, number: nat, host: Host)
    requires PlainWord(tag) && LabelChars(tag, host) && Stands(words)
    ensures ReadLine(LabelledText(tag, words), number, host) == Ok(Some(Line(number, tag, Tokenize(words))))
  {
    hide PlainWord, LabelChars, Stands, Tokenize, Trim, StripComment, LabelledText, Find;
    LabelledStands(tag, words);
    StandsAlone(LabelledText(tag, words));
    LabelledColon(tag, words);
    StandsAlone(words);
    BehindSpace(words);
    PlainStands(tag);
  }

  function ColonSource(): string {
    LabelledText("l", VariableText("VAR", "BOOL", "a:b"))
  }

  lemma ColonLine(host: Host)
    requires host.isLetterOrDigit('l')
    ensures ReadLine(ColonSource(), 1, host) == Ok(Some(Line(1, "l", ["VAR", "BOOL", "a:b"])))
  {
    Words();
    ColonName();
    SmallWord(host);
    hide *;
    VariableWords("VAR", "BOOL", "a:b");
    VariableStands("VAR", "BOOL", "a:b");
    LabelledReads("l", VariableText("VAR", "BOOL", "a:b"), 1, host);
    ColonSourceIs();
  }

  lemma Words()
    ensures PlainWord("VAR") && PlainWord("BOOL")
  {
    WordIsPlain("VAR");
    WordIsPlain("BOOL");
  }

  lemma ColonSourceIs()
    ensures ColonSource() == LabelledText("l", VariableText("VAR", "BOOL", "a:b"))
  {
  }

  lemma ColonName()
    ensures Wordlike("a:b") && ':' in "a:b" && !IsBlank("a:b")
  {
    assert "a:b"[1] == ':' && "a:b"[0] == 'a';
  }

  lemma SmallWord(host: Host)
    requires host.isLetterOrDigit('l')
    ensures PlainWord("l") && LabelChars("l", host)
  {
  }

  /** The source `l: VAR BOOL a:b`: behind a label, a colon in a name goes unnoticed by the assembler, but
      not in the listing. */
  lemma ColonSourceFails(options: Options, host: Host)
    requires host.isLetterOrDigit('l') && !host.isLetterOrDigit(' ')
    requires options.abiVersion == ABI_VERSION && options.entryOffset == 0
    ensures FailsRoundTrip([ColonSource()], options, host)
  {
    var line := Line(1, "l", ["VAR", "BOOL", "a:b"]);
    var symbol := Symbol("a:b", SLOT_VAR, "", TYPE_BOOL, ACCESS_READ_WRITE, FLAG_NONE);
    ColonLine(host);
    OneLine(ColonSource(), line, host);
    DeclarationWords();
    ColonName();
    ColonSymbol(symbol);
    ColonDeclares(line, symbol, options);
    hide *;
    UnprintableFails([ColonSource()], line, VAR, symbol, options, host);
  }

  lemma ColonDeclares(line: Line, symbol: Symbol, options: Options)
    requires line.tokens == ["VAR", "BOOL", "a:b"]
    requires symbol == Symbol("a:b", SLOT_VAR, "", TYPE_BOOL, ACCESS_READ_WRITE, FLAG_NONE)
    ensures line.tokens != [] && DeclaredSymbol(VAR, line.tokens, options) == Ok(symbol)
  {
    TrimPlain("BOOL");
    UpperWord("BOOL");
    NotReserved();
    hide RESERVED_NAMES;
  }

  lemma NotReserved()
    ensures "a:b" !in RESERVED_NAMES
  {
    assert forall name | name in RESERVED_NAMES :: |name| > 3;
  }

  lemma ColonSymbol(symbol: Symbol)
    requires symbol == Symbol("a:b", SLOT_VAR, "", TYPE_BOOL, ACCESS_READ_WRITE, FLAG_NONE)
    ensures SymbolBytes(symbol).Ok? && PlainSymbol(symbol) && SymbolIdentity(symbol).Some? && !Printable(symbol)
  {
    ColonName();
    hide Ascii, Zeros;
  }

  // A blank part of a path

  /** The middle part is a vertical tab, which is white space but does not separate words. */
  function BlankPath(): string {
    ['a', '.', '\U{0B}', '.', 'b']
  }

  function ConstantText(name: string, path: string): string {
    name + ", " + path
  }

  function BlankSource(): string {
    "CONST" + " " + ("POINT_ID" + " " + ConstantText("p", BlankPath()))
  }

  lemma ConstantWords(name: string, path: string)
    requires PlainWord(name) && PlainWord(path)
    ensures PlainLine(ConstantText(name, path)) && Tokenize(ConstantText(name, path)) == [name, path]
  {
    PlainIsLine(path);
    hide Tokenize;
    PlainGlue(name, ", ", path);
    assert ConstantText(name, path) == name + (", " + path);
    TokenizeWord(name, ", " + path);
    TokenizeGlue(", ", path);
    assert path + "" == path;
    TokenizeWord(path, "");
    NoTokens();
  }

  lemma NoTokens()
    ensures Tokenize("") == []
  {
  }

  lemma PlainIsLine(w: string)
    requires PlainWord(w)
    ensures PlainLine(w)
  {
  }

  lemma BlankWords()
    ensures PlainWord("CONST") && PlainWord("POINT_ID") && PlainWord("p") && PlainWord(BlankPath())
  {
    KeywordsArePlain();
    hide IsWord;
  }

  lemma BlankLineReads(host: Host)
    ensures ReadLine(BlankSource(), 1, host) == Ok(Some(Line(1, "", ["CONST", "POINT_ID", "p", BlankPath()])))
  {
    BlankWords();
    hide *;
    var text := ConstantText("p", BlankPath());
    ConstantWords("p", BlankPath());
    PrependWord("POINT_ID", text);
    PrependWord("CONST", "POINT_ID" + " " + text);
    BlankSourceIs();
    ReadPlainLine(BlankSource(), 1, host);
    assert ["CONST"] + (["POINT_ID"] + ["p", BlankPath()]) == ["CONST", "POINT_ID", "p", BlankPath()];
  }

  lemma BlankSourceIs()
    ensures BlankSource() == "CONST" + " " + ("POINT_ID" + " " + ConstantText("p", BlankPath()))
  {
  }

  lemma BlankDeclares(line: Line, symbol: Symbol, options: Options)
    requires line.tokens == ["CONST", "POINT_ID", "p", BlankPath()]
    requires symbol == Symbol("p", CONST_POINT_ID, BlankPath(), TYPE_UNKNOWN, ACCESS_READ, FLAG_NONE)
    ensures line.tokens != [] && DeclaredSymbol(CONST, line.tokens, options) == Ok(symbol) && !IsBlank(symbol.name)
  {
    UpperWord("POINT_ID");
    assert "p"[0] == 'p';
    hide BlankPath;
  }

  lemma BlankIdentity()
    ensures ParsePointPath(BlankPath()) == Some(Identity("a", ['\U{0B}'], "b")) && IsBlank(['\U{0B}'])
  {
    var path := BlankPath();
    assert path[0] == 'a' && path[1] == '.' && path[3] == '.' && path[4] == 'b';
    assert Find(path, c => c == '.') == 1;
    assert LastDot(path) == 3;
    assert path[..1] == "a" && path[2..3] == ['\U{0B}'] && path[4..] == "b";
  }

  lemma BlankSymbol(symbol: Symbol)
    requires symbol == Symbol("p", CONST_POINT_ID, BlankPath(), TYPE_UNKNOWN, ACCESS_READ, FLAG_NONE)
    ensures SymbolBytes(symbol).Ok? && PlainSymbol(symbol) && SymbolIdentity(symbol).Some? && !Printable(symbol)
  {
    BlankIdentity();
    hide Ascii, Zeros, ParsePointPath, IsBlank;
  }

  /** The source `CONST POINT_ID p, a.<vertical tab>.b`: the middle part of the path is blank, the listing
      comes without the path and does not assemble. */
  lemma BlankSourceFails(options: Options, host: Host)
    requires !host.isLetterOrDigit(' ')
    requires options.abiVersion == ABI_VERSION && options.entryOffset == 0
    ensures FailsRoundTrip([BlankSource()], options, host)
  {
    var line := Line(1, "", ["CONST", "POINT_ID", "p", BlankPath()]);
    var symbol := Symbol("p", CONST_POINT_ID, BlankPath(), TYPE_UNKNOWN, ACCESS_READ, FLAG_NONE);
    BlankLineReads(host);
    OneLine(BlankSource(), line, host);
    DeclarationWords();
    BlankSymbol(symbol);
    BlankDeclares(line, symbol, options);
    hide *;
    UnprintableFails([BlankSource()], line, CONST, symbol, options, host);
  }
}
