/** Any bytes at all, listed and assembled again: data lines included, and data taken for instructions too. */
module AnyCode {
  import opened Bytes
  import opened Isa
  import opened IsaWords
  import opened Literals
  import opened Lexer
  import opened Code
  import opened Assembler
  import opened Meaning
  import opened Disassembler
  import opened Relisting
  import opened Reassembly
  import opened RoundTrip
  import opened Acceptance

  // What the listing finds

  function ArgsAt(code: seq<byte>, pc: nat): (args: seq<u32>)
    requires pc < |code| && pc + SizeOf(code[pc]) <= |code|
    ensures Fits(OperandsOf(code[pc]), args)
  {
    SizeIsWidths(code[pc]);
    ReadArgs(OperandsOf(code[pc]), code, pc + 1)
  }

  /** The instruction uses no point, and its float, if it has one, prints. */
  predicate Prints(opcode: byte, args: seq<u32>, host: Host)
    requires Fits(OperandsOf(opcode), args)
  {
    forall j | 0 <= j < |args| ::
      !OperandsOf(opcode)[j].IsSymbol() && (OperandsOf(opcode)[j] == Float32Literal ==> FloatPrints(args[j], host))
  }

  /** The instruction at `pc` is whole and prints. */
  predicate Printable(code: seq<byte>, pc: nat, host: Host)
    requires pc < |code|
  {
    && pc + SizeOf(code[pc]) <= |code|
    && Prints(code[pc], ArgsAt(code, pc), host)
  }

  /** So are all instructions that the listing finds in the code from `pc` on. */
  predicate AllPrintable(code: seq<byte>, pc: nat, host: Host)
    requires pc <= |code|
    decreases |code| - pc
  {
    pc == |code| ||
    if IsInstruction(code[pc]) then Printable(code, pc, host) && AllPrintable(code, pc + SizeOf(code[pc]), host)
    else AllPrintable(code, DataEnd(code, pc + 1), host)
  }

  function Values(args: seq<u32>): (values: seq<Arg>)
    ensures |values| == |args|
  {
    seq(|args|, i requires 0 <= i < |args| => Value(args[i]))
  }

  /** The words of the line at `pc`, and where the next one starts. */
  function WordsAt(code: seq<byte>, pc: nat, host: Host): (words: seq<string>)
    requires pc < |code| && (IsInstruction(code[pc]) ==> pc + SizeOf(code[pc]) <= |code|)
    ensures words != []
  {
    if IsInstruction(code[pc]) then
      [Mnemonic(code[pc])] + ArgTexts(OperandsOf(code[pc]), Values(ArgsAt(code, pc)), ArgsAt(code, pc), host)
    else ["DB"] + DataTexts(code[pc..DataEnd(code, pc + 1)])
  }

  function NextAt(code: seq<byte>, pc: nat): (next: nat)
    requires pc < |code| && (IsInstruction(code[pc]) ==> pc + SizeOf(code[pc]) <= |code|)
    ensures pc < next <= |code|
  {
    if IsInstruction(code[pc]) then pc + SizeOf(code[pc]) else DataEnd(code, pc + 1)
  }

  function AllWords(code: seq<byte>, pc: nat, host: Host): (words: seq<seq<string>>)
    requires pc <= |code| && AllPrintable(code, pc, host)
    decreases |code| - pc
  {
    if pc == |code| then [] else [WordsAt(code, pc, host)] + AllWords(code, NextAt(code, pc), host)
  }

  // One line

  lemma Cut(code: seq<byte>, a: nat, b: nat, c: nat)
    requires a <= b <= c <= |code|
    ensures code[a..c] == code[a..b] + code[b..c]
  {
  }

  lemma {:induction false} ReadBack(operands: seq<Operand>, code: seq<byte>, at: nat)
    requires at + Widths(operands) <= |code|
    ensures EncodeArgs(operands, ReadArgs(operands, code, at)) == code[at..at + Widths(operands)]
    decreases operands
  {
    hide Fetch16, Fetch32, ArgBytes;
    if operands != [] {
      var w := operands[0].Width();
      ReadBack(operands[1..], code, at + w);
      FieldBack(operands[0], code, at);
      var args := ReadArgs(operands, code, at);
      assert args[1..] == ReadArgs(operands[1..], code, at + w);
      Cut(code, at, at + w, at + Widths(operands));
    }
  }

  lemma HalfBack(code: seq<byte>, at: nat)
    requires at + 2 <= |code|
    ensures Le16(Fetch16(code, at)) == code[at..at + 2]
  {
    var a, b := code[at] as int, code[at + 1] as int;
    assert Fetch16(code, at) == a + 0x100 * b;
  }

  lemma Digits(a: int, b: int, c: int, d: int)
    requires 0 <= a < 0x100 && 0 <= b < 0x100 && 0 <= c < 0x100 && 0 <= d < 0x100
    ensures
      var v := a + 0x100 * b + 0x1_0000 * c + 0x100_0000 * d;
      v % 0x100 == a && v / 0x100 % 0x100 == b && v / 0x1_0000 % 0x100 == c && v / 0x100_0000 == d
  {
    var v := a + 0x100 * b + 0x1_0000 * c + 0x100_0000 * d;
    assert v == a + 0x100 * (b + 0x100 * c + 0x1_0000 * d);
    assert v / 0x100 == b + 0x100 * (c + 0x100 * d);
    assert v / 0x1_0000 == c + 0x100 * d;
  }

  lemma WordBack(code: seq<byte>, at: nat)
    requires at + 4 <= |code|
    ensures Le32(Fetch32(code, at)) == code[at..at + 4]
  {
    Digits(code[at], code[at + 1], code[at + 2], code[at + 3]);
    var v, s := Fetch32(code, at), code[at..at + 4];
    assert s[0] == code[at] && s[1] == code[at + 1] && s[2] == code[at + 2] && s[3] == code[at + 3];
    assert Le32(v)[0] == s[0] && Le32(v)[1] == s[1] && Le32(v)[2] == s[2] && Le32(v)[3] == s[3];
  }

  lemma FieldBack(operand: Operand, code: seq<byte>, at: nat)
    requires at + operand.Width() <= |code|
    ensures
      var v := if operand.Width() == 2 then Fetch16(code, at) else Fetch32(code, at);
      v < operand.Limit() && ArgBytes(operand, v) == code[at..at + operand.Width()]
  {
    hide Le16, Le32, Fetch16, Fetch32;
    if operand.Width() == 2 {
      HalfBack(code, at);
    } else {
      WordBack(code, at);
    }
  }

  lemma HexCharIs(n: nat)
    requires n < 16
    ensures HexChar(n) == "0123456789ABCDEF"[n] && HexDigit(HexChar(n)) == Some(n)
    ensures HexChar(n) != '+' && HexChar(n) != 'x' && HexChar(n) != 'X' && PlainWord([HexChar(n)])
  {
  }

  lemma TwoDigits(c: char, d: char, i: nat, j: nat)
    requires HexDigit(c) == Some(i) && HexDigit(d) == Some(j) && i < 16 && j < 16
    ensures DigitsValue([c, d], 16) == Some(16 * i + j)
  {
    assert [c, d][..1] == [c];
    assert DigitsValue([c], 16) == Some(i);
    hide HexDigit;
  }

  lemma DataReadsBack(b: byte)
    ensures ByteValue(DataByte(b)) == Some(b) && PlainWord(DataByte(b))
    ensures var digits := "0123456789ABCDEF"; DataByte(b) == "0x" + [digits[b / 16], digits[b % 16]]
  {
    HexCharIs(b / 16);
    HexCharIs(b % 16);
    TwoDigits(HexChar(b / 16), HexChar(b % 16), b / 16, b % 16);
    hide HexChar, HexDigit, DigitsValue;
    assert DataByte(b)[2..] == [HexChar(b / 16), HexChar(b % 16)];
  }

  lemma {:induction false} WriteDataBack(out: Output, number: nat, data: seq<byte>)
    requires WellIndexed(out)
    ensures WriteData(out, number, DataTexts(data)) == Ok(out.(code := out.code + data))
    decreases data
  {
    hide DataByte, ByteValue;
    if data == [] {
      assert out.code + [] == out.code;
    } else {
      DataReadsBack(data[0]);
      assert DataTexts(data)[1..] == DataTexts(data[1..]);
      WriteDataBack(out.(code := out.code + [data[0]]), number, data[1..]);
      assert out.code + [data[0]] + data[1..] == out.code + data;
    }
  }

  lemma DataLine(out: Output, number: nat, data: seq<byte>, options: Options, host: Host)
    requires WellIndexed(out) && data != []
    ensures
      var line := Line(number, "", ["DB"] + DataTexts(data));
      WriteLine(out, line, map[], options, host) == Ok(out.(code := out.code + data)) && EncodedSize(line.tokens).Some?
  {
    DeclarationWords();
    WriteDataBack(out, number, data);
    hide KeywordOf, DataTexts, WriteData, WellIndexed;
    var words := ["DB"] + DataTexts(data);
    assert words[1..] == DataTexts(data);
  }

  lemma DataReads(data: seq<byte>)
    requires data != []
    ensures Reads(PrintLine("DB", DataTexts(data)), ["DB"] + DataTexts(data))
  {
    hide DataByte, PlainLine, Tokenize;
    forall i | 0 <= i < |data|
      ensures PlainWord(DataTexts(data)[i])
    {
      DataReadsBack(data[i]);
    }
    assert PlainWord("DB");
    PrintedLineTokens("DB", DataTexts(data));
  }

  lemma InstructionWritten(out: Output, number: nat, opcode: byte, args: seq<u32>, host: Host)
    requires WellIndexed(out) && Fits(OperandsOf(opcode), args) && Prints(opcode, args, host)
    ensures WriteInstruction(out, number, opcode, ArgTexts(OperandsOf(opcode), Values(args), args, host), map[], host) ==
            Ok(out.(code := out.code + ([opcode] + EncodeArgs(OperandsOf(opcode), args))))
  {
    hide OperandsOf, ArgTexts, FloatPrints, EncodeArgs, WriteOperands;
    var operands := OperandsOf(opcode);
    var begun := out.(code := out.code + [opcode]);
    WriteLiterals(begun, number, operands, Values(args), args, host);
    assert begun.code + EncodeArgs(operands, args) == out.code + ([opcode] + EncodeArgs(operands, args));
  }

  /** The words of an instruction without points, written again. */
  lemma InstructionLine(out: Output, number: nat, opcode: byte, args: seq<u32>, options: Options, host: Host)
    requires WellIndexed(out) && IsInstruction(opcode) && Fits(OperandsOf(opcode), args) && Prints(opcode, args, host)
    ensures
      var line := Line(number, "", [Mnemonic(opcode)] + ArgTexts(OperandsOf(opcode), Values(args), args, host));
      && WriteLine(out, line, map[], options, host) ==
         Ok(out.(code := out.code + ([opcode] + EncodeArgs(OperandsOf(opcode), args))))
      && EncodedSize(line.tokens).Some?
  {
    hide OperandsOf, IsInstruction, ArgTexts, Prints, EncodeArgs, WriteInstruction, Mnemonic, KeywordOf, SizeOf, EncodedSize;
    var texts := ArgTexts(OperandsOf(opcode), Values(args), args, host);
    var line := Line(number, "", [Mnemonic(opcode)] + texts);
    assert line.tokens[1..] == texts;
    KeywordOfMnemonic(opcode);
    InstructionWritten(out, number, opcode, args, host);
    InstructionSized(line, opcode, options);
  }

  lemma InstructionReads(opcode: byte, args: seq<u32>, host: Host)
    requires IsInstruction(opcode) && Fits(OperandsOf(opcode), args) && Prints(opcode, args, host)
    ensures
      var texts := ArgTexts(OperandsOf(opcode), Values(args), args, host);
      Reads(PrintLine(Mnemonic(opcode), texts), [Mnemonic(opcode)] + texts)
  {
    var operands := OperandsOf(opcode);
    hide OperandsOf, IsInstruction, Mnemonic, ArgTexts, FloatPrints, PlainWord, PlainLine, Tokenize;
    ArgTextsArePlain(operands, Values(args), args, host);
    MnemonicIsWord(opcode);
    WordIsPlain(Mnemonic(opcode));
    PrintedLineTokens(Mnemonic(opcode), ArgTexts(operands, Values(args), args, host));
  }

  // All lines

  /** One line of the listing: it reads as its words, and they write the bytes it was listed from. */
  lemma LineBack(out: Output, number: nat, code: seq<byte>, pc: nat, options: Options, host: Host)
    requires WellIndexed(out) && pc < |code| && (IsInstruction(code[pc]) ==> Printable(code, pc, host))
    ensures
      var words, next := WordsAt(code, pc, host), NextAt(code, pc);
      && WriteLine(out, Line(number, "", words), map[], options, host) == Ok(out.(code := out.code + code[pc..next]))
      && EncodedSize(words).Some? && Reads(PrintLine(words[0], words[1..]), words)
  {
    hide WriteLine, EncodedSize, Reads, PrintLine, Mnemonic, ArgTexts, DataTexts, WellIndexed, OperandsOf, SizeOf,
         IsInstruction, DataEnd, Prints, ArgsAt;
    var words, next := WordsAt(code, pc, host), NextAt(code, pc);
    if IsInstruction(code[pc]) {
      var args := ArgsAt(code, pc);
      InstructionLine(out, number, code[pc], args, options, host);
      InstructionReads(code[pc], args, host);
      BytesBack(code, pc);
      assert words[1..] == ArgTexts(OperandsOf(code[pc]), Values(args), args, host);
    } else {
      DataLine(out, number, code[pc..next], options, host);
      DataReads(code[pc..next]);
      assert words[1..] == DataTexts(code[pc..next]);
    }
  }

  lemma BytesBack(code: seq<byte>, pc: nat)
    requires pc < |code| && pc + SizeOf(code[pc]) <= |code|
    ensures [code[pc]] + EncodeArgs(OperandsOf(code[pc]), ArgsAt(code, pc)) == code[pc..pc + SizeOf(code[pc])]
  {
    hide OperandsOf, EncodeArgs, ReadArgs, SizeOf, Widths;
    SizeIsWidths(code[pc]);
    ReadBack(OperandsOf(code[pc]), code, pc + 1);
  }

  function TextOf(words: seq<string>): string
    requires words != []
  {
    PrintLine(words[0], words[1..])
  }

  predicate AllFull(words: seq<seq<string>>) {
    forall i | 0 <= i < |words| :: words[i] != []
  }

  function TextsOf(words: seq<seq<string>>): (texts: seq<string>)
    requires AllFull(words)
    ensures |texts| == |words|
  {
    seq(|words|, i requires 0 <= i < |words| => TextOf(words[i]))
  }

  /** What is listed. */
  lemma LineListed(code: seq<byte>, pc: nat, host: Host)
    requires pc < |code| && (IsInstruction(code[pc]) ==> Printable(code, pc, host))
    ensures ListFrom(code, pc, map[], [], host) ==
            Prepend([TextOf(WordsAt(code, pc, host))], ListFrom(code, NextAt(code, pc), map[], [], host))
  {
    hide PrintLine, Mnemonic, ArgTexts, DataTexts, OperandsOf, SizeOf, IsInstruction, DataEnd, EncodeArgs, ReadArgs, Widths;
    if IsInstruction(code[pc]) {
      InstructionIs(code, pc, host);
      hide InstructionText;
    }
  }

  lemma InstructionIs(code: seq<byte>, pc: nat, host: Host)
    requires pc < |code| && IsInstruction(code[pc]) && Printable(code, pc, host)
    ensures InstructionText(code, pc, map[], [], host) == Some(TextOf(WordsAt(code, pc, host)))
  {
    hide PrintLine, Mnemonic, ArgTexts, OperandsOf, SizeOf, IsInstruction, EncodeArgs, ReadArgs, Widths, FloatPrints;
    var operands, args := OperandsOf(code[pc]), ArgsAt(code, pc);
    LiteralTexts(operands, Values(args), args, pc + 1, map[], [], host);
    var words := WordsAt(code, pc, host);
    assert words[1..] == ArgTexts(operands, Values(args), args, host);
  }

  lemma WordsStep(code: seq<byte>, pc: nat, host: Host)
    requires pc < |code| && AllPrintable(code, pc, host)
    ensures IsInstruction(code[pc]) ==> Printable(code, pc, host)
    ensures AllPrintable(code, NextAt(code, pc), host)
    ensures AllWords(code, pc, host) == [WordsAt(code, pc, host)] + AllWords(code, NextAt(code, pc), host)
  {
    hide Printable, WordsAt, IsInstruction, SizeOf;
  }

  lemma LineIsThere(code: seq<byte>, pc: nat, host: Host)
    requires pc < |code| && (IsInstruction(code[pc]) ==> Printable(code, pc, host))
    ensures IsInstruction(code[pc]) ==> pc + SizeOf(code[pc]) <= |code|
  {
    hide SizeOf, IsInstruction, Prints;
  }

  /** Every line reads as its words, and the first pass knows their size. */
  predicate AllReadable(words: seq<seq<string>>) {
    AllFull(words) && AllRead(TextsOf(words), words) && forall i | 0 <= i < |words| :: EncodedSize(words[i]).Some?
  }

  lemma ReadableCons(first: seq<string>, rest: seq<seq<string>>)
    requires first != [] && Reads(TextOf(first), first) && EncodedSize(first).Some? && AllReadable(rest)
    ensures AllReadable([first] + rest) && TextsOf([first] + rest) == [TextOf(first)] + TextsOf(rest)
  {
    hide Reads, TextOf, EncodedSize;
    var words := [first] + rest;
    forall i | 0 <= i < |words|
      ensures words[i] != [] && Reads(TextOf(words[i]), words[i]) && EncodedSize(words[i]).Some?
    {
      if i > 0 {
        assert words[i] == rest[i - 1] && Reads(TextsOf(rest)[i - 1], rest[i - 1]);
      }
    }
  }

  lemma {:induction false} AllListed(code: seq<byte>, pc: nat, options: Options, host: Host)
    requires pc <= |code| && AllPrintable(code, pc, host)
    ensures AllReadable(AllWords(code, pc, host))
    ensures ListFrom(code, pc, map[], [], host) == Some(TextsOf(AllWords(code, pc, host)))
    decreases |code| - pc
  {
    hide *;
    if pc == |code| {
      NothingListed(code, host);
    } else {
      WordsStep(code, pc, host);
      LineIsThere(code, pc, host);
      var first, next := WordsAt(code, pc, host), NextAt(code, pc);
      assert WellIndexed(EMPTY) by { NothingIndexed(); }
      LineBack(EMPTY, 0, code, pc, options, host);
      LineListed(code, pc, host);
      AllListed(code, next, options, host);
      TextOfIs(first);
      var rest := AllWords(code, next, host);
      ReadableSizes(rest);
      ReadableCons(first, rest);
      ListedCons(TextOf(first), TextsOf(rest));
    }
  }

  lemma NothingIndexed()
    ensures WellIndexed(EMPTY)
  {
  }

  lemma ListedCons(text: string, texts: seq<string>)
    ensures Prepend([text], Some(texts)) == Some([text] + texts)
  {
  }

  lemma TextOfIs(words: seq<string>)
    requires words != []
    ensures TextOf(words) == PrintLine(words[0], words[1..])
  {
  }

  lemma NothingListed(code: seq<byte>, host: Host)
    ensures AllPrintable(code, |code|, host) && AllReadable(AllWords(code, |code|, host))
    ensures ListFrom(code, |code|, map[], [], host) == Some(TextsOf(AllWords(code, |code|, host)))
  {
  }

  lemma {:induction false} AllWritten(out: Output, code: seq<byte>, pc: nat, n: nat, options: Options, host: Host)
    requires pc <= |code| && AllPrintable(code, pc, host) && WellIndexed(out) && out.code == code[..pc]
    ensures WriteLines(out, Numbered(AllWords(code, pc, host), n), map[], options, host) == Ok(out.(code := code))
    decreases |code| - pc
  {
    hide Printable, WordsAt, IsInstruction, SizeOf, NextAt, AllWords, WriteLine, AllPrintable, Reads, EncodedSize;
    if pc == |code| {
      assert code[..pc] == code;
      NothingWritten(out, code, n, options, host);
    } else {
      WordsStep(code, pc, host);
      LineIsThere(code, pc, host);
      var words, next := AllWords(code, pc, host), NextAt(code, pc);
      LineBack(out, n + 1, code, pc, options, host);
      assert words[0] == WordsAt(code, pc, host) && words[1..] == AllWords(code, next, host);
      WriteNumberedCons(out, words, n, options, host);
      assert code[..pc] + code[pc..next] == code[..next];
      AllWritten(out.(code := code[..next]), code, next, n + 1, options, host);
    }
  }

  lemma NothingWritten(out: Output, code: seq<byte>, n: nat, options: Options, host: Host)
    requires WellIndexed(out) && out.code == code
    ensures AllPrintable(code, |code|, host)
    ensures WriteLines(out, Numbered(AllWords(code, |code|, host), n), map[], options, host) == Ok(out.(code := code))
  {
  }

  lemma {:induction false} NoLabels(lines: seq<Line>, offset: nat)
    requires forall i | 0 <= i < |lines| :: lines[i].tag == "" && EncodedSize(lines[i].tokens).Some?
    ensures LabelLines(lines, offset, map[]) == Ok(map[])
    decreases lines
  {
    hide EncodedSize;
    if lines != [] {
      NoLabels(lines[1..], offset + EncodedSize(lines[0].tokens).value);
    }
  }

  /** Any code in which the listing finds only whole instructions without points, between data, comes back from its
      listing byte by byte. */
  lemma AnyBytesComeBack(code: seq<byte>, options: Options, host: Host)
    requires AllPrintable(code, 0, host)
    ensures
      var assembly := Assembly(code, [], []);
      Listing(assembly, host).Some? && Assemble(Listing(assembly, host).value, options, host) == Ok(assembly)
  {
    hide AllPrintable, AllReadable, AllWords, ListFrom, WriteLines, LabelLines, ReadLines, TextsOf, EncodedSize;
    var words := AllWords(code, 0, host);
    AllListed(code, 0, options, host);
    assert AllFull(words) by { ReadableSizes(words); }
    TextsAreSolid(words);
    var texts := TextsOf(words);
    ListingIs(code, texts, host);
    TextsRead(words, host);
    var lines := Numbered(words, 0);
    ReadableSizes(words);
    NoLabels(lines, 0);
    AllWritten(EMPTY, code, 0, 0, options, host);
  }

  lemma ListingIs(code: seq<byte>, texts: seq<string>, host: Host)
    requires ListFrom(code, 0, map[], [], host) == Some(texts) && TrimListing(texts) == texts
    ensures Listing(Assembly(code, [], []), host) == Some(texts)
  {
    hide ListFrom, TrimListing;
    assert RelocationsByOffset([]) == map[];
    assert DeclarationTexts([]) + [] + texts == texts;
  }

  lemma TextsAreSolid(words: seq<seq<string>>)
    requires AllReadable(words)
    ensures TrimListing(TextsOf(words)) == TextsOf(words)
  {
    hide EncodedSize, Tokenize, TrimListing, TextOf;
    var texts := TextsOf(words);
    forall i | 0 <= i < |texts|
      ensures Solid(texts[i])
    {
      assert Reads(texts[i], words[i]);
    }
    TrimSolid(texts);
  }

  lemma TextsRead(words: seq<seq<string>>, host: Host)
    requires AllReadable(words)
    ensures ReadLines(TextsOf(words), 0, [], host) == Ok(Numbered(words, 0))
  {
    hide EncodedSize, Reads, TextsOf, ReadLines;
    ReadTexts(TextsOf(words), words, [], 0, [], host);
    assert TextsOf(words) + [] == TextsOf(words);
    assert [] + Numbered(words, 0) == Numbered(words, 0);
    ReadNothing(|words|, Numbered(words, 0), host);
  }

  lemma ReadableSizes(words: seq<seq<string>>)
    requires AllReadable(words)
    ensures AllFull(words) && forall i | 0 <= i < |words| :: EncodedSize(words[i]).Some?
  {
    hide EncodedSize, Reads;
  }
}
