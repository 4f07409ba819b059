/** Which sources the assembler accepts, said of their lines alone. */
module Acceptance {
  import opened Bytes
  import opened Isa
  import opened Literals
  import opened Lexer
  import opened Assembler
  import opened Meaning
  import opened Placement

  // Declarations

  predicate TypeWord(word: string, valueType: byte) {
    || (word == "BOOL" && valueType == 0)
    || ((word == "UINT16" || word == "WORD") && valueType == 1)
    || ((word == "INT" || word == "INT16") && valueType == 2)
    || ((word == "UINT32" || word == "DWORD") && valueType == 3)
    || ((word == "DINT" || word == "INT32") && valueType == 4)
    || ((word == "FLOAT" || word == "REAL") && valueType == 5)
    || (word == "ENUM" && valueType == 6)
    || (word == "STRING" && valueType == 7)
  }

  /** A variable of a program, without a point of its own, which it may read and write. */
  predicate VariableIs(typeWord: string, name: string, flags: byte, symbol: Symbol) {
    && TypeWord(Upper(Trim(typeWord)), symbol.valueType) && name !in RESERVED_NAMES
    && symbol == Symbol(name, 2, "", symbol.valueType, 2, flags)
  }

  /** A point by its path, of no type yet and only read. */
  predicate PointIs(kind: byte, name: string, path: string, symbol: Symbol) {
    symbol == Symbol(name, kind, path, 255, 0, 0)
  }

  predicate DeclarationIs(words: seq<string>, options: Options, symbol: Symbol) {
    && words != []
    && match KeywordOf(words[0])
       case Some(CONST) => |words| == 4 && Upper(words[1]) == "POINT_ID" && PointIs(0, words[2], words[3], symbol)
       case Some(PARAM) =>
         && |words| == 3 && Upper(words[1]) == "POINT_ID" && words[2] in options.pointBindings
         && PointIs(1, words[2], options.pointBindings[words[2]], symbol)
       case Some(VAR) =>
         || (|words| == 3 && VariableIs(words[1], words[2], 0, symbol))
         || (|words| == 4 && Upper(words[1]) == "PUBLIC" && VariableIs(words[2], words[3], 0, symbol))
         || (|words| == 4 && Upper(words[1]) == "PRIVATE" && VariableIs(words[2], words[3], 1, symbol))
       case _ => false
  }

  lemma TypeWordExactly(token: string, valueType: byte)
    ensures ValueTypeOf(token) == Some(valueType) <==> TypeWord(Upper(Trim(token)), valueType)
  {
    hide Upper, Trim;
  }

  /** What a line declares, if anything. */
  lemma DeclarationExactly(line: Line, options: Options, symbol: Symbol)
    ensures DeclarationOn(line, options) == Some(symbol) <==> DeclarationIs(line.tokens, options, symbol)
  {
    hide TypeWord, ValueTypeOf, Upper, Trim, KeywordOf, RESERVED_NAMES;
    if line.tokens != [] {
      if |line.tokens| >= 2 {
        TypeWordExactly(line.tokens[1], symbol.valueType);
      }
      if |line.tokens| >= 3 {
        TypeWordExactly(line.tokens[2], symbol.valueType);
      }
    }
  }

  // Lines in their order

  /** Where the code of a line goes: behind that of the lines before it. */
  function Position(lines: seq<Line>, n: nat): nat
    requires n <= |lines|
  {
    if n == 0 then 0 else Position(lines, n - 1) + EncodedSize(lines[n - 1].tokens).GetOr(0)
  }

  /** How many of the first lines declare a symbol. */
  function Declarations(lines: seq<Line>, n: nat, options: Options): nat
    requires n <= |lines|
  {
    if n == 0 then 0 else Declarations(lines, n - 1, options) + (if DeclarationOn(lines[n - 1], options).Some? then 1 else 0)
  }

  predicate DeclaresName(line: Line, options: Options, name: string) {
    DeclarationOn(line, options).Some? && DeclarationOn(line, options).value.name == name
  }

  predicate DeclaredBefore(lines: seq<Line>, n: nat, options: Options, name: string)
    requires n <= |lines|
  {
    exists j | 0 <= j < n :: DeclaresName(lines[j], options, name)
  }

  /** The point a line uses and the type it uses it at. */
  function UseOn(line: Line): Option<(string, byte)> {
    if |line.tokens| != 2 then None
    else
      match KeywordOf(line.tokens[0])
      case Some(Instruction(opcode)) =>
        var operands := OperandsOf(opcode);
        if |operands| == 1 && operands[0].IsSymbol() then Some((line.tokens[1], operands[0].valueType)) else None
      case _ => None
  }

  /** The line does not keep the name from being used at the type. */
  predicate Agrees(line: Line, options: Options, name: string, valueType: byte) {
    && (UseOn(line).Some? && UseOn(line).value.0 == name ==> UseOn(line).value.1 == valueType)
    && (DeclaresName(line, options, name) ==>
          DeclarationOn(line, options).value.valueType == 255 || DeclarationOn(line, options).value.valueType == valueType)
  }

  predicate AllAgree(lines: seq<Line>, n: nat, options: Options, name: string, valueType: byte)
    requires n <= |lines|
  {
    forall j | 0 <= j < n :: Agrees(lines[j], options, name, valueType)
  }

  // What is accepted

  /** A label is declared once, and in the first 65536 bytes. */
  predicate LabelFits(lines: seq<Line>, i: nat)
    requires i < |lines|
  {
    lines[i].tag != "" ==> (forall j | 0 <= j < i :: lines[j].tag != lines[i].tag) && Position(lines, i) <= 0xFFFF
  }

  /** The label stands on some line, near enough to branch to it from behind an operand. */
  predicate IsNear(lines: seq<Line>, tag: string, behind: nat) {
    tag != "" && exists j | 0 <= j < |lines| :: lines[j].tag == tag && -0x8000 <= Position(lines, j) - behind <= 0x7FFF
  }

  predicate OperandFits(lines: seq<Line>, i: nat, operand: Operand, token: string, options: Options, host: Host)
    requires i < |lines|
  {
    if operand.IsSymbol() then
      DeclaredBefore(lines, i, options, token) && AllAgree(lines, i, options, token, operand.valueType)
    else if operand == BranchTarget then Int16Pattern(token).Some? || IsNear(lines, token, Position(lines, i) + 3)
    else LiteralValue(operand, token, host).Some?
  }

  /** A declaration is of another name than those before, which are less than 65535; an instruction has the operands it
      takes; and data are bytes, at least one. */
  predicate LineFits(lines: seq<Line>, i: nat, options: Options, host: Host)
    requires i < |lines|
  {
    var words := lines[i].tokens;
    words != [] ==>
      match KeywordOf(words[0])
      case None => false
      case Some(Instruction(opcode)) =>
        && |words| == 1 + |OperandsOf(opcode)|
        && forall k | 0 <= k < |OperandsOf(opcode)| ::
             OperandFits(lines, i, OperandsOf(opcode)[k], words[1 + k], options, host)
      case Some(DB) => |words| >= 2 && forall k | 1 <= k < |words| :: ByteValue(words[k]).Some?
      case Some(_) =>
        var declared := DeclarationOn(lines[i], options);
        && declared.Some? && !IsBlank(declared.value.name)
        && !DeclaredBefore(lines, i, options, declared.value.name)
        && Declarations(lines, i, options) < 65535
  }

  // The first pass

  /** The labels of the first lines, with their positions. */
  ghost predicate LabelsOf(lines: seq<Line>, n: nat, labels: Labels)
    requires n <= |lines|
  {
    && (forall tag | tag in labels :: tag != "" && exists j | 0 <= j < n :: lines[j].tag == tag)
    && (forall j | 0 <= j < n && lines[j].tag != "" :: lines[j].tag in labels && labels[lines[j].tag] == Position(lines, j))
  }

  predicate IsSized(line: Line) {
    EncodedSize(line.tokens).Some?
  }

  lemma LabelStep(lines: seq<Line>, n: nat, labels: Labels)
    requires n < |lines| && LabelsOf(lines, n, labels)
    ensures LabelFits(lines, n) <==> lines[n].tag == "" || (lines[n].tag !in labels && Position(lines, n) <= 0xFFFF)
    ensures LabelFits(lines, n) ==>
              LabelsOf(lines, n + 1, if lines[n].tag != "" then labels[lines[n].tag := Position(lines, n)] else labels)
  {
    hide Position;
  }

  lemma {:induction false} LabelsExactly(lines: seq<Line>, n: nat, labels: Labels)
    requires n <= |lines| && LabelsOf(lines, n, labels)
    ensures
      var r := LabelLines(lines[n..], Position(lines, n), labels);
      && (r.Ok? <==> forall i | n <= i < |lines| :: LabelFits(lines, i) && IsSized(lines[i]))
      && (r.Ok? ==> LabelsOf(lines, |lines|, r.value))
    decreases |lines| - n
  {
    hide EncodedSize, LabelFits, LabelsOf;
    if n < |lines| {
      assert lines[n..][1..] == lines[n + 1..];
      LabelStep(lines, n, labels);
      if LabelFits(lines, n) && IsSized(lines[n]) {
        LabelsExactly(lines, n + 1, if lines[n].tag != "" then labels[lines[n].tag := Position(lines, n)] else labels);
      }
    }
  }

  // The second pass

  /** The type recorded of a name leaves open exactly the types that nothing before is against. */
  predicate TypeOpen(lines: seq<Line>, n: nat, options: Options, name: string, recorded: byte)
    requires n <= |lines|
  {
    forall valueType: byte | valueType != 255 :: OpenTo(lines, n, options, name, recorded, valueType)
  }

  predicate OpenTo(lines: seq<Line>, n: nat, options: Options, name: string, recorded: byte, valueType: byte)
    requires n <= |lines|
  {
    recorded == 255 || recorded == valueType <==> AllAgree(lines, n, options, name, valueType)
  }

  ghost predicate Tracks(out: Output, lines: seq<Line>, n: nat, options: Options)
    requires n <= |lines|
  {
    && WellIndexed(out) && Indexed(out)
    && |out.code| == Position(lines, n)
    && |out.symbols| == Declarations(lines, n, options)
    && (forall name :: name in out.index <==> DeclaredBefore(lines, n, options, name))
    && (forall name | name in out.index :: TypeOpen(lines, n, options, name, out.symbols[out.index[name]].valueType))
  }

  lemma DeclaredStep(lines: seq<Line>, n: nat, options: Options, name: string)
    requires n < |lines|
    ensures DeclaredBefore(lines, n + 1, options, name) <==>
            DeclaredBefore(lines, n, options, name) || DeclaresName(lines[n], options, name)
  {
    hide DeclaresName;
  }

  lemma AgreeStep(lines: seq<Line>, n: nat, options: Options, name: string, valueType: byte)
    requires n < |lines|
    ensures AllAgree(lines, n + 1, options, name, valueType) <==>
            AllAgree(lines, n, options, name, valueType) && Agrees(lines[n], options, name, valueType)
  {
    hide Agrees;
  }

  /** A name that is not declared is not used, if what uses it fits. */
  predicate UsesDeclared(lines: seq<Line>, n: nat, options: Options)
    requires n <= |lines|
  {
    forall j | 0 <= j < n && UseOn(lines[j]).Some? :: DeclaredBefore(lines, j, options, UseOn(lines[j]).value.0)
  }

  lemma UndeclaredAgrees(lines: seq<Line>, n: nat, options: Options, name: string, valueType: byte)
    requires n <= |lines| && UsesDeclared(lines, n, options) && !DeclaredBefore(lines, n, options, name)
    ensures AllAgree(lines, n, options, name, valueType)
  {
    hide UseOn;
    forall j | 0 <= j < n
      ensures Agrees(lines[j], options, name, valueType)
    {
      assert !DeclaresName(lines[j], options, name);
      assert !DeclaredBefore(lines, j, options, name);
    }
  }

  // Declarations

  lemma AddSymbolOk(out: Output, number: nat, symbol: Symbol)
    ensures AddSymbol(out, number, symbol).Ok? <==>
            !IsBlank(symbol.name) && symbol.name !in out.index && |out.symbols| < 65535
  {
  }

  lemma DeclarationLine(out: Output, line: Line, labels: Labels, options: Options, host: Host)
    requires WellIndexed(out) && line.tokens != []
    requires KeywordOf(line.tokens[0]).Some? && !KeywordOf(line.tokens[0]).value.Instruction?
    requires !KeywordOf(line.tokens[0]).value.DB?
    ensures
      var r := WriteLine(out, line, labels, options, host);
      match DeclarationOn(line, options)
      case None => r.Err?
      case Some(symbol) => r == AddSymbol(out, line.number, symbol)
    ensures EncodedSize(line.tokens) == Some(0) && UseOn(line) == None
  {
    hide KeywordOf, DeclaredSymbol, AddSymbol;
  }

  lemma TypeOpenStep(lines: seq<Line>, n: nat, options: Options, name: string, recorded: byte)
    requires n < |lines| && TypeOpen(lines, n, options, name, recorded)
    requires forall valueType: byte | valueType != 255 :: Agrees(lines[n], options, name, valueType)
    ensures TypeOpen(lines, n + 1, options, name, recorded)
  {
    hide Agrees, AllAgree;
    var next := n + 1;
    forall valueType: byte | valueType != 255
      ensures OpenTo(lines, next, options, name, recorded, valueType)
    {
      assert OpenTo(lines, n, options, name, recorded, valueType);
      AgreeStep(lines, n, options, name, valueType);
    }
  }

  /** Behind a line that neither declares nor uses a symbol. */
  lemma PlainStep(out: Output, next: Output, lines: seq<Line>, n: nat, options: Options)
    requires n < |lines| && Tracks(out, lines, n, options)
    requires DeclarationOn(lines[n], options).None? && UseOn(lines[n]).None?
    requires next.symbols == out.symbols && next.index == out.index && WellIndexed(next)
    requires |next.code| == |out.code| + EncodedSize(lines[n].tokens).GetOr(0)
    ensures Tracks(next, lines, n + 1, options)
  {
    hide DeclarationOn, UseOn, EncodedSize, WellIndexed, DeclaredBefore, TypeOpen;
    assert Indexed(next);
    forall name: string
      ensures name in next.index <==> DeclaredBefore(lines, n + 1, options, name)
    {
      DeclaredStep(lines, n, options, name);
    }
    forall name | name in next.index
      ensures TypeOpen(lines, n + 1, options, name, next.symbols[next.index[name]].valueType)
    {
      TypeOpenStep(lines, n, options, name, next.symbols[next.index[name]].valueType);
    }
  }

  lemma DeclaredType(lines: seq<Line>, n: nat, options: Options, symbol: Symbol)
    requires n < |lines| && DeclarationOn(lines[n], options) == Some(symbol) && UseOn(lines[n]).None?
    requires UsesDeclared(lines, n, options) && !DeclaredBefore(lines, n, options, symbol.name)
    ensures TypeOpen(lines, n + 1, options, symbol.name, symbol.valueType)
  {
    hide UseOn, DeclarationOn, AllAgree, UsesDeclared, DeclaredBefore;
    var next := n + 1;
    forall valueType: byte | valueType != 255
      ensures OpenTo(lines, next, options, symbol.name, symbol.valueType, valueType)
    {
      UndeclaredAgrees(lines, n, options, symbol.name, valueType);
      AgreeStep(lines, n, options, symbol.name, valueType);
    }
  }

  lemma OtherAgrees(line: Line, options: Options, name: string)
    requires !DeclaresName(line, options, name) && (UseOn(line).Some? ==> UseOn(line).value.0 != name)
    ensures forall valueType: byte :: Agrees(line, options, name, valueType)
  {
  }

  /** Behind a declaration. */
  lemma DeclareStep(out: Output, next: Output, lines: seq<Line>, n: nat, options: Options, symbol: Symbol)
    requires n < |lines| && Tracks(out, lines, n, options) && UsesDeclared(lines, n, options)
    requires DeclarationOn(lines[n], options) == Some(symbol) && UseOn(lines[n]).None?
    requires EncodedSize(lines[n].tokens) == Some(0) && AddSymbol(out, lines[n].number, symbol) == Ok(next)
    ensures Tracks(next, lines, n + 1, options)
  {
    hide DeclarationOn, UseOn, EncodedSize, DeclaredBefore, TypeOpen, UsesDeclared, IsBlank;
    AddSymbolIndexed(out, lines[n].number, symbol);
    forall name: string
      ensures name in next.index <==> DeclaredBefore(lines, n + 1, options, name)
    {
      DeclaredStep(lines, n, options, name);
    }
    forall name | name in next.index
      ensures TypeOpen(lines, n + 1, options, name, next.symbols[next.index[name]].valueType)
    {
      if name == symbol.name {
        DeclaredType(lines, n, options, symbol);
      } else {
        OtherAgrees(lines[n], options, name);
        TypeOpenStep(lines, n, options, name, next.symbols[next.index[name]].valueType);
      }
    }
  }

  /** Behind a use. */
  lemma UseStep(out: Output, next: Output, lines: seq<Line>, n: nat, options: Options, name: string, symbol: Symbol)
    requires n < |lines| && Tracks(out, lines, n, options) && name in out.index && WellIndexed(next)
    requires DeclarationOn(lines[n], options).None? && UseOn(lines[n]) == Some((name, symbol.valueType))
    requires symbol.valueType != 255 && symbol.name == name
    requires var before := out.symbols[out.index[name]].valueType; before == 255 || before == symbol.valueType
    requires next.index == out.index && next.symbols == out.symbols[out.index[name] := symbol]
    requires |next.code| == |out.code| + EncodedSize(lines[n].tokens).GetOr(0)
    ensures Tracks(next, lines, n + 1, options)
  {
    hide DeclarationOn, UseOn, EncodedSize, WellIndexed, DeclaredBefore;
    assert Indexed(next);
    forall other: string
      ensures other in next.index <==> DeclaredBefore(lines, n + 1, options, other)
    {
      DeclaredStep(lines, n, options, other);
    }
    forall other | other in next.index
      ensures TypeOpen(lines, n + 1, options, other, next.symbols[next.index[other]].valueType)
    {
      if other == name {
        hide AllAgree;
        var behind := n + 1;
        forall valueType: byte | valueType != 255
          ensures OpenTo(lines, behind, options, name, symbol.valueType, valueType)
        {
          assert OpenTo(lines, n, options, name, out.symbols[out.index[name]].valueType, valueType);
          AgreeStep(lines, n, options, name, valueType);
        }
      } else {
        OtherAgrees(lines[n], options, other);
        TypeOpenStep(lines, n, options, other, next.symbols[next.index[other]].valueType);
      }
    }
  }

  // Data and instructions

  lemma {:induction false} DataOk(out: Output, number: nat, words: seq<string>)
    requires WellIndexed(out)
    ensures
      var r := WriteData(out, number, words);
      && (r.Ok? <==> forall k | 0 <= k < |words| :: ByteValue(words[k]).Some?)
      && (r.Ok? ==> r.value == out.(code := r.value.code) && |r.value.code| == |out.code| + |words|)
    decreases words
  {
    hide ByteValue;
    if words != [] {
      match ByteValue(words[0])
      case None =>
      case Some(b) =>
        DataOk(out.(code := out.code + [b]), number, words[1..]);
        assert forall k | 1 <= k < |words| :: words[k] == words[1..][k - 1];
        assert forall k | 0 <= k < |words| - 1 :: words[1..][k] == words[k + 1];
    }
  }

  lemma LabelNear(lines: seq<Line>, token: string, at: nat, labels: Labels)
    requires LabelsOf(lines, |lines|, labels) && Int16Pattern(token).None?
    ensures BranchPattern(token, at, labels).Ok? <==> IsNear(lines, token, at + 2)
  {
    hide Int16Pattern, Position;
  }

  /** The output while an instruction is written. */
  predicate Begun(out: Output, begun: Output) {
    begun == out.(code := begun.code) && WellIndexed(begun)
  }

  lemma SymbolOk(out: Output, begun: Output, lines: seq<Line>, n: nat, operand: Operand, token: string, labels: Labels,
                 options: Options, host: Host)
    requires n < |lines| && Tracks(out, lines, n, options) && Begun(out, begun) && operand.IsSymbol()
    requires operand.valueType != 255
    ensures WriteOperand(begun, lines[n].number, operand, token, labels, host).Ok? <==>
            OperandFits(lines, n, operand, token, options, host)
  {
    hide DeclaredBefore, AllAgree, Int16Pattern, LiteralValue, Position;
    if token in out.index {
      var recorded := out.symbols[out.index[token]].valueType;
      assert TypeOpen(lines, n, options, token, recorded);
      assert OpenTo(lines, n, options, token, recorded, operand.valueType);
    }
  }

  lemma OperandOk(out: Output, begun: Output, lines: seq<Line>, n: nat, operand: Operand, token: string, labels: Labels,
                  options: Options, host: Host)
    requires n < |lines| && Tracks(out, lines, n, options) && Begun(out, begun)
    requires LabelsOf(lines, |lines|, labels) && (operand.IsSymbol() ==> operand.valueType != 255)
    requires operand == BranchTarget ==> |begun.code| == |out.code| + 1
    ensures WriteOperand(begun, lines[n].number, operand, token, labels, host).Ok? <==>
            OperandFits(lines, n, operand, token, options, host)
  {
    if operand.IsSymbol() {
      SymbolOk(out, begun, lines, n, operand, token, labels, options, host);
    } else {
      if operand == BranchTarget && Int16Pattern(token).None? {
        LabelNear(lines, token, |begun.code|, labels);
      }
      hide LabelsOf, IsNear, Int16Pattern, LiteralValue, Indexed, WriteSymbol;
    }
  }

  lemma OperandGrows(begun: Output, number: nat, operand: Operand, token: string, labels: Labels, host: Host)
    requires WellIndexed(begun) && WriteOperand(begun, number, operand, token, labels, host).Ok?
    ensures
      var r := WriteOperand(begun, number, operand, token, labels, host).value;
      && |r.code| == |begun.code| + operand.Width()
      && (!operand.IsSymbol() ==> r == begun.(code := r.code))
  {
    hide LiteralValue, Int16Pattern, BranchPattern, Used;
  }

  lemma OperandShapes(opcode: byte)
    ensures
      var operands := OperandsOf(opcode);
      && (|operands| == 2 ==> operands[0] != BranchTarget && operands[1] != BranchTarget)
      && (forall k | 0 <= k < |operands| && operands[k].IsSymbol() :: operands[k].valueType != 255)
      && SizeOf(opcode) == 1 + (if |operands| == 0 then 0 else if |operands| == 1 then operands[0].Width()
                                else operands[0].Width() + operands[1].Width())
  {
  }

  /** The operands of an instruction on line `n`. */
  predicate OperandsFit(lines: seq<Line>, n: nat, operands: seq<Operand>, tokens: seq<string>, options: Options, host: Host)
    requires n < |lines| && |operands| == |tokens|
  {
    forall k | 0 <= k < |operands| :: OperandFits(lines, n, operands[k], tokens[k], options, host)
  }

  lemma OneOperand(out: Output, begun: Output, lines: seq<Line>, n: nat, operand: Operand, token: string, labels: Labels,
                   options: Options, host: Host)
    requires n < |lines| && Tracks(out, lines, n, options) && Begun(out, begun) && |begun.code| == |out.code| + 1
    requires LabelsOf(lines, |lines|, labels) && (operand.IsSymbol() ==> operand.valueType != 255)
    ensures
      var r := WriteOperands(begun, lines[n].number, [operand], [token], labels, host);
      && r == WriteOperand(begun, lines[n].number, operand, token, labels, host)
      && (r.Ok? <==> OperandsFit(lines, n, [operand], [token], options, host))
      && (r.Ok? ==> |r.value.code| == |begun.code| + operand.Width() &&
                    (!operand.IsSymbol() ==> r.value == begun.(code := r.value.code)))
  {
    hide Tracks, LabelsOf, OperandFits, WriteOperand, WellIndexed;
    OperandOk(out, begun, lines, n, operand, token, labels, options, host);
    var r := WriteOperand(begun, lines[n].number, operand, token, labels, host);
    if r.Ok? {
      OperandGrows(begun, lines[n].number, operand, token, labels, host);
      assert WriteOperands(r.value, lines[n].number, [operand][1..], [token][1..], labels, host) == r;
    }
  }

  lemma TwoOperands(out: Output, begun: Output, lines: seq<Line>, n: nat, operands: seq<Operand>, tokens: seq<string>,
                    labels: Labels, options: Options, host: Host)
    requires n < |lines| && Tracks(out, lines, n, options) && Begun(out, begun) && |begun.code| == |out.code| + 1
    requires LabelsOf(lines, |lines|, labels) && |operands| == |tokens| == 2
    requires forall k | 0 <= k < 2 :: !operands[k].IsSymbol() && operands[k] != BranchTarget
    ensures
      var r := WriteOperands(begun, lines[n].number, operands, tokens, labels, host);
      && (r.Ok? <==> OperandsFit(lines, n, operands, tokens, options, host))
      && (r.Ok? ==> |r.value.code| == |begun.code| + operands[0].Width() + operands[1].Width() &&
                    r.value == begun.(code := r.value.code))
  {
    hide Tracks, LabelsOf, OperandFits, WriteOperand, WellIndexed;
    var number := lines[n].number;
    OperandOk(out, begun, lines, n, operands[0], tokens[0], labels, options, host);
    var mid := WriteOperand(begun, number, operands[0], tokens[0], labels, host);
    if mid.Ok? {
      OperandGrows(begun, number, operands[0], tokens[0], labels, host);
      OperandOk(out, mid.value, lines, n, operands[1], tokens[1], labels, options, host);
      var last := WriteOperand(mid.value, number, operands[1], tokens[1], labels, host);
      if last.Ok? {
        OperandGrows(mid.value, number, operands[1], tokens[1], labels, host);
        assert WriteOperands(last.value, number, operands[1..][1..], tokens[1..][1..], labels, host) == last;
      }
      assert operands[1..][0] == operands[1] && tokens[1..][0] == tokens[1];
    }
  }

  lemma InstructionOk(out: Output, lines: seq<Line>, n: nat, opcode: byte, tokens: seq<string>, labels: Labels,
                      options: Options, host: Host)
    requires n < |lines| && Tracks(out, lines, n, options) && WellIndexed(out)
    requires LabelsOf(lines, |lines|, labels) && |tokens| == |OperandsOf(opcode)|
    ensures
      var r := WriteInstruction(out, lines[n].number, opcode, tokens, labels, host);
      var operands := OperandsOf(opcode);
      && (r.Ok? <==> OperandsFit(lines, n, operands, tokens, options, host))
      && (r.Ok? ==> |r.value.code| == |out.code| + SizeOf(opcode) &&
                    ((|operands| == 1 && operands[0].IsSymbol()) || r.value == out.(code := r.value.code)))
  {
    hide Tracks, LabelsOf, OperandFits, WriteOperand, OperandsOf, SizeOf;
    OperandShapes(opcode);
    var operands := OperandsOf(opcode);
    var begun := out.(code := out.code + [opcode]);
    assert Begun(out, begun);
    if |operands| == 0 {
      assert OperandsFit(lines, n, operands, tokens, options, host);
      assert WriteOperands(begun, lines[n].number, operands, tokens, labels, host) == Ok(begun);
    } else if |operands| == 1 {
      assert operands == [operands[0]] && tokens == [tokens[0]];
      OneOperand(out, begun, lines, n, operands[0], tokens[0], labels, options, host);
    } else {
      TwoOperands(out, begun, lines, n, operands, tokens, labels, options, host);
    }
  }

  lemma SymbolUsed(begun: Output, number: nat, operand: Operand, token: string, labels: Labels, host: Host)
    requires WellIndexed(begun) && operand.IsSymbol()
    requires WriteOperand(begun, number, operand, token, labels, host).Ok?
    ensures token in begun.index
    ensures
      var r := WriteOperand(begun, number, operand, token, labels, host).value;
      var i := begun.index[token];
      && r.index == begun.index && |r.symbols| == |begun.symbols| && r.symbols == begun.symbols[i := r.symbols[i]]
      && r.symbols[i].name == begun.symbols[i].name && r.symbols[i].valueType == operand.valueType
      && (begun.symbols[i].valueType == 255 || begun.symbols[i].valueType == operand.valueType)
  {
  }

  lemma InstructionSized(line: Line, opcode: byte, options: Options)
    requires line.tokens != [] && KeywordOf(line.tokens[0]) == Some(Instruction(opcode))
    requires |line.tokens| == 1 + |OperandsOf(opcode)|
    ensures EncodedSize(line.tokens) == Some(SizeOf(opcode)) && DeclarationOn(line, options).None?
    ensures
      UseOn(line) ==
      var operands := OperandsOf(opcode);
      if |operands| == 1 && operands[0].IsSymbol() then Some((line.tokens[1], operands[0].valueType)) else None
  {
    FormSize(opcode);
    hide KeywordOf, OperandFormSize, OperandsOf, SizeOf;
  }

  lemma TrackedSymbol(out: Output, lines: seq<Line>, n: nat, options: Options, name: string)
    requires n <= |lines| && Tracks(out, lines, n, options)
    ensures WellIndexed(out) && (name in out.index <==> DeclaredBefore(lines, n, options, name))
    ensures name in out.index ==> out.index[name] < |out.symbols| && out.symbols[out.index[name]].name == name
  {
    hide DeclaredBefore, TypeOpen;
  }

  /** Behind an instruction. */
  lemma InstructionStep(out: Output, lines: seq<Line>, n: nat, opcode: byte, labels: Labels, options: Options, host: Host)
    requires n < |lines| && Tracks(out, lines, n, options) && WellIndexed(out) && LabelsOf(lines, |lines|, labels)
    requires var words := lines[n].tokens;
             words != [] && KeywordOf(words[0]) == Some(Instruction(opcode)) && |words| == 1 + |OperandsOf(opcode)|
    requires WriteInstruction(out, lines[n].number, opcode, lines[n].tokens[1..], labels, host).Ok?
    ensures
      var next := WriteInstruction(out, lines[n].number, opcode, lines[n].tokens[1..], labels, host).value;
      Tracks(next, lines, n + 1, options)
    ensures UseOn(lines[n]).Some? ==> DeclaredBefore(lines, n, options, UseOn(lines[n]).value.0)
  {
    hide Tracks, LabelsOf, OperandFits, OperandsFit, WriteOperand, KeywordOf, OperandsOf, SizeOf, UseOn, DeclarationOn,
         EncodedSize, DeclaredBefore;
    var words, operands := lines[n].tokens, OperandsOf(opcode);
    var next := WriteInstruction(out, lines[n].number, opcode, words[1..], labels, host).value;
    InstructionSized(lines[n], opcode, options);
    InstructionOk(out, lines, n, opcode, words[1..], labels, options, host);
    OperandShapes(opcode);
    if |operands| == 1 && operands[0].IsSymbol() {
      var begun := out.(code := out.code + [opcode]);
      assert operands == [operands[0]] && words[1..] == [words[1]];
      OneOperand(out, begun, lines, n, operands[0], words[1], labels, options, host);
      SymbolUsed(begun, lines[n].number, operands[0], words[1], labels, host);
      TrackedSymbol(out, lines, n, options, words[1]);
      UseStep(out, next, lines, n, options, words[1], next.symbols[out.index[words[1]]]);
    } else {
      PlainStep(out, next, lines, n, options);
    }
  }

  lemma DataSized(line: Line, options: Options)
    requires line.tokens != [] && KeywordOf(line.tokens[0]) == Some(DB)
    ensures EncodedSize(line.tokens) == Some(|line.tokens| - 1) && DeclarationOn(line, options).None? && UseOn(line).None?
  {
    hide KeywordOf;
  }

  lemma EmptySized(line: Line, options: Options)
    requires line.tokens == []
    ensures EncodedSize(line.tokens) == Some(0) && DeclarationOn(line, options).None? && UseOn(line).None?
  {
  }

  lemma WrongCount(out: Output, number: nat, opcode: byte, tokens: seq<string>, labels: Labels, host: Host)
    requires WellIndexed(out) && |tokens| != |OperandsOf(opcode)|
    ensures WriteInstruction(out, number, opcode, tokens, labels, host).Err?
  {
    hide OperandsOf;
  }

  lemma OperandsOfLine(lines: seq<Line>, n: nat, opcode: byte, options: Options, host: Host)
    requires n < |lines| && lines[n].tokens != [] && KeywordOf(lines[n].tokens[0]) == Some(Instruction(opcode))
    requires |lines[n].tokens| == 1 + |OperandsOf(opcode)|
    ensures LineFits(lines, n, options, host) <==>
            OperandsFit(lines, n, OperandsOf(opcode), lines[n].tokens[1..], options, host)
  {
    hide OperandFits, KeywordOf, OperandsOf;
    var words := lines[n].tokens;
    assert forall k | 0 <= k < |OperandsOf(opcode)| :: words[1..][k] == words[1 + k];
  }

  lemma BytesOfLine(words: seq<string>)
    requires words != []
    ensures (forall k | 0 <= k < |words[1..]| :: ByteValue(words[1..][k]).Some?) <==>
            (forall k | 1 <= k < |words| :: ByteValue(words[k]).Some?)
  {
    hide ByteValue;
    assert forall k | 1 <= k < |words| :: words[k] == words[1..][k - 1];
  }

  /** Behind a declaration. */
  lemma DeclarationFits(out: Output, lines: seq<Line>, n: nat, labels: Labels, options: Options, host: Host)
    requires n < |lines| && Tracks(out, lines, n, options) && WellIndexed(out) && UsesDeclared(lines, n, options)
    requires DeclarationOn(lines[n], options).Some? && UseOn(lines[n]).None? && EncodedSize(lines[n].tokens) == Some(0)
    ensures
      var symbol := DeclarationOn(lines[n], options).value;
      var r := AddSymbol(out, lines[n].number, symbol);
      && (r.Ok? <==> !IsBlank(symbol.name) && !DeclaredBefore(lines, n, options, symbol.name) &&
                     Declarations(lines, n, options) < 65535)
      && (r.Ok? ==> Tracks(r.value, lines, n + 1, options))
  {
    var symbol := DeclarationOn(lines[n], options).value;
    hide UseOn, DeclarationOn, EncodedSize, DeclaredBefore, AddSymbol, IsBlank, Declarations, TypeOpen, UsesDeclared,
         Position;
    AddSymbolOk(out, lines[n].number, symbol);
    var r := AddSymbol(out, lines[n].number, symbol);
    if r.Ok? {
      DeclareStep(out, r.value, lines, n, options, symbol);
    }
  }

  /** One line, behind the lines before it. */
  lemma LineStep(out: Output, lines: seq<Line>, n: nat, labels: Labels, options: Options, host: Host)
    requires n < |lines| && Tracks(out, lines, n, options) && WellIndexed(out) && UsesDeclared(lines, n, options)
    requires LabelsOf(lines, |lines|, labels)
    ensures
      var r := WriteLine(out, lines[n], labels, options, host);
      && (r.Ok? <==> LineFits(lines, n, options, host))
      && (r.Ok? ==> Tracks(r.value, lines, n + 1, options) && UsesDeclared(lines, n + 1, options))
  {
    hide Tracks, LabelsOf, KeywordOf, OperandFits, OperandsOf, UseOn, DeclarationOn, EncodedSize, DeclaredBefore,
         WriteInstruction, WriteData, DeclaredSymbol, AddSymbol, ByteValue, IsBlank, Declarations, SizeOf;
    var line, words := lines[n], lines[n].tokens;
    if words == [] {
      EmptySized(line, options);
      PlainStep(out, out, lines, n, options);
    } else {
      match KeywordOf(words[0])
      case None =>
      case Some(Instruction(opcode)) =>
        if |words| == 1 + |OperandsOf(opcode)| {
          InstructionSized(line, opcode, options);
          InstructionOk(out, lines, n, opcode, words[1..], labels, options, host);
          OperandsOfLine(lines, n, opcode, options, host);
          if WriteInstruction(out, line.number, opcode, words[1..], labels, host).Ok? {
            InstructionStep(out, lines, n, opcode, labels, options, host);
          }
        } else {
          WrongCount(out, line.number, opcode, words[1..], labels, host);
        }
      case Some(DB) =>
        DataSized(line, options);
        DataOk(out, line.number, words[1..]);
        BytesOfLine(words);
        var r := WriteData(out, line.number, words[1..]);
        if |words| >= 2 && r.Ok? {
          PlainStep(out, r.value, lines, n, options);
        }
      case Some(_) =>
        DeclarationLine(out, line, labels, options, host);
        if DeclarationOn(line, options).Some? {
          DeclarationFits(out, lines, n, labels, options, host);
        }
    }
  }

  lemma {:induction false} LinesExactly(out: Output, lines: seq<Line>, n: nat, labels: Labels, options: Options, host: Host)
    requires n <= |lines| && Tracks(out, lines, n, options) && WellIndexed(out) && UsesDeclared(lines, n, options)
    requires LabelsOf(lines, |lines|, labels)
    ensures WriteLines(out, lines[n..], labels, options, host).Ok? <==>
            forall i | n <= i < |lines| :: LineFits(lines, i, options, host)
    decreases |lines| - n
  {
    hide Tracks, LabelsOf, LineFits, UsesDeclared, WriteLine;
    if n < |lines| {
      assert lines[n..][1..] == lines[n + 1..];
      LineStep(out, lines, n, labels, options, host);
      var r := WriteLine(out, lines[n], labels, options, host);
      if r.Ok? {
        LinesExactly(r.value, lines, n + 1, labels, options, host);
      }
    }
  }

  lemma NothingWritten(lines: seq<Line>, options: Options)
    ensures Tracks(EMPTY, lines, 0, options) && WellIndexed(EMPTY) && UsesDeclared(lines, 0, options)
    ensures LabelsOf(lines, 0, map[]) && lines[0..] == lines
  {
  }

  lemma FittingIsSized(lines: seq<Line>, i: nat, options: Options, host: Host)
    requires i < |lines| && LineFits(lines, i, options, host)
    ensures IsSized(lines[i])
  {
    var words := lines[i].tokens;
    hide KeywordOf, OperandFits, OperandsOf, DeclarationOn, UseOn, DeclaredBefore, Declarations, ByteValue, IsBlank, SizeOf;
    if words == [] {
      EmptySized(lines[i], options);
    } else if KeywordOf(words[0]).value.Instruction? {
      InstructionSized(lines[i], KeywordOf(words[0]).value.opcode, options);
    } else if KeywordOf(words[0]) == Some(DB) {
      DataSized(lines[i], options);
    }
  }

  /** The assembler accepts exactly the sources whose lines fit, each with those before it and the labels of all. */
  lemma AssemblesExactly(lines: seq<Line>, options: Options, host: Host)
    ensures AssembleLines(lines, options, host).Ok? <==>
            forall i | 0 <= i < |lines| :: LabelFits(lines, i) && LineFits(lines, i, options, host)
  {
    hide Tracks, LabelsOf, LineFits, LabelFits, UsesDeclared, WriteLines, LabelLines, IsSized;
    NothingWritten(lines, options);
    LabelsExactly(lines, 0, map[]);
    var labels := LabelLines(lines, 0, map[]);
    if labels.Ok? {
      LinesExactly(EMPTY, lines, 0, labels.value, options, host);
    } else if forall i | 0 <= i < |lines| :: LineFits(lines, i, options, host) {
      forall i | 0 <= i < |lines|
        ensures IsSized(lines[i])
      {
        FittingIsSized(lines, i, options, host);
      }
    }
  }
}
