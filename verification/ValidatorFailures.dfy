/** An input that assembles and that the loader's validator rejects: a label at the end of the code. */
module ValidatorFailures {
  import opened Bytes
  import opened Isa
  import opened IsaWords
  import opened Literals
  import opened Lexer
  import opened Assembler
  import opened Placement
  import opened Validator

  // A label at the end

  function EndLines(): seq<Line> {
    [Line(1, "", ["JMP", "e"]), Line(2, "e", [])]
  }

  lemma Jump()
    ensures KeywordOf("JMP") == Some(Instruction(0x2C)) && OperandsOf(0x2C) == [BranchTarget]
    ensures OperandFormSize(0x2C) == Some(3)
  {
    FlowSet();
    hide KeywordOf;
  }

  lemma NotANumber()
    ensures Int16Pattern("e") == None
  {
  }

  lemma EndLabels()
    ensures LabelLines(EndLines(), 0, map[]) == Ok(map["e" := 3])
  {
    Jump();
    hide KeywordOf, OperandFormSize;
    var last := [Line(2, "e", [])];
    assert EndLines()[1..] == last && last[1..] == [];
    assert EncodedSize(["JMP", "e"]) == Some(3);
    assert LabelLines([], 3, map["e" := 3]) == Ok(map["e" := 3]);
    assert LabelLines(last, 3, map[]) == Ok(map["e" := 3]);
  }

  lemma EndCode(options: Options, host: Host)
    ensures AssembleLines(EndLines(), options, host) == Ok(Assembly([0x2C, 0, 0], [], [])) && AllNoData(EndLines())
  {
    Jump();
    NotANumber();
    EndLabels();
    hide KeywordOf, OperandsOf, Int16Pattern, LabelLines;
    var labels: Labels := map["e" := 3];
    var last := [Line(2, "e", [])];
    assert EndLines()[1..] == last && last[1..] == [];
    var out := EMPTY.(code := [0x2C, 0, 0]);
    assert BranchPattern("e", 1, labels) == Ok(0);
    var begun := EMPTY.(code := [0x2C]);
    assert EMPTY.code + [0x2C] == [0x2C] && [0x2C] + Le16(0) == [0x2C, 0, 0];
    assert WriteOperand(begun, 1, BranchTarget, "e", labels, host) == Ok(out);
    assert ["e"][1..] == [] && [BranchTarget][1..] == [];
    assert WriteOperands(out, 1, [], [], labels, host) == Ok(out);
    assert WriteOperands(begun, 1, [BranchTarget], ["e"], labels, host) == Ok(out);
    assert ["JMP", "e"][1..] == ["e"];
    assert WriteLine(EMPTY, EndLines()[0], labels, options, host) == Ok(out);
    assert WriteLines(out, [], labels, options, host) == Ok(out);
    assert WriteLines(out, last, labels, options, host) == Ok(out);
  }

  /** The lines `JMP e` and `e:` assemble, and the validator rejects the code: the branch goes to its end. */
  lemma EndLabelRejected(options: Options, host: Host)
    ensures AssembleLines(EndLines(), options, host).Ok? && AllNoData(EndLines())
    ensures !Accepts(AssembleLines(EndLines(), options, host).value.code)
  {
    EndCode(options, host);
    var code: seq<byte> := [0x2C, 0, 0];
    AcceptsExactly(code);
    hide AssembleLines, Accepts;
    assert IsStart(code, 0, 0) && BranchTargetAt(code, 0) == 3;
    assert !IsStart(code, 0, 3);
  }
}
