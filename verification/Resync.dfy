/** The validator on assembled code: although it sizes point loads and stores at 3 bytes instead of 5,
    it falls back into step, because an unlinked operand is zero and 0x00 is a one-byte instruction. */
module Resync {
  import opened Bytes
  import opened Isa
  import opened Lexer
  import opened Code
  import opened Assembler
  import opened Meaning
  import opened Placement
  import opened Validator

  predicate LoadsOffset(opcode: byte) {
    OperandsOf(opcode) != [] && OperandsOf(opcode)[0].PointOffset?
  }

  /** Instructions as the assembler leaves them for the linker. */
  predicate Unlinked(instr: Instr) {
    Legal(instr) && (LoadsOffset(instr.opcode) ==> instr.args[0] == 0)
  }

  predicate AllUnlinked(program: seq<Instr>) {
    forall k | 0 <= k < |program| :: Unlinked(program[k])
  }

  /** Where the validator finds instructions in code with these opcodes, written from `at` on: at the
      instructions, and at the last two bytes of each point offset. */
  predicate StartsIn(opcodes: seq<byte>, at: nat, target: int) {
    opcodes != [] && (
      || target == at
      || (LoadsOffset(opcodes[0]) && (target == at + 3 || target == at + 4))
      || StartsIn(opcodes[1..], at + SizeOf(opcodes[0]), target)
    )
  }

  lemma TablesAgree(opcode: byte)
    ensures Supported(opcode) <==> IsInstruction(opcode)
    ensures IsInstruction(opcode) ==> InstructionSize(opcode) == if LoadsOffset(opcode) then 3 else SizeOf(opcode)
    ensures LoadsOffset(opcode) ==> SizeOf(opcode) == 5 && !IsBranch(opcode)
    ensures IsBranch(opcode) <==> OperandsOf(opcode) == [BranchTarget]
    ensures IsBranch(opcode) ==> SizeOf(opcode) == 3
  {
  }

  lemma HaltIsOneByte()
    ensures Supported(0) && InstructionSize(0) == 1 && !IsBranch(0)
  {
  }

  lemma OffsetBytes(instr: Instr)
    requires Unlinked(instr) && LoadsOffset(instr.opcode)
    ensures Encode(instr) == [instr.opcode, 0, 0, 0, 0]
  {
    var operands := OperandsOf(instr.opcode);
    assert |operands| == 1;
    hide OperandsOf, SizeOf, IsInstruction;
    assert operands[1..] == [] && instr.args[1..] == [];
    assert EncodeArgs(operands[1..], instr.args[1..]) == [];
    assert Le32(0) == [0, 0, 0, 0];
  }

  lemma BranchArg(instr: Instr, code: seq<byte>, pc: nat)
    requires Legal(instr) && IsBranch(instr.opcode)
    requires pc + SizeOf(instr.opcode) <= |code| && code[pc..pc + SizeOf(instr.opcode)] == Encode(instr)
    ensures SizeOf(instr.opcode) == 3 && |instr.args| == 1 && instr.args[0] < 0x1_0000
    ensures Fetch16(code, pc + 1) == instr.args[0]
  {
    TablesAgree(instr.opcode);
    hide OperandsOf, SizeOf, IsInstruction;
    var bytes := Encode(instr);
    assert [BranchTarget][1..] == [] && instr.args[1..] == [];
    assert EncodeArgs([BranchTarget][1..], instr.args[1..]) == [];
    assert bytes == [instr.opcode] + Le16(instr.args[0]);
    assert code[pc + 1..pc + 3] == bytes[1..];
    FetchLe16(instr.args[0], code, pc + 1);
  }

  /** Across one assembled instruction the sweep ends in step with the assembler. */
  lemma SweepInstr(code: seq<byte>, pc: nat, instr: Instr)
    requires Unlinked(instr) && pc + SizeOf(instr.opcode) <= |code|
    requires code[pc..pc + SizeOf(instr.opcode)] == Encode(instr)
    ensures
      var next := pc + SizeOf(instr.opcode);
      && Sweeps(code, pc) == Sweeps(code, next)
      && forall target: int ::
           IsStart(code, pc, target) <==>
           target == pc || (LoadsOffset(instr.opcode) && (target == pc + 3 || target == pc + 4)) ||
           IsStart(code, next, target)
  {
    TablesAgree(instr.opcode);
    HaltIsOneByte();
    hide OperandsOf, SizeOf, IsInstruction, Supported, InstructionSize, LoadsOffset;
    var bytes := Encode(instr);
    assert code[pc] == bytes[0];
    if LoadsOffset(instr.opcode) {
      OffsetBytes(instr);
      assert code[pc + 3] == bytes[3] && code[pc + 4] == bytes[4];
      assert Sweeps(code, pc + 3) == Sweeps(code, pc + 4);
      assert Sweeps(code, pc + 4) == Sweeps(code, pc + 5);
    }
    forall target: int
      ensures IsStart(code, pc, target) <==>
              target == pc || (LoadsOffset(instr.opcode) && (target == pc + 3 || target == pc + 4)) ||
              IsStart(code, pc + SizeOf(instr.opcode), target)
    {
      StartUnfold(code, pc, target);
      if LoadsOffset(instr.opcode) {
        StartUnfold(code, pc + 3, target);
        StartUnfold(code, pc + 4, target);
      }
    }
  }

  lemma StartUnfold(code: seq<byte>, pc: nat, target: int)
    requires pc < |code|
    ensures IsStart(code, pc, target) <==> pc == target || IsStart(code, pc + InstructionSize(code[pc]), target)
  {
  }

  /** The sweep of `code` from `pc` on covers `program` and finds exactly its starts. */
  ghost predicate InStep(code: seq<byte>, pc: nat, program: seq<Instr>) {
    && Sweeps(code, pc)
    && forall target: int :: IsStart(code, pc, target) <==> StartsIn(Opcodes(program), pc, target)
  }

  lemma InStepCons(code: seq<byte>, pc: nat, program: seq<Instr>)
    requires program != [] && Unlinked(program[0]) && pc + SizeOf(program[0].opcode) <= |code|
    requires code[pc..pc + SizeOf(program[0].opcode)] == Encode(program[0])
    requires InStep(code, pc + SizeOf(program[0].opcode), program[1..])
    ensures InStep(code, pc, program)
  {
    hide Unlinked, LoadsOffset, SizeOf, Supported, InstructionSize, Encode, Sweeps, IsStart;
    SweepInstr(code, pc, program[0]);
    assert Opcodes(program)[1..] == Opcodes(program[1..]);
  }

  lemma {:induction false} SweepProgram(pre: seq<byte>, program: seq<Instr>)
    requires AllLegal(program) && AllUnlinked(program)
    ensures InStep(pre + EncodeAll(program), |pre|, program)
    decreases program
  {
    hide Unlinked, SizeOf, Encode, Legal;
    if program != [] {
      hide EncodeAll, InStep;
      assert Unlinked(program[0]) && Legal(program[0]);
      CodeSplit(pre, program);
      SweepProgram(pre + Encode(program[0]), program[1..]);
      InStepCons(pre + EncodeAll(program), |pre|, program);
    }
  }

  // Branches

  /** The branch, if `instr` is one, targets a start of the sweep of `code`. */
  predicate Lands(code: seq<byte>, instr: Instr, next: nat) {
    IsBranch(instr.opcode) && |instr.args| == 1 && instr.args[0] < 0x1_0000 ==>
      IsStart(code, 0, next + Signed16(instr.args[0]))
  }

  predicate AllLand(code: seq<byte>, program: seq<Instr>, at: nat) {
    program == [] || (Lands(code, program[0], at + SizeOf(program[0].opcode)) &&
                      AllLand(code, program[1..], at + SizeOf(program[0].opcode)))
  }

  /** The branch check across one assembled instruction: the bytes of a point offset add none. */
  lemma LandsInstr(code: seq<byte>, pc: nat, instr: Instr)
    requires Unlinked(instr) && pc + SizeOf(instr.opcode) <= |code|
    requires code[pc..pc + SizeOf(instr.opcode)] == Encode(instr)
    requires Sweeps(code, pc + SizeOf(instr.opcode))
    ensures Sweeps(code, pc)
    ensures
      var next := pc + SizeOf(instr.opcode);
      BranchesLand(code, pc) <==> Lands(code, instr, next) && BranchesLand(code, next)
  {
    SweepInstr(code, pc, instr);
    TablesAgree(instr.opcode);
    HaltIsOneByte();
    hide OperandsOf, SizeOf, IsInstruction, Supported, InstructionSize, LoadsOffset, IsBranch, IsStart;
    var bytes := Encode(instr);
    assert code[pc] == bytes[0];
    if LoadsOffset(instr.opcode) {
      OffsetBytes(instr);
      assert code[pc + 3] == bytes[3] && code[pc + 4] == bytes[4];
      assert Sweeps(code, pc + 3) && Sweeps(code, pc + 4);
      assert BranchesLand(code, pc + 3) == BranchesLand(code, pc + 4);
      assert BranchesLand(code, pc + 4) == BranchesLand(code, pc + 5);
    } else if IsBranch(instr.opcode) {
      BranchArg(instr, code, pc);
    }
  }

  lemma {:induction false} LandsProgram(pre: seq<byte>, program: seq<Instr>)
    requires AllLegal(program) && AllUnlinked(program)
    ensures Sweeps(pre + EncodeAll(program), |pre|)
    ensures
      var code := pre + EncodeAll(program);
      BranchesLand(code, |pre|) <==> AllLand(code, program, |pre|)
    decreases program
  {
    hide Unlinked, SizeOf, Encode, Legal, Lands;
    if program != [] {
      hide EncodeAll;
      assert Unlinked(program[0]) && Legal(program[0]);
      CodeSplit(pre, program);
      LandsProgram(pre + Encode(program[0]), program[1..]);
      LandsInstr(pre + EncodeAll(program), |pre|, program[0]);
    }
  }

  /** The branches of instructions `k` and on land. */
  predicate LandFrom(code: seq<byte>, program: seq<Instr>, at: nat, k: nat) {
    forall i | k <= i < |program| :: Lands(code, program[i], at + Offset(Opcodes(program), i + 1))
  }

  lemma LandTail(code: seq<byte>, program: seq<Instr>, at: nat)
    requires program != []
    ensures Offset(Opcodes(program), 1) == SizeOf(program[0].opcode)
    ensures LandFrom(code, program, at, 1) == LandFrom(code, program[1..], at + SizeOf(program[0].opcode), 0)
  {
    hide SizeOf, Lands;
    var rest, next := program[1..], at + SizeOf(program[0].opcode);
    assert Opcodes(program)[1..] == Opcodes(rest);
    if LandFrom(code, program, at, 1) {
      forall i | 0 <= i < |rest|
        ensures Lands(code, rest[i], next + Offset(Opcodes(rest), i + 1))
      {
        assert Lands(code, program[i + 1], at + Offset(Opcodes(program), i + 1 + 1));
      }
    }
    if LandFrom(code, rest, next, 0) {
      forall i | 1 <= i < |program|
        ensures Lands(code, program[i], at + Offset(Opcodes(program), i + 1))
      {
        assert Lands(code, rest[i - 1], next + Offset(Opcodes(rest), i - 1 + 1));
      }
    }
  }

  lemma LandHead(code: seq<byte>, program: seq<Instr>, at: nat)
    requires program != []
    ensures LandFrom(code, program, at, 0) <==>
            Lands(code, program[0], at + Offset(Opcodes(program), 1)) && LandFrom(code, program, at, 1)
  {
    hide Lands, Offset;
    if Lands(code, program[0], at + Offset(Opcodes(program), 1)) && LandFrom(code, program, at, 1) {
      forall i | 0 <= i < |program|
        ensures Lands(code, program[i], at + Offset(Opcodes(program), i + 1))
      {
        assert i == 0 || 1 <= i;
      }
    }
  }

  lemma {:induction false} AllLandAt(code: seq<byte>, program: seq<Instr>, at: nat)
    ensures AllLand(code, program, at) <==> LandFrom(code, program, at, 0)
    decreases program
  {
    if program != [] {
      hide SizeOf, Lands, LandFrom, Offset;
      AllLandAt(code, program[1..], at + SizeOf(program[0].opcode));
      LandTail(code, program, at);
      LandHead(code, program, at);
    }
  }

  // Starts, by instruction

  lemma {:induction false} InstructionsStart(opcodes: seq<byte>, at: nat, k: nat)
    requires k < |opcodes|
    ensures StartsIn(opcodes, at, at + Offset(opcodes, k))
    decreases k
  {
    hide SizeOf, LoadsOffset;
    if k > 0 {
      InstructionsStart(opcodes[1..], at + SizeOf(opcodes[0]), k - 1);
    }
  }

  lemma {:induction false} StartsBeforeEnd(opcodes: seq<byte>, at: nat, target: int)
    requires StartsIn(opcodes, at, target)
    ensures at <= target < at + Offset(opcodes, |opcodes|)
    decreases opcodes
  {
    OffsetSize(opcodes[0]);
    hide SizeOf, LoadsOffset;
    if StartsIn(opcodes[1..], at + SizeOf(opcodes[0]), target) {
      StartsBeforeEnd(opcodes[1..], at + SizeOf(opcodes[0]), target);
    }
  }

  lemma OffsetSize(opcode: byte)
    ensures LoadsOffset(opcode) ==> SizeOf(opcode) == 5
  {
  }

  // Assembled programs

  lemma LoweredIsUnlinked(instr: SourceInstr, at: nat, labels: Labels)
    requires Shaped(instr) && Sound(instr, at, labels)
    ensures Unlinked(Lower(instr, at, labels, Zero))
  {
    var operands := OperandsOf(instr.opcode);
    hide OperandsOf, SizeOf, IsInstruction;
    if LoadsOffset(instr.opcode) {
      assert ArgSound(operands[0], instr.args[0], at + SizeOf(instr.opcode), labels);
    }
  }

  lemma {:induction false} LoweredAreUnlinked(program: seq<SourceInstr>, at: nat, labels: Labels)
    requires (forall k | 0 <= k < |program| :: Shaped(program[k])) && AllSound(program, at, labels)
    ensures AllUnlinked(LowerAll(program, at, labels, Zero))
    decreases program
  {
    hide Unlinked, Sound, Lower, SizeOf, Shaped, Legal;
    if program != [] {
      LoweredIsUnlinked(program[0], at, labels);
      LoweredAreUnlinked(program[1..], at + SizeOf(program[0].opcode), labels);
    }
  }

  /** The branch an instruction of the source makes, if any, goes to a label before the end of the
      code or to a number that happens to hit a start. `next` is the offset after the instruction. */
  predicate BranchInside(instr: SourceInstr, next: nat, lines: seq<Line>, host: Host) {
    var program := Program(lines, host);
    IsBranch(instr.opcode) && |instr.args| == 1 ==>
      match instr.args[0]
      case Value(v) => v < 0x1_0000 && StartsIn(SourceOpcodes(program), 0, next + Signed16(v))
      case Target(tag) => LabelIndex(lines, tag, host) < |program|
      case Point(_) => true
  }

  lemma LowerBranch(instr: SourceInstr, at: nat, labels: Labels)
    requires Shaped(instr) && Sound(instr, at, labels) && IsBranch(instr.opcode)
    ensures |instr.args| == 1 && ArgSound(BranchTarget, instr.args[0], at + SizeOf(instr.opcode), labels)
    ensures Lower(instr, at, labels, Zero).args ==
            [LowerArg(BranchTarget, instr.args[0], at + SizeOf(instr.opcode), labels, Zero)]
  {
    TablesAgree(instr.opcode);
    hide OperandsOf, SizeOf, IsInstruction;
    assert ArgSound(OperandsOf(instr.opcode)[0], instr.args[0], at + SizeOf(instr.opcode), labels);
  }

  lemma LandsMeaning(code: seq<byte>, instr: SourceInstr, at: nat, lines: seq<Line>, labels: Labels, host: Host)
    requires Shaped(instr) && Sound(instr, at, labels) && Placed(lines, 0, map[], labels, host)
    requires forall target: int :: IsStart(code, 0, target) <==> StartsIn(SourceOpcodes(Program(lines, host)), 0, target)
    ensures Lands(code, Lower(instr, at, labels, Zero), at + SizeOf(instr.opcode)) <==>
            BranchInside(instr, at + SizeOf(instr.opcode), lines, host)
  {
    hide Shaped, Sound, SizeOf, Lower, IsBranch, StartsIn, IsStart, Program, LabelIndex, SourceOpcodes;
    if IsBranch(instr.opcode) {
      var next := at + SizeOf(instr.opcode);
      LowerBranch(instr, at, labels);
      match instr.args[0]
      case Point(_) =>
      case Value(_) =>
      case Target(tag) =>
        var opcodes := SourceOpcodes(Program(lines, host));
        assert Declares(lines, tag);
        assert next + Signed16((labels[tag] - next) % 0x1_0000) == labels[tag];
        if LabelIndex(lines, tag, host) < |opcodes| {
          InstructionsStart(opcodes, 0, LabelIndex(lines, tag, host));
        } else if StartsIn(opcodes, 0, labels[tag]) {
          StartsBeforeEnd(opcodes, 0, labels[tag]);
        }
    }
  }

  /** The validator resynchronises. On the unlinked code of every source without `DB` that assembles,
      the loader's sweep finds every instruction the assembler wrote, and the validator accepts the
      code exactly if every branch to a label stays before the end and every numeric branch hits a
      start. */
  lemma ValidatorResynchronises(lines: seq<Line>, options: Options, host: Host)
    requires AllNoData(lines) && AssembleLines(lines, options, host).Ok?
    ensures
      var code := AssembleLines(lines, options, host).value.code;
      var program := Program(lines, host);
      var opcodes := SourceOpcodes(program);
      && Sweeps(code, 0)
      && (forall target: int :: IsStart(code, 0, target) <==> StartsIn(opcodes, 0, target))
      && (forall k | 0 <= k < |program| :: IsStart(code, 0, Offset(opcodes, k)))
      && (Accepts(code) <==>
          forall k | 0 <= k < |program| :: BranchInside(program[k], Offset(opcodes, k + 1), lines, host))
  {
    hide WriteLines, LabelLines, Placed, NoData, LowerAll, EncodeAll, Shaped, AllSound, AllUnlinked, StartsIn, IsStart,
         Sweeps, BranchesLand, RelocationsOf, AllKnown, Program, SourceOpcodes, AllLand, BranchInside, Offset, Lands,
         Legal, Sound, SizeOf, Lower;
    var labels := LabelLines(lines, 0, map[]).value;
    var source := Program(lines, host);
    var opcodes := SourceOpcodes(source);
    var code := AssembleLines(lines, options, host).value.code;
    AssembledProgram(lines, options, host);
    var program := LowerAll(source, 0, labels, Zero);
    assert code == [] + EncodeAll(program);
    LoweredAreUnlinked(source, 0, labels);
    SweepProgram([], program);
    LandsProgram([], program);
    AllLandAt(code, program, 0);
    assert Opcodes(program) == opcodes;
    forall k | 0 <= k < |source|
      ensures IsStart(code, 0, Offset(opcodes, k))
      ensures Lands(code, program[k], Offset(opcodes, k + 1)) <==>
              BranchInside(source[k], Offset(opcodes, k + 1), lines, host)
    {
      InstructionsStart(opcodes, 0, k);
      LowerAllAt(source, 0, labels, Zero, k);
      SoundAt(source, 0, labels, k);
      OffsetNext(opcodes, k);
      LandsMeaning(code, source[k], Offset(opcodes, k), lines, labels, host);
    }
  }
}
