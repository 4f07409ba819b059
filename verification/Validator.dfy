/** The loader's bytecode validator: a linear sweep with the loader's own size table, then a check of
    every branch target. */
module Validator {
  import opened Bytes

  predicate HasU16Operand(opcode: byte) {
    0x10 <= opcode <= 0x1A || opcode == 0x20 || opcode == 0x21 || 0x2C <= opcode <= 0x30 ||
    0x32 <= opcode <= 0x35 || opcode == 0x37 || opcode == 0x38 || opcode == 0x3A || opcode == 0x3B ||
    0x3D <= opcode <= 0x3F || 0x41 <= opcode <= 0x43
  }

  predicate HasU32Immediate(opcode: byte) {
    0x1B <= opcode <= 0x1D
  }

  predicate HasTimerStartOperand(opcode: byte) {
    opcode == 0x31 || opcode == 0x36 || opcode == 0x39
  }

  predicate HasCounterCountOperand(opcode: byte) {
    opcode == 0x3C || opcode == 0x40
  }

  predicate IsBranch(opcode: byte) {
    0x2C <= opcode <= 0x2E
  }

  predicate Supported(opcode: byte) {
    opcode <= 0x0C || 0x15 <= opcode <= 0x1D || 0x22 <= opcode <= 0x53 || HasU16Operand(opcode) ||
    HasU32Immediate(opcode)
  }

  /** The size the loader gives an instruction: 3 for point loads and stores, which the assembler
      encodes in 5 bytes. */
  function InstructionSize(opcode: byte): (size: nat)
    ensures 1 <= size <= 7
  {
    if HasTimerStartOperand(opcode) then 7
    else if HasU32Immediate(opcode) then 5
    else if HasCounterCountOperand(opcode) then 5
    else if HasU16Operand(opcode) then 3
    else 1
  }

  /** The sweep from `pc` meets only supported instructions and ends exactly at the end. */
  predicate Sweeps(code: seq<byte>, pc: nat)
    decreases |code| - pc
  {
    if |code| <= pc then pc == |code|
    else Supported(code[pc]) && Sweeps(code, pc + InstructionSize(code[pc]))
  }

  /** `target` is where the sweep from `pc` finds an instruction. */
  predicate IsStart(code: seq<byte>, pc: nat, target: int)
    decreases |code| - pc
  {
    pc < |code| && (pc == target || IsStart(code, pc + InstructionSize(code[pc]), target))
  }

  function BranchTargetAt(code: seq<byte>, pc: nat): int
    requires pc + 3 <= |code|
  {
    pc + 3 + Signed16(Fetch16(code, pc + 1))
  }

  /** From `pc` on, every branch of the sweep targets an instruction of the sweep. */
  predicate BranchesLand(code: seq<byte>, pc: nat)
    requires Sweeps(code, pc)
    decreases |code| - pc
  {
    if |code| <= pc then true
    else
      && (IsBranch(code[pc]) ==> (FitsBranch(code, pc); IsStart(code, 0, BranchTargetAt(code, pc))))
      && BranchesLand(code, pc + InstructionSize(code[pc]))
  }

  lemma FitsBranch(code: seq<byte>, pc: nat)
    requires pc < |code| && Sweeps(code, pc) && IsBranch(code[pc])
    ensures pc + 3 <= |code|
  {
    assert Sweeps(code, pc + 3);
  }

  predicate Accepts(code: seq<byte>) {
    Sweeps(code, 0) && BranchesLand(code, 0)
  }

  lemma {:induction false} StartInRange(code: seq<byte>, pc: nat, target: int)
    requires IsStart(code, pc, target)
    ensures pc <= target < |code|
    decreases |code| - pc
  {
    if pc != target {
      StartInRange(code, pc + InstructionSize(code[pc]), target);
    }
  }

  /** isInstructionStartOffset */
  method IsInstructionStart(code: seq<byte>, target: nat) returns (found: bool)
    ensures found == IsStart(code, 0, target)
  {
    var pc := 0;
    while pc < |code|
      invariant 0 <= pc
      invariant IsStart(code, pc, target) == IsStart(code, 0, target)
    {
      if pc == target {
        return true;
      }
      pc := pc + InstructionSize(code[pc]);
    }
    found := false;
  }

  /** validateSupportedBytecode */
  method ValidateSupportedBytecode(code: seq<byte>) returns (accepted: bool)
    ensures accepted == Accepts(code)
  {
    hide Supported, InstructionSize;
    var pc := 0;
    while pc < |code|
      invariant 0 <= pc <= |code|
      invariant Sweeps(code, pc) == Sweeps(code, 0)
    {
      if !Supported(code[pc]) || |code| < pc + InstructionSize(code[pc]) {
        return false;
      }
      pc := pc + InstructionSize(code[pc]);
    }
    pc := 0;
    while pc < |code|
      invariant 0 <= pc <= |code|
      invariant Sweeps(code, pc) && BranchesLand(code, pc) == BranchesLand(code, 0)
    {
      if IsBranch(code[pc]) {
        FitsBranch(code, pc);
        var target := BranchTargetAt(code, pc);
        if target < 0 || |code| <= target {
          NotAStart(code, target);
          return false;
        }
        var found := IsInstructionStart(code, target);
        if !found {
          return false;
        }
      }
      pc := pc + InstructionSize(code[pc]);
    }
    accepted := true;
  }

  lemma NotAStart(code: seq<byte>, target: int)
    requires target < 0 || |code| <= target
    ensures !IsStart(code, 0, target)
  {
    if IsStart(code, 0, target) {
      StartInRange(code, 0, target);
    }
  }

  // What acceptance means for a run

  /** `next` follows `pc` in a run: the instruction after it, or the target of a branch. */
  predicate Steps(code: seq<byte>, pc: nat, next: int) {
    && pc < |code|
    && (next == pc + InstructionSize(code[pc]) ||
        (IsBranch(code[pc]) && pc + 3 <= |code| && next == BranchTargetAt(code, pc)))
  }

  predicate IsRun(code: seq<byte>, run: seq<int>) {
    && |run| > 0
    && run[0] == 0
    && forall i | 0 <= i < |run| - 1 :: 0 <= run[i] && Steps(code, run[i], run[i + 1])
  }

  lemma {:induction false} BranchLandsAt(code: seq<byte>, from: nat, pc: nat)
    requires Sweeps(code, from) && BranchesLand(code, from) && IsStart(code, from, pc)
    requires pc < |code| && IsBranch(code[pc])
    ensures pc + 3 <= |code| && IsStart(code, 0, BranchTargetAt(code, pc))
    decreases |code| - from
  {
    if from == pc {
      FitsBranch(code, pc);
    } else {
      BranchLandsAt(code, from + InstructionSize(code[from]), pc);
    }
  }

  lemma {:induction false} NextStart(code: seq<byte>, from: nat, pc: nat)
    requires Sweeps(code, from) && IsStart(code, from, pc)
    ensures pc < |code|
    ensures
      var next := pc + InstructionSize(code[pc]);
      next == |code| || IsStart(code, from, next)
    decreases |code| - from
  {
    if from == pc {
      assert Sweeps(code, pc + InstructionSize(code[pc]));
    } else {
      NextStart(code, from + InstructionSize(code[from]), pc);
    }
  }

  /** Soundness over runs: from offset 0 an accepted program only ever reaches instruction starts of
      the sweep, or its end. */
  lemma {:induction false} AcceptedRunsStayOnStarts(code: seq<byte>, run: seq<int>, i: nat)
    requires Accepts(code) && IsRun(code, run) && i < |run|
    ensures run[i] == |code| || IsStart(code, 0, run[i])
    decreases i
  {
    if i > 0 {
      AcceptedRunsStayOnStarts(code, run, i - 1);
      assert Steps(code, run[i - 1], run[i]);
      NextStart(code, 0, run[i - 1]);
      if IsBranch(code[run[i - 1]]) {
        BranchLandsAt(code, 0, run[i - 1]);
      }
    }
  }

  /** Acceptance, exactly: the sweep covers the code and the branches found at its starts target its
      starts. */
  lemma AcceptsExactly(code: seq<byte>)
    ensures Accepts(code) <==>
            Sweeps(code, 0) &&
            forall pc: nat | pc + 3 <= |code| && IsStart(code, 0, pc) && IsBranch(code[pc]) ::
              IsStart(code, 0, BranchTargetAt(code, pc))
  {
    if Accepts(code) {
      forall pc: nat | pc + 3 <= |code| && IsStart(code, 0, pc) && IsBranch(code[pc])
        ensures IsStart(code, 0, BranchTargetAt(code, pc))
      {
        BranchLandsAt(code, 0, pc);
      }
    } else if Sweeps(code, 0) {
      var pc := FirstMiss(code, 0);
    }
  }

  lemma {:induction false} FirstMiss(code: seq<byte>, from: nat) returns (pc: nat)
    requires Sweeps(code, from) && !BranchesLand(code, from)
    ensures pc + 3 <= |code| && IsStart(code, from, pc) && IsBranch(code[pc])
    ensures !IsStart(code, 0, BranchTargetAt(code, pc))
    decreases |code| - from
  {
    if IsBranch(code[from]) {
      FitsBranch(code, from);
      if !IsStart(code, 0, BranchTargetAt(code, from)) {
        return from;
      }
    }
    pc := FirstMiss(code, from + InstructionSize(code[from]));
  }
}
