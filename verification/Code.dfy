/** Instructions as values, and their encoding: the assembler's sizes, read back opcode by opcode. */
module Code {
  import opened Bytes
  import opened Isa

  datatype Instr = Instr(opcode: byte, args: seq<u32>)

  predicate Fits(operands: seq<Operand>, args: seq<u32>) {
    |operands| == |args| && forall i | 0 <= i < |args| :: args[i] < operands[i].Limit()
  }

  predicate Legal(instr: Instr) {
    IsInstruction(instr.opcode) && Fits(OperandsOf(instr.opcode), instr.args)
  }

  function ArgBytes(operand: Operand, arg: u32): (s: seq<byte>)
    requires arg < operand.Limit()
    ensures |s| == operand.Width()
  {
    if operand.Width() == 2 then Le16(arg) else Le32(arg)
  }

  function EncodeArgs(operands: seq<Operand>, args: seq<u32>): (s: seq<byte>)
    requires Fits(operands, args)
    ensures |s| == Widths(operands)
  {
    if operands == [] then [] else ArgBytes(operands[0], args[0]) + EncodeArgs(operands[1..], args[1..])
  }

  function Encode(instr: Instr): (s: seq<byte>)
    requires Legal(instr)
    ensures |s| == SizeOf(instr.opcode) && s[0] == instr.opcode
  {
    SizeIsWidths(instr.opcode);
    [instr.opcode] + EncodeArgs(OperandsOf(instr.opcode), instr.args)
  }

  predicate AllLegal(program: seq<Instr>) {
    forall k | 0 <= k < |program| :: Legal(program[k])
  }

  function EncodeAll(program: seq<Instr>): seq<byte>
    requires AllLegal(program)
  {
    if program == [] then [] else Encode(program[0]) + EncodeAll(program[1..])
  }

  /** The code offset of instruction `k`. */
  function Offset(opcodes: seq<byte>, k: nat): nat
    requires k <= |opcodes|
  {
    if k == 0 then 0 else SizeOf(opcodes[0]) + Offset(opcodes[1..], k - 1)
  }

  function Opcodes(program: seq<Instr>): (s: seq<byte>)
    ensures |s| == |program| && forall k | 0 <= k < |s| :: s[k] == program[k].opcode
  {
    seq(|program|, k requires 0 <= k < |program| => program[k].opcode)
  }

  function ReadArgs(operands: seq<Operand>, code: seq<byte>, at: nat): (args: seq<u32>)
    requires at + Widths(operands) <= |code|
    ensures Fits(operands, args)
  {
    if operands == [] then []
    else
      var rest := ReadArgs(operands[1..], code, at + operands[0].Width());
      (if operands[0].Width() == 2 then [Fetch16(code, at)] else [Fetch32(code, at)]) + rest
  }

  /** The instructions of `code` from `pc` on; nothing if an opcode is unknown or cut short. */
  function Decode(code: seq<byte>, pc: nat): (r: Option<seq<Instr>>)
    requires pc <= |code|
    ensures r.Some? ==> AllLegal(r.value)
    decreases |code| - pc
  {
    if pc == |code| then Some([])
    else if !IsInstruction(code[pc]) || |code| < pc + SizeOf(code[pc]) then None
    else
      SizeIsWidths(code[pc]);
      var args := ReadArgs(OperandsOf(code[pc]), code, pc + 1);
      match Decode(code, pc + SizeOf(code[pc]))
      case None => None
      case Some(rest) => Some([Instr(code[pc], args)] + rest)
  }

  lemma SizeIsWidths(opcode: byte)
    ensures SizeOf(opcode) == 1 + Widths(OperandsOf(opcode))
  {
    var operands := OperandsOf(opcode);
    if |operands| == 2 {
      assert Widths(operands) == operands[0].Width() + Widths(operands[1..]);
      assert Widths(operands[1..]) == operands[1].Width() + Widths(operands[1..][1..]);
    }
  }

  lemma {:induction false} ReadArgsEncoded(operands: seq<Operand>, args: seq<u32>, code: seq<byte>, at: nat)
    requires Fits(operands, args) && at + Widths(operands) <= |code|
    requires code[at..at + Widths(operands)] == EncodeArgs(operands, args)
    ensures ReadArgs(operands, code, at) == args
  {
    if operands != [] {
      var w := operands[0].Width();
      var bytes := EncodeArgs(operands, args);
      assert bytes[..w] == ArgBytes(operands[0], args[0]) && bytes[w..] == EncodeArgs(operands[1..], args[1..]);
      assert code[at..at + w] == code[at..at + Widths(operands)][..w];
      assert code[at + w..at + Widths(operands)] == code[at..at + Widths(operands)][w..];
      ReadArgsEncoded(operands[1..], args[1..], code, at + w);
      if w == 2 {
        FetchLe16(args[0], code, at);
      } else {
        FetchLe32(args[0], code, at);
      }
    }
  }

  lemma DecodeStep(code: seq<byte>, pc: nat, instr: Instr, rest: seq<Instr>)
    requires Legal(instr) && pc + SizeOf(instr.opcode) <= |code|
    requires code[pc..pc + SizeOf(instr.opcode)] == Encode(instr)
    requires Decode(code, pc + SizeOf(instr.opcode)) == Some(rest)
    ensures Decode(code, pc) == Some([instr] + rest)
  {
    hide SizeOf;
    hide OperandsOf;
    hide IsInstruction;
    hide Widths;
    var bytes := Encode(instr);
    SizeIsWidths(instr.opcode);
    assert code[pc] == bytes[0];
    assert code[pc + 1..pc + SizeOf(instr.opcode)] == bytes[1..];
    ReadArgsEncoded(OperandsOf(instr.opcode), instr.args, code, pc + 1);
  }

  lemma EncodeAllCons(instr: Instr, rest: seq<Instr>)
    requires Legal(instr) && AllLegal(rest)
    ensures AllLegal([instr] + rest) && EncodeAll([instr] + rest) == Encode(instr) + EncodeAll(rest)
  {
    hide Legal, Encode;
    assert ([instr] + rest)[1..] == rest;
  }

  /** The first instruction of an encoded program, and where the rest of the program starts. */
  lemma CodeSplit(prefix: seq<byte>, program: seq<Instr>)
    requires AllLegal(program) && program != []
    ensures
      var code := prefix + EncodeAll(program);
      var size := SizeOf(program[0].opcode);
      && |prefix| + size <= |code|
      && code[|prefix|..|prefix| + size] == Encode(program[0])
      && code == prefix + Encode(program[0]) + EncodeAll(program[1..])
  {
    hide SizeOf, Legal, Encode;
    var first, rest := Encode(program[0]), EncodeAll(program[1..]);
    assert prefix + (first + rest) == prefix + first + rest;
  }

  /** Decoding inverts encoding, wherever the encoded program starts. */
  lemma {:induction false} DecodeEncoded(prefix: seq<byte>, program: seq<Instr>)
    requires AllLegal(program)
    ensures Decode(prefix + EncodeAll(program), |prefix|) == Some(program)
    decreases program
  {
    hide SizeOf;
    hide Legal;
    hide Encode;
    if program == [] {
      assert EncodeAll(program) == [];
    } else {
      var instr, rest := program[0], program[1..];
      assert Legal(instr) && AllLegal(rest);
      DecodeEncoded(prefix + Encode(instr), rest);
      EncodeAllStep(prefix, instr, rest);
      assert program == [instr] + rest;
    }
  }

  lemma EncodeAllStep(prefix: seq<byte>, instr: Instr, rest: seq<Instr>)
    requires Legal(instr) && AllLegal(rest)
    requires Decode(prefix + Encode(instr) + EncodeAll(rest), |prefix + Encode(instr)|) == Some(rest)
    ensures Decode(prefix + EncodeAll([instr] + rest), |prefix|) == Some([instr] + rest)
  {
    hide SizeOf;
    hide Legal;
    hide Encode;
    hide Decode;
    var bytes := Encode(instr);
    var code := prefix + bytes + EncodeAll(rest);
    hide EncodeAll;
    EncodeAllCons(instr, rest);
    assert prefix + EncodeAll([instr] + rest) == code;
    assert code[|prefix|..|prefix| + |bytes|] == bytes;
    DecodeStep(code, |prefix|, instr, rest);
  }

  /** A program is as long as the sum of its instructions' sizes. */
  lemma {:induction false} EncodedLength(program: seq<Instr>)
    requires AllLegal(program)
    ensures |EncodeAll(program)| == Offset(Opcodes(program), |program|)
  {
    hide SizeOf;
    if program != [] {
      assert Opcodes(program)[1..] == Opcodes(program[1..]);
      EncodedLength(program[1..]);
    }
  }
}
