/** The PLC instruction set: opcodes, their operands, and the words of the assembly language. */
module Isa {
  import opened Bytes

  // PlcValueType
  const TYPE_BOOL: byte := 0
  const TYPE_UINT16: byte := 1
  const TYPE_INT16: byte := 2
  const TYPE_UINT32: byte := 3
  const TYPE_INT32: byte := 4
  const TYPE_FLOAT: byte := 5
  const TYPE_ENUM: byte := 6
  const TYPE_STRING: byte := 7
  const TYPE_UNKNOWN: byte := 255

  // PlcRuntimeLinkAccess
  const ACCESS_READ: byte := 0
  const ACCESS_WRITE: byte := 1
  const ACCESS_READ_WRITE: byte := 2

  // PlcObjectRelocationKind
  const RELOCATION_INDEX_U16: byte := 0
  const RELOCATION_OFFSET_U32: byte := 1

  /** What one operand of an instruction holds. The last two are filled in by the linker. */
  datatype Operand =
    | Int16Literal
    | UInt16Literal
    | UInt32Literal
    | Int32Literal
    | Float32Literal
    | BranchTarget
    | PointIndex(valueType: byte, access: byte)
    | PointOffset(valueType: byte, access: byte)
  {
    /** The number of code bytes the operand takes. */
    function Width(): (w: nat)
      ensures w == 2 || w == 4
    {
      if Int16Literal? || UInt16Literal? || BranchTarget? || PointIndex? then 2 else 4
    }

    /** The number of values the operand can hold. */
    function Limit(): (n: nat) {
      if Width() == 2 then 0x1_0000 else 0x1_0000_0000
    }

    predicate IsSymbol() {
      PointIndex? || PointOffset?
    }

    function RelocationKind(): (kind: byte)
      requires IsSymbol()
    {
      if PointIndex? then RELOCATION_INDEX_U16 else RELOCATION_OFFSET_U32
    }
  }

  predicate IsInstruction(opcode: byte) {
    opcode <= 0x0C || 0x10 <= opcode <= 0x1D || 0x20 <= opcode <= 0x53
  }

  /** The operands the assembler emits and the disassembler reads after an opcode. */
  function OperandsOf(opcode: byte): (operands: seq<Operand>)
    ensures |operands| <= 2
    ensures |operands| == 2 ==> !operands[0].IsSymbol() && !operands[1].IsSymbol()
  {
    if opcode == 0x10 then [PointOffset(TYPE_BOOL, ACCESS_READ)]
    else if opcode == 0x11 then [PointOffset(TYPE_BOOL, ACCESS_WRITE)]
    else if opcode == 0x12 then [PointOffset(TYPE_INT16, ACCESS_READ)]
    else if opcode == 0x13 then [PointOffset(TYPE_INT16, ACCESS_WRITE)]
    else if opcode == 0x14 then [Int16Literal]
    else if opcode == 0x15 then [PointOffset(TYPE_UINT32, ACCESS_READ)]
    else if opcode == 0x16 then [PointOffset(TYPE_UINT32, ACCESS_WRITE)]
    else if opcode == 0x17 then [PointOffset(TYPE_INT32, ACCESS_READ)]
    else if opcode == 0x18 then [PointOffset(TYPE_INT32, ACCESS_WRITE)]
    else if opcode == 0x19 then [PointOffset(TYPE_FLOAT, ACCESS_READ)]
    else if opcode == 0x1A then [PointOffset(TYPE_FLOAT, ACCESS_WRITE)]
    else if opcode == 0x1B then [UInt32Literal]
    else if opcode == 0x1C then [Int32Literal]
    else if opcode == 0x1D then [Float32Literal]
    else if opcode == 0x20 || opcode == 0x21 then [PointOffset(TYPE_INT16, ACCESS_READ_WRITE)]
    else if 0x2C <= opcode <= 0x2E then [BranchTarget]
    else if opcode == 0x2F || opcode == 0x30 then [PointIndex(TYPE_BOOL, ACCESS_READ)]
    else if opcode == 0x31 || opcode == 0x36 || opcode == 0x39 then [UInt16Literal, UInt32Literal]
    else if opcode == 0x3C || opcode == 0x40 then [UInt16Literal, Int16Literal]
    else if 0x32 <= opcode <= 0x43 then [UInt16Literal]
    else []
  }

  function Widths(operands: seq<Operand>): nat {
    if operands == [] then 0 else operands[0].Width() + Widths(operands[1..])
  }

  /** The encoded size of an instruction, as the assembler and the disassembler count it. */
  function SizeOf(opcode: byte): (size: nat)
    ensures 1 <= size <= 7
  {
    var operands := OperandsOf(opcode);
    1 + (if |operands| == 0 then 0
         else if |operands| == 1 then operands[0].Width()
         else operands[0].Width() + operands[1].Width())
  }

  predicate WordChar(c: char) {
    'A' <= c <= 'Z' || '0' <= c <= '9' || c == '_'
  }

  predicate IsWord(s: string) {
    s != [] && forall i | 0 <= i < |s| :: WordChar(s[i])
  }

  /** What the first word of a source line asks for. */
  datatype Keyword = CONST | PARAM | VAR | DB | Instruction(opcode: byte)

  // The disassembler's words

  function StackMnemonic(opcode: byte): (word: string)
    ensures IsWord(word)
  {
    if opcode == 0x00 then "HALT"
    else if opcode == 0x01 then "NOP"
    else if opcode == 0x02 then "PUSH_TRUE"
    else if opcode == 0x03 then "PUSH_FALSE"
    else if opcode == 0x04 then "DUP"
    else if opcode == 0x05 then "DROP"
    else if opcode == 0x06 then "SWAP"
    else if opcode == 0x07 then "AND"
    else if opcode == 0x08 then "OR"
    else if opcode == 0x09 then "XOR"
    else if opcode == 0x0A then "NOT"
    else if opcode == 0x0B then "EQ"
    else "NE"
  }

  function PointMnemonic(opcode: byte): (word: string)
    ensures IsWord(word)
  {
    if opcode == 0x10 then "LOAD_BOOL"
    else if opcode == 0x11 then "STORE_BOOL"
    else if opcode == 0x12 then "LOAD_I16"
    else if opcode == 0x13 then "STORE_I16"
    else if opcode == 0x14 then "PUSH_I16"
    else if opcode == 0x15 then "LOAD_U32"
    else if opcode == 0x16 then "STORE_U32"
    else if opcode == 0x17 then "LOAD_I32"
    else if opcode == 0x18 then "STORE_I32"
    else if opcode == 0x19 then "LOAD_F32"
    else if opcode == 0x1A then "STORE_F32"
    else if opcode == 0x1B then "PUSH_U32"
    else if opcode == 0x1C then "PUSH_I32"
    else "PUSH_F32"
  }

  function ArithmeticMnemonic(opcode: byte): (word: string)
    ensures IsWord(word)
  {
    if opcode == 0x20 then "INC_INT"
    else if opcode == 0x21 then "DEC_INT"
    else if opcode == 0x22 then "ADD"
    else if opcode == 0x23 then "SUB"
    else if opcode == 0x24 then "LT"
    else if opcode == 0x25 then "LE"
    else if opcode == 0x26 then "GT"
    else if opcode == 0x27 then "GE"
    else if opcode == 0x28 then "MIN"
    else if opcode == 0x29 then "MAX"
    else if opcode == 0x2A then "CLAMP"
    else "SEL"
  }

  function FlowMnemonic(opcode: byte): (word: string)
    ensures IsWord(word)
  {
    if opcode == 0x2C then "JMP"
    else if opcode == 0x2D then "JZ"
    else if opcode == 0x2E then "JNZ"
    else if opcode == 0x2F then "R_TRIG"
    else "F_TRIG"
  }

  function TimerMnemonic(opcode: byte): (word: string)
    ensures IsWord(word)
  {
    if opcode == 0x31 then "TON_START"
    else if opcode == 0x32 then "TON_DONE"
    else if opcode == 0x33 then "TON_RESET"
    else if opcode == 0x34 then "TON_ELAPSED"
    else if opcode == 0x35 then "TON_REMAINING"
    else if opcode == 0x36 then "TOF_START"
    else if opcode == 0x37 then "TOF_DONE"
    else if opcode == 0x38 then "TOF_RESET"
    else if opcode == 0x39 then "TP_START"
    else if opcode == 0x3A then "TP_DONE"
    else "TP_RESET"
  }

  function CounterMnemonic(opcode: byte): (word: string)
    ensures IsWord(word)
  {
    if opcode == 0x3C then "CTU_COUNT"
    else if opcode == 0x3D then "CTU_DONE"
    else if opcode == 0x3E then "CTU_VALUE"
    else if opcode == 0x3F then "CTU_RESET"
    else if opcode == 0x40 then "CTD_COUNT"
    else if opcode == 0x41 then "CTD_DONE"
    else if opcode == 0x42 then "CTD_VALUE"
    else "CTD_RESET"
  }

  function CompareMnemonic(opcode: byte): (word: string)
    ensures IsWord(word)
  {
    if opcode == 0x44 then "FEQ"
    else if opcode == 0x45 then "FNE"
    else if opcode == 0x46 then "FLT"
    else if opcode == 0x47 then "FLE"
    else if opcode == 0x48 then "FGT"
    else "FGE"
  }

  function ConvertMnemonic(opcode: byte): (word: string)
    ensures IsWord(word)
  {
    if opcode == 0x4A then "SX_I16_TO_I32"
    else if opcode == 0x4B then "TRUNC_I32_TO_I16"
    else if opcode == 0x4C then "BOOL_TO_U32"
    else if opcode == 0x4D then "BOOL_TO_I32"
    else if opcode == 0x4E then "U32_TO_BOOL"
    else if opcode == 0x4F then "I32_TO_BOOL"
    else if opcode == 0x50 then "FADD"
    else if opcode == 0x51 then "FSUB"
    else if opcode == 0x52 then "FMUL"
    else "FDIV"
  }

  /** The word the disassembler prints for an opcode. */
  function Mnemonic(opcode: byte): string {
    if 0x00 <= opcode <= 0x0C then StackMnemonic(opcode)
    else if 0x10 <= opcode <= 0x1D then PointMnemonic(opcode)
    else if 0x20 <= opcode <= 0x2B then ArithmeticMnemonic(opcode)
    else if 0x2C <= opcode <= 0x30 then FlowMnemonic(opcode)
    else if 0x31 <= opcode <= 0x3B then TimerMnemonic(opcode)
    else if 0x3C <= opcode <= 0x43 then CounterMnemonic(opcode)
    else if 0x44 <= opcode <= 0x49 then CompareMnemonic(opcode)
    else if 0x4A <= opcode <= 0x53 then ConvertMnemonic(opcode)
    else "DB"
  }

  // The assembler's switch

  function StackWord(word: string): (opcode: Option<byte>)
    ensures opcode.Some? ==> 0x00 <= opcode.value <= 0x0C
  {
    if word == "HALT" then Some(0x00)
    else if word == "NOP" then Some(0x01)
    else if word == "PUSH_TRUE" then Some(0x02)
    else if word == "PUSH_FALSE" then Some(0x03)
    else if word == "DUP" then Some(0x04)
    else if word == "DROP" then Some(0x05)
    else if word == "SWAP" then Some(0x06)
    else if word == "AND" then Some(0x07)
    else if word == "OR" then Some(0x08)
    else if word == "XOR" then Some(0x09)
    else if word == "NOT" then Some(0x0A)
    else if word == "EQ" then Some(0x0B)
    else if word == "NE" then Some(0x0C)
    else None
  }

  function PointWord(word: string): (opcode: Option<byte>)
    ensures opcode.Some? ==> 0x10 <= opcode.value <= 0x1D
  {
    if word == "LOAD_BOOL" || word == "LOAD_POINT_BOOL" || word == "LB" then Some(0x10)
    else if word == "STORE_BOOL" || word == "STORE_POINT_BOOL" || word == "SB" then Some(0x11)
    else if word == "LOAD_I16" then Some(0x12)
    else if word == "STORE_I16" then Some(0x13)
    else if word == "PUSH_I16" then Some(0x14)
    else if word == "LOAD_U32" then Some(0x15)
    else if word == "STORE_U32" then Some(0x16)
    else if word == "LOAD_I32" then Some(0x17)
    else if word == "STORE_I32" then Some(0x18)
    else if word == "LOAD_F32" then Some(0x19)
    else if word == "STORE_F32" then Some(0x1A)
    else if word == "PUSH_U32" then Some(0x1B)
    else if word == "PUSH_I32" then Some(0x1C)
    else if word == "PUSH_F32" then Some(0x1D)
    else None
  }

  function ArithmeticWord(word: string): (opcode: Option<byte>)
    ensures opcode.Some? ==> 0x20 <= opcode.value <= 0x2B
  {
    if word == "INC_INT" || word == "INC" then Some(0x20)
    else if word == "DEC_INT" || word == "DEC" then Some(0x21)
    else if word == "ADD" then Some(0x22)
    else if word == "SUB" then Some(0x23)
    else if word == "LT" then Some(0x24)
    else if word == "LE" then Some(0x25)
    else if word == "GT" then Some(0x26)
    else if word == "GE" then Some(0x27)
    else if word == "MIN" then Some(0x28)
    else if word == "MAX" then Some(0x29)
    else if word == "CLAMP" then Some(0x2A)
    else if word == "SEL" then Some(0x2B)
    else None
  }

  function FlowWord(word: string): (opcode: Option<byte>)
    ensures opcode.Some? ==> 0x2C <= opcode.value <= 0x30
  {
    if word == "JMP" then Some(0x2C)
    else if word == "JZ" then Some(0x2D)
    else if word == "JNZ" then Some(0x2E)
    else if word == "R_TRIG" then Some(0x2F)
    else if word == "F_TRIG" then Some(0x30)
    else None
  }

  function TimerWord(word: string): (opcode: Option<byte>)
    ensures opcode.Some? ==> 0x31 <= opcode.value <= 0x3B
  {
    if word == "TON_START" then Some(0x31)
    else if word == "TON_DONE" then Some(0x32)
    else if word == "TON_RESET" then Some(0x33)
    else if word == "TON_ELAPSED" then Some(0x34)
    else if word == "TON_REMAINING" then Some(0x35)
    else if word == "TOF_START" then Some(0x36)
    else if word == "TOF_DONE" then Some(0x37)
    else if word == "TOF_RESET" then Some(0x38)
    else if word == "TP_START" then Some(0x39)
    else if word == "TP_DONE" then Some(0x3A)
    else if word == "TP_RESET" then Some(0x3B)
    else None
  }

  function CounterWord(word: string): (opcode: Option<byte>)
    ensures opcode.Some? ==> 0x3C <= opcode.value <= 0x43
  {
    if word == "CTU_COUNT" then Some(0x3C)
    else if word == "CTU_DONE" then Some(0x3D)
    else if word == "CTU_VALUE" then Some(0x3E)
    else if word == "CTU_RESET" then Some(0x3F)
    else if word == "CTD_COUNT" then Some(0x40)
    else if word == "CTD_DONE" then Some(0x41)
    else if word == "CTD_VALUE" then Some(0x42)
    else if word == "CTD_RESET" then Some(0x43)
    else None
  }

  function CompareWord(word: string): (opcode: Option<byte>)
    ensures opcode.Some? ==> 0x44 <= opcode.value <= 0x49
  {
    if word == "FEQ" then Some(0x44)
    else if word == "FNE" then Some(0x45)
    else if word == "FLT" then Some(0x46)
    else if word == "FLE" then Some(0x47)
    else if word == "FGT" then Some(0x48)
    else if word == "FGE" then Some(0x49)
    else None
  }

  function ConvertWord(word: string): (opcode: Option<byte>)
    ensures opcode.Some? ==> 0x4A <= opcode.value <= 0x53
  {
    if word == "SX_I16_TO_I32" then Some(0x4A)
    else if word == "TRUNC_I32_TO_I16" then Some(0x4B)
    else if word == "BOOL_TO_U32" then Some(0x4C)
    else if word == "BOOL_TO_I32" then Some(0x4D)
    else if word == "U32_TO_BOOL" then Some(0x4E)
    else if word == "I32_TO_BOOL" then Some(0x4F)
    else if word == "FADD" then Some(0x50)
    else if word == "FSUB" then Some(0x51)
    else if word == "FMUL" then Some(0x52)
    else if word == "FDIV" then Some(0x53)
    else None
  }

  function OrElse(first: Option<byte>, second: Option<byte>): Option<byte> {
    if first.Some? then first else second
  }

  /** The opcode the assembler emits for a word. */
  function InstructionOf(word: string): (opcode: Option<byte>)
    ensures opcode.Some? ==> IsInstruction(opcode.value)
  {
    OrElse(StackWord(word), OrElse(PointWord(word), OrElse(ArithmeticWord(word), OrElse(FlowWord(word),
    OrElse(TimerWord(word), OrElse(CounterWord(word), OrElse(CompareWord(word), ConvertWord(word))))))))
  }

  function UpperChar(c: char): char {
    if 'a' <= c <= 'z' then c - 'a' + 'A' else c
  }

  function Upper(text: string): (u: string)
    ensures |u| == |text|
  {
    seq(|text|, i requires 0 <= i < |text| => UpperChar(text[i]))
  }

  /** The keyword a source token spells, in any case. */
  function KeywordOf(token: string): (r: Option<Keyword>)
    ensures r.Some? && r.value.Instruction? ==> IsInstruction(r.value.opcode)
  {
    var word := Upper(token);
    if word == "CONST" then Some(CONST)
    else if word == "PARAM" then Some(PARAM)
    else if word == "VAR" then Some(VAR)
    else if word == "DB" then Some(DB)
    else
      match InstructionOf(word)
      case None => None
      case Some(opcode) => Some(Instruction(opcode))
  }
}

/** The words are told apart: the assembler reads every word, and so every word the disassembler prints, as
    the keyword it stands for. */
module IsaWords {
  import opened Bytes
  import opened Isa

  // A fingerprint tells all words apart: the keyword can be found from it, and so is unique.

  function CharAt(s: string, i: nat): int {
    if i < |s| then s[i] as int else 0
  }

  function Fingerprint(s: string): int {
    5 * CharAt(s, 0) + CharAt(s, 1) + 3 * CharAt(s, 2) + 5 * CharAt(s, 5) + 4 * CharAt(s, 6) + CharAt(s, 8)
  }

  datatype Entry = Entry(spelling: string, keyword: Keyword)

  function EntryWith(fingerprint: int): (e: Entry)
    ensures e.keyword.Instruction? ==> IsInstruction(e.keyword.opcode)
  {
    if fingerprint < 1208 then
      if fingerprint < 653 then
        if fingerprint < 597 then
          if fingerprint < 449 then
            if fingerprint < 426 then
              if fingerprint < 424 then
                Entry("DB", DB)
              else
                Entry("GE", Instruction(0x27))
            else
              if fingerprint < 439 then
                Entry("EQ", Instruction(0x0B))
              else
                if fingerprint < 446 then
                  Entry("GT", Instruction(0x26))
                else
                  Entry("LB", Instruction(0x10))
          else
            if fingerprint < 464 then
              if fingerprint < 459 then
                Entry("LE", Instruction(0x25))
              else
                if fingerprint < 460 then
                  Entry("NE", Instruction(0x0C))
                else
                  Entry("JZ", Instruction(0x2D))
            else
              if fingerprint < 477 then
                Entry("LT", Instruction(0x24))
              else
                if fingerprint < 481 then
                  Entry("OR", Instruction(0x08))
                else
                  Entry("SB", Instruction(0x11))
        else
          if fingerprint < 628 then
            if fingerprint < 607 then
              if fingerprint < 606 then
                Entry("ADD", Instruction(0x22))
              else
                Entry("CLAMP", Instruction(0x2A))
            else
              if fingerprint < 610 then
                Entry("AND", Instruction(0x07))
              else
                if fingerprint < 619 then
                  Entry("DEC", Instruction(0x21))
                else
                  Entry("FADD", Instruction(0x50))
          else
            if fingerprint < 637 then
              if fingerprint < 633 then
                Entry("FGE", Instruction(0x49))
              else
                if fingerprint < 635 then
                  Entry("FLE", Instruction(0x47))
                else
                  Entry("FNE", Instruction(0x45))
            else
              if fingerprint < 644 then
                Entry("FDIV", Instruction(0x53))
              else
                if fingerprint < 648 then
                  Entry("INC", Instruction(0x20))
                else
                  Entry("CONST", CONST)
      else
        if fingerprint < 698 then
          if fingerprint < 678 then
            if fingerprint < 662 then
              if fingerprint < 659 then
                Entry("HALT", Instruction(0x00))
              else
                Entry("DROP", Instruction(0x05))
            else
              if fingerprint < 665 then
                Entry("FEQ", Instruction(0x44))
              else
                if fingerprint < 673 then
                  Entry("DUP", Instruction(0x04))
                else
                  Entry("FGT", Instruction(0x48))
          else
            if fingerprint < 688 then
              if fingerprint < 682 then
                Entry("FLT", Instruction(0x46))
              else
                if fingerprint < 687 then
                  Entry("FMUL", Instruction(0x52))
                else
                  Entry("JMP", Instruction(0x2C))
            else
              if fingerprint < 692 then
                Entry("FSUB", Instruction(0x51))
              else
                if fingerprint < 697 then
                  Entry("MIN", Instruction(0x28))
                else
                  Entry("SWAP", Instruction(0x06))
        else
          if fingerprint < 718 then
            if fingerprint < 711 then
              if fingerprint < 709 then
                Entry("SUB", Instruction(0x23))
              else
                Entry("NOP", Instruction(0x01))
            else
              if fingerprint < 712 then
                Entry("PARAM", PARAM)
              else
                if fingerprint < 714 then
                  Entry("SEL", Instruction(0x2B))
                else
                  Entry("MAX", Instruction(0x29))
          else
            if fingerprint < 765 then
              if fingerprint < 721 then
                Entry("JNZ", Instruction(0x2E))
              else
                if fingerprint < 741 then
                  Entry("NOT", Instruction(0x0A))
                else
                  Entry("VAR", VAR)
            else
              if fingerprint < 1052 then
                Entry("XOR", Instruction(0x09))
              else
                if fingerprint < 1112 then
                  Entry("F_TRIG", Instruction(0x30))
                else
                  Entry("R_TRIG", Instruction(0x2F))
    else
      if fingerprint < 1442 then
        if fingerprint < 1370 then
          if fingerprint < 1295 then
            if fingerprint < 1223 then
              if fingerprint < 1215 then
                Entry("LOAD_F32", Instruction(0x19))
              else
                Entry("LOAD_I16", Instruction(0x12))
            else
              if fingerprint < 1283 then
                Entry("LOAD_I32", Instruction(0x17))
              else
                if fingerprint < 1288 then
                  Entry("LOAD_U32", Instruction(0x15))
                else
                  Entry("PUSH_F32", Instruction(0x1D))
          else
            if fingerprint < 1330 then
              if fingerprint < 1303 then
                Entry("PUSH_I16", Instruction(0x14))
              else
                if fingerprint < 1321 then
                  Entry("PUSH_I32", Instruction(0x1C))
                else
                  Entry("CTD_VALUE", Instruction(0x42))
            else
              if fingerprint < 1336 then
                Entry("CTD_DONE", Instruction(0x41))
              else
                if fingerprint < 1363 then
                  Entry("DEC_INT", Instruction(0x21))
                else
                  Entry("PUSH_U32", Instruction(0x1B))
        else
          if fingerprint < 1416 then
            if fingerprint < 1376 then
              if fingerprint < 1372 then
                Entry("INC_INT", Instruction(0x20))
              else
                Entry("CTU_VALUE", Instruction(0x3E))
            else
              if fingerprint < 1381 then
                Entry("LOAD_BOOL", Instruction(0x10))
              else
                if fingerprint < 1384 then
                  Entry("CTU_DONE", Instruction(0x3D))
                else
                  Entry("CTD_RESET", Instruction(0x43))
          else
            if fingerprint < 1435 then
              if fingerprint < 1420 then
                Entry("TOF_DONE", Instruction(0x37))
              else
                if fingerprint < 1427 then
                  Entry("I32_TO_BOOL", Instruction(0x4F))
                else
                  Entry("PUSH_FALSE", Instruction(0x03))
            else
              if fingerprint < 1438 then
                Entry("CTU_RESET", Instruction(0x3F))
              else
                if fingerprint < 1440 then
                  Entry("TP_START", Instruction(0x39))
                else
                  Entry("TON_DONE", Instruction(0x32))
      else
        if fingerprint < 1493 then
          if fingerprint < 1459 then
            if fingerprint < 1451 then
              if fingerprint < 1448 then
                Entry("CTD_COUNT", Instruction(0x40))
              else
                Entry("LOAD_POINT_BOOL", Instruction(0x10))
            else
              if fingerprint < 1455 then
                Entry("TP_DONE", Instruction(0x3A))
              else
                if fingerprint < 1456 then
                  Entry("BOOL_TO_I32", Instruction(0x4D))
                else
                  Entry("TON_ELAPSED", Instruction(0x34))
          else
            if fingerprint < 1473 then
              if fingerprint < 1467 then
                Entry("TON_REMAINING", Instruction(0x35))
              else
                if fingerprint < 1470 then
                  Entry("BOOL_TO_U32", Instruction(0x4C))
                else
                  Entry("TOF_RESET", Instruction(0x38))
            else
              if fingerprint < 1476 then
                Entry("TOF_START", Instruction(0x36))
              else
                if fingerprint < 1480 then
                  Entry("TP_RESET", Instruction(0x3B))
                else
                  Entry("U32_TO_BOOL", Instruction(0x4E))
        else
          if fingerprint < 1553 then
            if fingerprint < 1517 then
              if fingerprint < 1494 then
                Entry("CTU_COUNT", Instruction(0x3C))
              else
                if fingerprint < 1497 then
                  Entry("TON_RESET", Instruction(0x33))
                else
                  Entry("TON_START", Instruction(0x31))
            else
              if fingerprint < 1541 then
                Entry("SX_I16_TO_I32", Instruction(0x4A))
              else
                if fingerprint < 1551 then
                  Entry("STORE_F32", Instruction(0x1A))
                else
                  Entry("PUSH_TRUE", Instruction(0x02))
          else
            if fingerprint < 1574 then
              if fingerprint < 1554 then
                Entry("STORE_I32", Instruction(0x18))
              else
                if fingerprint < 1557 then
                  Entry("STORE_BOOL", Instruction(0x11))
                else
                  Entry("STORE_I16", Instruction(0x13))
            else
              if fingerprint < 1601 then
                Entry("TRUNC_I32_TO_I16", Instruction(0x4B))
              else
                if fingerprint < 1604 then
                  Entry("STORE_U32", Instruction(0x16))
                else
                  Entry("STORE_POINT_BOOL", Instruction(0x11))
  }


  function StackFingerprint(opcode: byte): int {
    if opcode == 0x00 then 653
    else if opcode == 0x01 then 709
    else if opcode == 0x02 then 1551
    else if opcode == 0x03 then 1427
    else if opcode == 0x04 then 665
    else if opcode == 0x05 then 659
    else if opcode == 0x06 then 697
    else if opcode == 0x07 then 607
    else if opcode == 0x08 then 477
    else if opcode == 0x09 then 765
    else if opcode == 0x0A then 721
    else if opcode == 0x0B then 426
    else 459
  }

  function PointFingerprint(opcode: byte): int {
    if opcode == 0x10 then 1376
    else if opcode == 0x11 then 1554
    else if opcode == 0x12 then 1215
    else if opcode == 0x13 then 1557
    else if opcode == 0x14 then 1295
    else if opcode == 0x15 then 1283
    else if opcode == 0x16 then 1601
    else if opcode == 0x17 then 1223
    else if opcode == 0x18 then 1553
    else if opcode == 0x19 then 1208
    else if opcode == 0x1A then 1541
    else if opcode == 0x1B then 1363
    else if opcode == 0x1C then 1303
    else 1288
  }

  function ArithmeticFingerprint(opcode: byte): int {
    if opcode == 0x20 then 1370
    else if opcode == 0x21 then 1336
    else if opcode == 0x22 then 597
    else if opcode == 0x23 then 698
    else if opcode == 0x24 then 464
    else if opcode == 0x25 then 449
    else if opcode == 0x26 then 439
    else if opcode == 0x27 then 424
    else if opcode == 0x28 then 692
    else if opcode == 0x29 then 714
    else if opcode == 0x2A then 606
    else 712
  }

  function FlowFingerprint(opcode: byte): int {
    if opcode == 0x2C then 687
    else if opcode == 0x2D then 460
    else if opcode == 0x2E then 718
    else if opcode == 0x2F then 1112
    else 1052
  }

  function TimerFingerprint(opcode: byte): int {
    if opcode == 0x31 then 1497
    else if opcode == 0x32 then 1440
    else if opcode == 0x33 then 1494
    else if opcode == 0x34 then 1456
    else if opcode == 0x35 then 1459
    else if opcode == 0x36 then 1473
    else if opcode == 0x37 then 1416
    else if opcode == 0x38 then 1470
    else if opcode == 0x39 then 1438
    else if opcode == 0x3A then 1451
    else 1476
  }

  function CounterFingerprint(opcode: byte): int {
    if opcode == 0x3C then 1493
    else if opcode == 0x3D then 1381
    else if opcode == 0x3E then 1372
    else if opcode == 0x3F then 1435
    else if opcode == 0x40 then 1442
    else if opcode == 0x41 then 1330
    else if opcode == 0x42 then 1321
    else 1384
  }

  function CompareFingerprint(opcode: byte): int {
    if opcode == 0x44 then 662
    else if opcode == 0x45 then 635
    else if opcode == 0x46 then 678
    else if opcode == 0x47 then 633
    else if opcode == 0x48 then 673
    else 628
  }

  function ConvertFingerprint(opcode: byte): int {
    if opcode == 0x4A then 1517
    else if opcode == 0x4B then 1574
    else if opcode == 0x4C then 1467
    else if opcode == 0x4D then 1455
    else if opcode == 0x4E then 1480
    else if opcode == 0x4F then 1420
    else if opcode == 0x50 then 619
    else if opcode == 0x51 then 688
    else if opcode == 0x52 then 682
    else 637
  }

  lemma StackWords(opcode: byte)
    requires 0x00 <= opcode <= 0x0C
    ensures Fingerprint(StackMnemonic(opcode)) == StackFingerprint(opcode)
    ensures EntryWith(StackFingerprint(opcode)) == Entry(StackMnemonic(opcode), Instruction(opcode))
  {
    hide IsWord;
  }

  lemma PointWords(opcode: byte)
    requires 0x10 <= opcode <= 0x1D
    ensures Fingerprint(PointMnemonic(opcode)) == PointFingerprint(opcode)
    ensures EntryWith(PointFingerprint(opcode)) == Entry(PointMnemonic(opcode), Instruction(opcode))
  {
    hide IsWord;
  }

  lemma ArithmeticWords(opcode: byte)
    requires 0x20 <= opcode <= 0x2B
    ensures Fingerprint(ArithmeticMnemonic(opcode)) == ArithmeticFingerprint(opcode)
    ensures EntryWith(ArithmeticFingerprint(opcode)) == Entry(ArithmeticMnemonic(opcode), Instruction(opcode))
  {
    hide IsWord;
  }

  lemma FlowWords(opcode: byte)
    requires 0x2C <= opcode <= 0x30
    ensures Fingerprint(FlowMnemonic(opcode)) == FlowFingerprint(opcode)
    ensures EntryWith(FlowFingerprint(opcode)) == Entry(FlowMnemonic(opcode), Instruction(opcode))
  {
    hide IsWord;
  }

  lemma TimerWords(opcode: byte)
    requires 0x31 <= opcode <= 0x3B
    ensures Fingerprint(TimerMnemonic(opcode)) == TimerFingerprint(opcode)
    ensures EntryWith(TimerFingerprint(opcode)) == Entry(TimerMnemonic(opcode), Instruction(opcode))
  {
    hide IsWord;
  }

  lemma CounterWords(opcode: byte)
    requires 0x3C <= opcode <= 0x43
    ensures Fingerprint(CounterMnemonic(opcode)) == CounterFingerprint(opcode)
    ensures EntryWith(CounterFingerprint(opcode)) == Entry(CounterMnemonic(opcode), Instruction(opcode))
  {
    hide IsWord;
  }

  lemma CompareWords(opcode: byte)
    requires 0x44 <= opcode <= 0x49
    ensures Fingerprint(CompareMnemonic(opcode)) == CompareFingerprint(opcode)
    ensures EntryWith(CompareFingerprint(opcode)) == Entry(CompareMnemonic(opcode), Instruction(opcode))
  {
    hide IsWord;
  }

  lemma ConvertWords(opcode: byte)
    requires 0x4A <= opcode <= 0x53
    ensures Fingerprint(ConvertMnemonic(opcode)) == ConvertFingerprint(opcode)
    ensures EntryWith(ConvertFingerprint(opcode)) == Entry(ConvertMnemonic(opcode), Instruction(opcode))
  {
    hide IsWord;
  }

  lemma OtherWords()
    ensures EntryWith(Fingerprint("CONST")) == Entry("CONST", CONST) && EntryWith(Fingerprint("DB")) == Entry("DB", DB)
    ensures EntryWith(Fingerprint("PARAM")) == Entry("PARAM", PARAM) && EntryWith(Fingerprint("VAR")) == Entry("VAR", VAR)
  {
  }

  /** The six words the disassembler does not print. */
  predicate IsAlias(word: string, opcode: byte) {
    || (opcode == 0x10 && (word == "LB" || word == "LOAD_POINT_BOOL"))
    || (opcode == 0x11 && (word == "SB" || word == "STORE_POINT_BOOL"))
    || (opcode == 0x20 && word == "INC")
    || (opcode == 0x21 && word == "DEC")
  }

  lemma AliasWords(word: string, opcode: byte)
    requires IsAlias(word, opcode)
    ensures IsWord(word) && EntryWith(Fingerprint(word)) == Entry(word, Instruction(opcode))
  {
  }

  lemma MnemonicIsWord(opcode: byte)
    requires IsInstruction(opcode)
    ensures IsWord(Mnemonic(opcode))
    ensures EntryWith(Fingerprint(Mnemonic(opcode))) == Entry(Mnemonic(opcode), Instruction(opcode))
  {
    hide StackMnemonic;
    hide StackFingerprint;
    hide PointMnemonic;
    hide PointFingerprint;
    hide ArithmeticMnemonic;
    hide ArithmeticFingerprint;
    hide TimerMnemonic;
    hide TimerFingerprint;
    hide CounterMnemonic;
    hide CounterFingerprint;
    hide FlowMnemonic;
    hide FlowFingerprint;
    hide CompareMnemonic;
    hide CompareFingerprint;
    hide ConvertMnemonic;
    hide ConvertFingerprint;
    hide EntryWith;
    hide Fingerprint;
    hide IsWord;
    if opcode <= 0x0C {
      StackWords(opcode);
    } else if opcode <= 0x1D {
      PointWords(opcode);
    } else if opcode <= 0x2B {
      ArithmeticWords(opcode);
    } else if opcode <= 0x30 {
      FlowWords(opcode);
    } else if opcode <= 0x3B {
      TimerWords(opcode);
    } else if opcode <= 0x43 {
      CounterWords(opcode);
    } else if opcode <= 0x49 {
      CompareWords(opcode);
    } else {
      ConvertWords(opcode);
    }
  }

  lemma UpperWord(word: string)
    requires IsWord(word)
    ensures Upper(word) == word
  {
  }

  // One switch inverts the other, part by part

  lemma StackInverse(opcode: byte)
    requires 0x00 <= opcode <= 0x0C
    ensures StackWord(StackMnemonic(opcode)) == Some(opcode)
  {
    hide IsWord;
  }

  lemma StackBack(word: string)
    requires StackWord(word).Some?
    ensures word == StackMnemonic(StackWord(word).value)
  {
    hide IsWord;
  }

  lemma PointInverse(opcode: byte)
    requires 0x10 <= opcode <= 0x1D
    ensures PointWord(PointMnemonic(opcode)) == Some(opcode)
  {
    hide IsWord;
  }

  lemma PointBack(word: string)
    requires PointWord(word).Some?
    ensures word == PointMnemonic(PointWord(word).value) || IsAlias(word, PointWord(word).value)
  {
    hide IsWord;
  }

  lemma ArithmeticInverse(opcode: byte)
    requires 0x20 <= opcode <= 0x2B
    ensures ArithmeticWord(ArithmeticMnemonic(opcode)) == Some(opcode)
  {
    hide IsWord;
  }

  lemma ArithmeticBack(word: string)
    requires ArithmeticWord(word).Some?
    ensures word == ArithmeticMnemonic(ArithmeticWord(word).value) || IsAlias(word, ArithmeticWord(word).value)
  {
    hide IsWord;
  }

  lemma FlowInverse(opcode: byte)
    requires 0x2C <= opcode <= 0x30
    ensures FlowWord(FlowMnemonic(opcode)) == Some(opcode)
  {
    hide IsWord;
  }

  lemma FlowBack(word: string)
    requires FlowWord(word).Some?
    ensures word == FlowMnemonic(FlowWord(word).value)
  {
    hide IsWord;
  }

  lemma TimerInverse(opcode: byte)
    requires 0x31 <= opcode <= 0x3B
    ensures TimerWord(TimerMnemonic(opcode)) == Some(opcode)
  {
    hide IsWord;
  }

  lemma TimerBack(word: string)
    requires TimerWord(word).Some?
    ensures word == TimerMnemonic(TimerWord(word).value)
  {
    hide IsWord;
  }

  lemma CounterInverse(opcode: byte)
    requires 0x3C <= opcode <= 0x43
    ensures CounterWord(CounterMnemonic(opcode)) == Some(opcode)
  {
    hide IsWord;
  }

  lemma CounterBack(word: string)
    requires CounterWord(word).Some?
    ensures word == CounterMnemonic(CounterWord(word).value)
  {
    hide IsWord;
  }

  lemma CompareInverse(opcode: byte)
    requires 0x44 <= opcode <= 0x49
    ensures CompareWord(CompareMnemonic(opcode)) == Some(opcode)
  {
    hide IsWord;
  }

  lemma CompareBack(word: string)
    requires CompareWord(word).Some?
    ensures word == CompareMnemonic(CompareWord(word).value)
  {
    hide IsWord;
  }

  lemma ConvertInverse(opcode: byte)
    requires 0x4A <= opcode <= 0x53
    ensures ConvertWord(ConvertMnemonic(opcode)) == Some(opcode)
  {
    hide IsWord;
  }

  lemma ConvertBack(word: string)
    requires ConvertWord(word).Some?
    ensures word == ConvertMnemonic(ConvertWord(word).value)
  {
    hide IsWord;
  }

  lemma InstructionIsMnemonic(word: string)
    requires InstructionOf(word).Some?
    ensures word == Mnemonic(InstructionOf(word).value) || IsAlias(word, InstructionOf(word).value)
  {
    hide StackWord, PointWord, ArithmeticWord, FlowWord, TimerWord, CounterWord, CompareWord, ConvertWord, IsAlias;
    hide StackMnemonic, PointMnemonic, ArithmeticMnemonic, FlowMnemonic, TimerMnemonic, CounterMnemonic,
         CompareMnemonic, ConvertMnemonic;
    if StackWord(word).Some? {
      StackBack(word);
    } else if PointWord(word).Some? {
      PointBack(word);
    } else if ArithmeticWord(word).Some? {
      ArithmeticBack(word);
    } else if FlowWord(word).Some? {
      FlowBack(word);
    } else if TimerWord(word).Some? {
      TimerBack(word);
    } else if CounterWord(word).Some? {
      CounterBack(word);
    } else if CompareWord(word).Some? {
      CompareBack(word);
    } else {
      ConvertBack(word);
    }
  }

  /** A word the assembler takes for an instruction is found by its fingerprint. */
  lemma InstructionIsEntry(word: string)
    requires InstructionOf(word).Some?
    ensures IsWord(word) && EntryWith(Fingerprint(word)) == Entry(word, Instruction(InstructionOf(word).value))
  {
    hide InstructionOf, EntryWith, Fingerprint, IsWord, IsAlias, Mnemonic;
    InstructionIsMnemonic(word);
    var opcode := InstructionOf(word).value;
    if IsAlias(word, opcode) {
      AliasWords(word, opcode);
    } else {
      MnemonicIsWord(opcode);
    }
  }

  lemma WordIsRead(word: string, opcode: byte)
    requires IsWord(word) && EntryWith(Fingerprint(word)) == Entry(word, Instruction(opcode)) && InstructionOf(word).Some?
    ensures KeywordOf(word) == Some(Instruction(opcode))
  {
    UpperWord(word);
    InstructionIsEntry(word);
    OtherWords();
    hide EntryWith, Fingerprint, InstructionOf, IsWord, Upper;
  }

  lemma DeclarationWords()
    ensures KeywordOf("CONST") == Some(CONST) && KeywordOf("PARAM") == Some(PARAM) && KeywordOf("VAR") == Some(VAR)
    ensures KeywordOf("DB") == Some(DB)
  {
    UpperWord("CONST");
    UpperWord("PARAM");
    UpperWord("VAR");
    UpperWord("DB");
    hide InstructionOf;
  }

  lemma MnemonicIsInstruction(opcode: byte)
    requires IsInstruction(opcode)
    ensures InstructionOf(Mnemonic(opcode)).Some?
  {
    hide StackWord, PointWord, ArithmeticWord, FlowWord, TimerWord, CounterWord, CompareWord, ConvertWord;
    hide StackMnemonic, PointMnemonic, ArithmeticMnemonic, FlowMnemonic, TimerMnemonic, CounterMnemonic,
         CompareMnemonic, ConvertMnemonic;
    if opcode <= 0x0C {
      StackInverse(opcode);
    } else if opcode <= 0x1D {
      PointInverse(opcode);
    } else if opcode <= 0x2B {
      ArithmeticInverse(opcode);
    } else if opcode <= 0x30 {
      FlowInverse(opcode);
    } else if opcode <= 0x3B {
      TimerInverse(opcode);
    } else if opcode <= 0x43 {
      CounterInverse(opcode);
    } else if opcode <= 0x49 {
      CompareInverse(opcode);
    } else {
      ConvertInverse(opcode);
    }
  }

  /** The disassembler's switch inverts the assembler's: each instruction is read from the word that is printed
      for it. */
  lemma KeywordOfMnemonic(opcode: byte)
    requires IsInstruction(opcode)
    ensures KeywordOf(Mnemonic(opcode)) == Some(Instruction(opcode))
  {
    hide Mnemonic, KeywordOf, InstructionOf, EntryWith, Fingerprint, IsWord;
    MnemonicIsWord(opcode);
    MnemonicIsInstruction(opcode);
    WordIsRead(Mnemonic(opcode), opcode);
  }

  lemma AliasIsInstruction(word: string, opcode: byte)
    requires IsAlias(word, opcode)
    ensures InstructionOf(word).Some?
  {
    hide StackWord, FlowWord, TimerWord, CounterWord, CompareWord, ConvertWord;
  }

  lemma KeywordOfAlias(word: string, opcode: byte)
    requires IsAlias(word, opcode)
    ensures KeywordOf(word) == Some(Instruction(opcode))
  {
    hide IsAlias, KeywordOf, InstructionOf, EntryWith, Fingerprint, IsWord;
    AliasWords(word, opcode);
    AliasIsInstruction(word, opcode);
    WordIsRead(word, opcode);
  }

  lemma KeywordIsInstruction(token: string, opcode: byte)
    requires KeywordOf(token) == Some(Instruction(opcode))
    ensures InstructionOf(Upper(token)) == Some(opcode)
  {
    hide InstructionOf, Upper;
  }

  /** And the other way round, up to case and the six other words. */
  lemma MnemonicOfKeyword(token: string, opcode: byte)
    requires KeywordOf(token) == Some(Instruction(opcode))
    ensures
      || Upper(token) == Mnemonic(opcode)
      || (opcode == 0x10 && (Upper(token) == "LB" || Upper(token) == "LOAD_POINT_BOOL"))
      || (opcode == 0x11 && (Upper(token) == "SB" || Upper(token) == "STORE_POINT_BOOL"))
      || (opcode == 0x20 && Upper(token) == "INC")
      || (opcode == 0x21 && Upper(token) == "DEC")
  {
    KeywordIsInstruction(token, opcode);
    hide KeywordOf, InstructionOf, Mnemonic, Upper;
    InstructionIsMnemonic(Upper(token));
  }

  // The instruction set, in words, opcodes and operands

  /** The assembler reads the word as the opcode, which takes the operands. */
  predicate Stands(word: string, opcode: byte, operands: seq<Operand>) {
    KeywordOf(word) == Some(Instruction(opcode)) && OperandsOf(opcode) == operands
  }

  /** The six other words, read. */
  lemma AliasesRead()
    ensures KeywordOf("LB") == Some(Instruction(0x10)) && KeywordOf("LOAD_POINT_BOOL") == Some(Instruction(0x10))
    ensures KeywordOf("SB") == Some(Instruction(0x11)) && KeywordOf("STORE_POINT_BOOL") == Some(Instruction(0x11))
    ensures KeywordOf("INC") == Some(Instruction(0x20)) && KeywordOf("DEC") == Some(Instruction(0x21))
  {
    hide KeywordOf;
    KeywordOfAlias("LB", 0x10);
    KeywordOfAlias("LOAD_POINT_BOOL", 0x10);
    KeywordOfAlias("SB", 0x11);
    KeywordOfAlias("STORE_POINT_BOOL", 0x11);
    KeywordOfAlias("INC", 0x20);
    KeywordOfAlias("DEC", 0x21);
  }

  lemma StackPrinted()
    ensures Mnemonic(0x00) == "HALT"
    ensures Mnemonic(0x01) == "NOP"
    ensures Mnemonic(0x02) == "PUSH_TRUE"
    ensures Mnemonic(0x03) == "PUSH_FALSE"
    ensures Mnemonic(0x04) == "DUP"
    ensures Mnemonic(0x05) == "DROP"
    ensures Mnemonic(0x06) == "SWAP"
    ensures Mnemonic(0x07) == "AND"
    ensures Mnemonic(0x08) == "OR"
    ensures Mnemonic(0x09) == "XOR"
    ensures Mnemonic(0x0A) == "NOT"
    ensures Mnemonic(0x0B) == "EQ"
    ensures Mnemonic(0x0C) == "NE"
  {
    hide IsWord;
  }

  lemma StackOperands()
    ensures forall opcode: byte | 0x00 <= opcode <= 0x0C :: OperandsOf(opcode) == []
  {
  }

  /** Constants, stack and logic. */
  lemma StackSet()
    ensures Stands("HALT", 0x00, [])
    ensures Stands("NOP", 0x01, [])
    ensures Stands("PUSH_TRUE", 0x02, [])
    ensures Stands("PUSH_FALSE", 0x03, [])
    ensures Stands("DUP", 0x04, [])
    ensures Stands("DROP", 0x05, [])
    ensures Stands("SWAP", 0x06, [])
    ensures Stands("AND", 0x07, [])
    ensures Stands("OR", 0x08, [])
    ensures Stands("XOR", 0x09, [])
    ensures Stands("NOT", 0x0A, [])
    ensures Stands("EQ", 0x0B, [])
    ensures Stands("NE", 0x0C, [])
  {
    hide KeywordOf, Mnemonic, OperandsOf;
    StackPrinted();
    StackOperands();
    KeywordOfMnemonic(0x00);
    KeywordOfMnemonic(0x01);
    KeywordOfMnemonic(0x02);
    KeywordOfMnemonic(0x03);
    KeywordOfMnemonic(0x04);
    KeywordOfMnemonic(0x05);
    KeywordOfMnemonic(0x06);
    KeywordOfMnemonic(0x07);
    KeywordOfMnemonic(0x08);
    KeywordOfMnemonic(0x09);
    KeywordOfMnemonic(0x0A);
    KeywordOfMnemonic(0x0B);
    KeywordOfMnemonic(0x0C);
  }

  lemma PointPrinted()
    ensures Mnemonic(0x10) == "LOAD_BOOL"
    ensures Mnemonic(0x11) == "STORE_BOOL"
    ensures Mnemonic(0x12) == "LOAD_I16"
    ensures Mnemonic(0x13) == "STORE_I16"
    ensures Mnemonic(0x14) == "PUSH_I16"
    ensures Mnemonic(0x15) == "LOAD_U32"
    ensures Mnemonic(0x16) == "STORE_U32"
    ensures Mnemonic(0x17) == "LOAD_I32"
    ensures Mnemonic(0x18) == "STORE_I32"
    ensures Mnemonic(0x19) == "LOAD_F32"
    ensures Mnemonic(0x1A) == "STORE_F32"
    ensures Mnemonic(0x1B) == "PUSH_U32"
    ensures Mnemonic(0x1C) == "PUSH_I32"
    ensures Mnemonic(0x1D) == "PUSH_F32"
  {
    hide IsWord;
  }

  lemma PointOperands()
    ensures OperandsOf(0x10) == [PointOffset(TYPE_BOOL, ACCESS_READ)]
    ensures OperandsOf(0x11) == [PointOffset(TYPE_BOOL, ACCESS_WRITE)]
    ensures OperandsOf(0x12) == [PointOffset(TYPE_INT16, ACCESS_READ)]
    ensures OperandsOf(0x13) == [PointOffset(TYPE_INT16, ACCESS_WRITE)]
    ensures OperandsOf(0x14) == [Int16Literal]
    ensures OperandsOf(0x15) == [PointOffset(TYPE_UINT32, ACCESS_READ)]
    ensures OperandsOf(0x16) == [PointOffset(TYPE_UINT32, ACCESS_WRITE)]
    ensures OperandsOf(0x17) == [PointOffset(TYPE_INT32, ACCESS_READ)]
    ensures OperandsOf(0x18) == [PointOffset(TYPE_INT32, ACCESS_WRITE)]
    ensures OperandsOf(0x19) == [PointOffset(TYPE_FLOAT, ACCESS_READ)]
    ensures OperandsOf(0x1A) == [PointOffset(TYPE_FLOAT, ACCESS_WRITE)]
    ensures OperandsOf(0x1B) == [UInt32Literal]
    ensures OperandsOf(0x1C) == [Int32Literal]
    ensures OperandsOf(0x1D) == [Float32Literal]
  {
  }

  /** Loads, stores and literals. */
  lemma PointSet()
    ensures Stands("LOAD_BOOL", 0x10, [PointOffset(TYPE_BOOL, ACCESS_READ)])
    ensures Stands("LOAD_POINT_BOOL", 0x10, [PointOffset(TYPE_BOOL, ACCESS_READ)])
    ensures Stands("LB", 0x10, [PointOffset(TYPE_BOOL, ACCESS_READ)])
    ensures Stands("STORE_BOOL", 0x11, [PointOffset(TYPE_BOOL, ACCESS_WRITE)])
    ensures Stands("STORE_POINT_BOOL", 0x11, [PointOffset(TYPE_BOOL, ACCESS_WRITE)])
    ensures Stands("SB", 0x11, [PointOffset(TYPE_BOOL, ACCESS_WRITE)])
    ensures Stands("LOAD_I16", 0x12, [PointOffset(TYPE_INT16, ACCESS_READ)])
    ensures Stands("STORE_I16", 0x13, [PointOffset(TYPE_INT16, ACCESS_WRITE)])
    ensures Stands("PUSH_I16", 0x14, [Int16Literal])
    ensures Stands("LOAD_U32", 0x15, [PointOffset(TYPE_UINT32, ACCESS_READ)])
    ensures Stands("STORE_U32", 0x16, [PointOffset(TYPE_UINT32, ACCESS_WRITE)])
    ensures Stands("LOAD_I32", 0x17, [PointOffset(TYPE_INT32, ACCESS_READ)])
    ensures Stands("STORE_I32", 0x18, [PointOffset(TYPE_INT32, ACCESS_WRITE)])
    ensures Stands("LOAD_F32", 0x19, [PointOffset(TYPE_FLOAT, ACCESS_READ)])
    ensures Stands("STORE_F32", 0x1A, [PointOffset(TYPE_FLOAT, ACCESS_WRITE)])
    ensures Stands("PUSH_U32", 0x1B, [UInt32Literal])
    ensures Stands("PUSH_I32", 0x1C, [Int32Literal])
    ensures Stands("PUSH_F32", 0x1D, [Float32Literal])
  {
    hide KeywordOf, Mnemonic, OperandsOf;
    PointPrinted();
    AliasesRead();
    PointOperands();
    KeywordOfMnemonic(0x10);
    KeywordOfMnemonic(0x11);
    KeywordOfMnemonic(0x12);
    KeywordOfMnemonic(0x13);
    KeywordOfMnemonic(0x14);
    KeywordOfMnemonic(0x15);
    KeywordOfMnemonic(0x16);
    KeywordOfMnemonic(0x17);
    KeywordOfMnemonic(0x18);
    KeywordOfMnemonic(0x19);
    KeywordOfMnemonic(0x1A);
    KeywordOfMnemonic(0x1B);
    KeywordOfMnemonic(0x1C);
    KeywordOfMnemonic(0x1D);
  }

  lemma ArithmeticPrinted()
    ensures Mnemonic(0x20) == "INC_INT"
    ensures Mnemonic(0x21) == "DEC_INT"
    ensures Mnemonic(0x22) == "ADD"
    ensures Mnemonic(0x23) == "SUB"
    ensures Mnemonic(0x24) == "LT"
    ensures Mnemonic(0x25) == "LE"
    ensures Mnemonic(0x26) == "GT"
    ensures Mnemonic(0x27) == "GE"
    ensures Mnemonic(0x28) == "MIN"
    ensures Mnemonic(0x29) == "MAX"
    ensures Mnemonic(0x2A) == "CLAMP"
    ensures Mnemonic(0x2B) == "SEL"
  {
    hide IsWord;
  }

  lemma ArithmeticOperands()
    ensures OperandsOf(0x20) == [PointOffset(TYPE_INT16, ACCESS_READ_WRITE)]
    ensures OperandsOf(0x21) == [PointOffset(TYPE_INT16, ACCESS_READ_WRITE)]
    ensures OperandsOf(0x22) == []
    ensures OperandsOf(0x23) == []
    ensures OperandsOf(0x24) == []
    ensures OperandsOf(0x25) == []
    ensures OperandsOf(0x26) == []
    ensures OperandsOf(0x27) == []
    ensures OperandsOf(0x28) == []
    ensures OperandsOf(0x29) == []
    ensures OperandsOf(0x2A) == []
    ensures OperandsOf(0x2B) == []
  {
  }

  /** Arithmetic and comparison. */
  lemma ArithmeticSet()
    ensures Stands("INC_INT", 0x20, [PointOffset(TYPE_INT16, ACCESS_READ_WRITE)])
    ensures Stands("INC", 0x20, [PointOffset(TYPE_INT16, ACCESS_READ_WRITE)])
    ensures Stands("DEC_INT", 0x21, [PointOffset(TYPE_INT16, ACCESS_READ_WRITE)])
    ensures Stands("DEC", 0x21, [PointOffset(TYPE_INT16, ACCESS_READ_WRITE)])
    ensures Stands("ADD", 0x22, [])
    ensures Stands("SUB", 0x23, [])
    ensures Stands("LT", 0x24, [])
    ensures Stands("LE", 0x25, [])
    ensures Stands("GT", 0x26, [])
    ensures Stands("GE", 0x27, [])
    ensures Stands("MIN", 0x28, [])
    ensures Stands("MAX", 0x29, [])
    ensures Stands("CLAMP", 0x2A, [])
    ensures Stands("SEL", 0x2B, [])
  {
    hide KeywordOf, Mnemonic, OperandsOf;
    ArithmeticPrinted();
    AliasesRead();
    ArithmeticOperands();
    KeywordOfMnemonic(0x20);
    KeywordOfMnemonic(0x21);
    KeywordOfMnemonic(0x22);
    KeywordOfMnemonic(0x23);
    KeywordOfMnemonic(0x24);
    KeywordOfMnemonic(0x25);
    KeywordOfMnemonic(0x26);
    KeywordOfMnemonic(0x27);
    KeywordOfMnemonic(0x28);
    KeywordOfMnemonic(0x29);
    KeywordOfMnemonic(0x2A);
    KeywordOfMnemonic(0x2B);
  }

  lemma FlowPrinted()
    ensures Mnemonic(0x2C) == "JMP"
    ensures Mnemonic(0x2D) == "JZ"
    ensures Mnemonic(0x2E) == "JNZ"
    ensures Mnemonic(0x2F) == "R_TRIG"
    ensures Mnemonic(0x30) == "F_TRIG"
  {
    hide IsWord;
  }

  lemma FlowOperands()
    ensures OperandsOf(0x2C) == [BranchTarget]
    ensures OperandsOf(0x2D) == [BranchTarget]
    ensures OperandsOf(0x2E) == [BranchTarget]
    ensures OperandsOf(0x2F) == [PointIndex(TYPE_BOOL, ACCESS_READ)]
    ensures OperandsOf(0x30) == [PointIndex(TYPE_BOOL, ACCESS_READ)]
  {
  }

  /** Branches and triggers. */
  lemma FlowSet()
    ensures Stands("JMP", 0x2C, [BranchTarget])
    ensures Stands("JZ", 0x2D, [BranchTarget])
    ensures Stands("JNZ", 0x2E, [BranchTarget])
    ensures Stands("R_TRIG", 0x2F, [PointIndex(TYPE_BOOL, ACCESS_READ)])
    ensures Stands("F_TRIG", 0x30, [PointIndex(TYPE_BOOL, ACCESS_READ)])
  {
    hide KeywordOf, Mnemonic, OperandsOf;
    FlowPrinted();
    FlowOperands();
    KeywordOfMnemonic(0x2C);
    KeywordOfMnemonic(0x2D);
    KeywordOfMnemonic(0x2E);
    KeywordOfMnemonic(0x2F);
    KeywordOfMnemonic(0x30);
  }

  lemma TimerPrinted()
    ensures Mnemonic(0x31) == "TON_START"
    ensures Mnemonic(0x32) == "TON_DONE"
    ensures Mnemonic(0x33) == "TON_RESET"
    ensures Mnemonic(0x34) == "TON_ELAPSED"
    ensures Mnemonic(0x35) == "TON_REMAINING"
    ensures Mnemonic(0x36) == "TOF_START"
    ensures Mnemonic(0x37) == "TOF_DONE"
    ensures Mnemonic(0x38) == "TOF_RESET"
    ensures Mnemonic(0x39) == "TP_START"
    ensures Mnemonic(0x3A) == "TP_DONE"
    ensures Mnemonic(0x3B) == "TP_RESET"
  {
    hide IsWord;
  }

  lemma TimerOperands()
    ensures OperandsOf(0x31) == [UInt16Literal, UInt32Literal]
    ensures OperandsOf(0x32) == [UInt16Literal]
    ensures OperandsOf(0x33) == [UInt16Literal]
    ensures OperandsOf(0x34) == [UInt16Literal]
    ensures OperandsOf(0x35) == [UInt16Literal]
    ensures OperandsOf(0x36) == [UInt16Literal, UInt32Literal]
    ensures OperandsOf(0x37) == [UInt16Literal]
    ensures OperandsOf(0x38) == [UInt16Literal]
    ensures OperandsOf(0x39) == [UInt16Literal, UInt32Literal]
    ensures OperandsOf(0x3A) == [UInt16Literal]
    ensures OperandsOf(0x3B) == [UInt16Literal]
  {
  }

  /** Timers. */
  lemma TimerSet()
    ensures Stands("TON_START", 0x31, [UInt16Literal, UInt32Literal])
    ensures Stands("TON_DONE", 0x32, [UInt16Literal])
    ensures Stands("TON_RESET", 0x33, [UInt16Literal])
    ensures Stands("TON_ELAPSED", 0x34, [UInt16Literal])
    ensures Stands("TON_REMAINING", 0x35, [UInt16Literal])
    ensures Stands("TOF_START", 0x36, [UInt16Literal, UInt32Literal])
    ensures Stands("TOF_DONE", 0x37, [UInt16Literal])
    ensures Stands("TOF_RESET", 0x38, [UInt16Literal])
    ensures Stands("TP_START", 0x39, [UInt16Literal, UInt32Literal])
    ensures Stands("TP_DONE", 0x3A, [UInt16Literal])
    ensures Stands("TP_RESET", 0x3B, [UInt16Literal])
  {
    hide KeywordOf, Mnemonic, OperandsOf;
    TimerPrinted();
    TimerOperands();
    KeywordOfMnemonic(0x31);
    KeywordOfMnemonic(0x32);
    KeywordOfMnemonic(0x33);
    KeywordOfMnemonic(0x34);
    KeywordOfMnemonic(0x35);
    KeywordOfMnemonic(0x36);
    KeywordOfMnemonic(0x37);
    KeywordOfMnemonic(0x38);
    KeywordOfMnemonic(0x39);
    KeywordOfMnemonic(0x3A);
    KeywordOfMnemonic(0x3B);
  }

  lemma CounterPrinted()
    ensures Mnemonic(0x3C) == "CTU_COUNT"
    ensures Mnemonic(0x3D) == "CTU_DONE"
    ensures Mnemonic(0x3E) == "CTU_VALUE"
    ensures Mnemonic(0x3F) == "CTU_RESET"
    ensures Mnemonic(0x40) == "CTD_COUNT"
    ensures Mnemonic(0x41) == "CTD_DONE"
    ensures Mnemonic(0x42) == "CTD_VALUE"
    ensures Mnemonic(0x43) == "CTD_RESET"
  {
    hide IsWord;
  }

  lemma CounterOperands()
    ensures OperandsOf(0x3C) == [UInt16Literal, Int16Literal]
    ensures OperandsOf(0x3D) == [UInt16Literal]
    ensures OperandsOf(0x3E) == [UInt16Literal]
    ensures OperandsOf(0x3F) == [UInt16Literal]
    ensures OperandsOf(0x40) == [UInt16Literal, Int16Literal]
    ensures OperandsOf(0x41) == [UInt16Literal]
    ensures OperandsOf(0x42) == [UInt16Literal]
    ensures OperandsOf(0x43) == [UInt16Literal]
  {
  }

  /** Counters. */
  lemma CounterSet()
    ensures Stands("CTU_COUNT", 0x3C, [UInt16Literal, Int16Literal])
    ensures Stands("CTU_DONE", 0x3D, [UInt16Literal])
    ensures Stands("CTU_VALUE", 0x3E, [UInt16Literal])
    ensures Stands("CTU_RESET", 0x3F, [UInt16Literal])
    ensures Stands("CTD_COUNT", 0x40, [UInt16Literal, Int16Literal])
    ensures Stands("CTD_DONE", 0x41, [UInt16Literal])
    ensures Stands("CTD_VALUE", 0x42, [UInt16Literal])
    ensures Stands("CTD_RESET", 0x43, [UInt16Literal])
  {
    hide KeywordOf, Mnemonic, OperandsOf;
    CounterPrinted();
    CounterOperands();
    KeywordOfMnemonic(0x3C);
    KeywordOfMnemonic(0x3D);
    KeywordOfMnemonic(0x3E);
    KeywordOfMnemonic(0x3F);
    KeywordOfMnemonic(0x40);
    KeywordOfMnemonic(0x41);
    KeywordOfMnemonic(0x42);
    KeywordOfMnemonic(0x43);
  }

  lemma ComparePrinted()
    ensures Mnemonic(0x44) == "FEQ"
    ensures Mnemonic(0x45) == "FNE"
    ensures Mnemonic(0x46) == "FLT"
    ensures Mnemonic(0x47) == "FLE"
    ensures Mnemonic(0x48) == "FGT"
    ensures Mnemonic(0x49) == "FGE"
  {
    hide IsWord;
  }

  lemma CompareOperands()
    ensures forall opcode: byte | 0x44 <= opcode <= 0x49 :: OperandsOf(opcode) == []
  {
  }

  /** Comparison of floats. */
  lemma CompareSet()
    ensures Stands("FEQ", 0x44, [])
    ensures Stands("FNE", 0x45, [])
    ensures Stands("FLT", 0x46, [])
    ensures Stands("FLE", 0x47, [])
    ensures Stands("FGT", 0x48, [])
    ensures Stands("FGE", 0x49, [])
  {
    hide KeywordOf, Mnemonic, OperandsOf;
    ComparePrinted();
    CompareOperands();
    KeywordOfMnemonic(0x44);
    KeywordOfMnemonic(0x45);
    KeywordOfMnemonic(0x46);
    KeywordOfMnemonic(0x47);
    KeywordOfMnemonic(0x48);
    KeywordOfMnemonic(0x49);
  }

  lemma ConvertPrinted()
    ensures Mnemonic(0x4A) == "SX_I16_TO_I32"
    ensures Mnemonic(0x4B) == "TRUNC_I32_TO_I16"
    ensures Mnemonic(0x4C) == "BOOL_TO_U32"
    ensures Mnemonic(0x4D) == "BOOL_TO_I32"
    ensures Mnemonic(0x4E) == "U32_TO_BOOL"
    ensures Mnemonic(0x4F) == "I32_TO_BOOL"
    ensures Mnemonic(0x50) == "FADD"
    ensures Mnemonic(0x51) == "FSUB"
    ensures Mnemonic(0x52) == "FMUL"
    ensures Mnemonic(0x53) == "FDIV"
  {
    hide IsWord;
  }

  lemma ConvertOperands()
    ensures forall opcode: byte | 0x4A <= opcode <= 0x53 :: OperandsOf(opcode) == []
  {
  }

  /** Conversions and float arithmetic. */
  lemma ConvertSet()
    ensures Stands("SX_I16_TO_I32", 0x4A, [])
    ensures Stands("TRUNC_I32_TO_I16", 0x4B, [])
    ensures Stands("BOOL_TO_U32", 0x4C, [])
    ensures Stands("BOOL_TO_I32", 0x4D, [])
    ensures Stands("U32_TO_BOOL", 0x4E, [])
    ensures Stands("I32_TO_BOOL", 0x4F, [])
    ensures Stands("FADD", 0x50, [])
    ensures Stands("FSUB", 0x51, [])
    ensures Stands("FMUL", 0x52, [])
    ensures Stands("FDIV", 0x53, [])
  {
    hide KeywordOf, Mnemonic, OperandsOf;
    ConvertPrinted();
    ConvertOperands();
    KeywordOfMnemonic(0x4A);
    KeywordOfMnemonic(0x4B);
    KeywordOfMnemonic(0x4C);
    KeywordOfMnemonic(0x4D);
    KeywordOfMnemonic(0x4E);
    KeywordOfMnemonic(0x4F);
    KeywordOfMnemonic(0x50);
    KeywordOfMnemonic(0x51);
    KeywordOfMnemonic(0x52);
    KeywordOfMnemonic(0x53);
  }
}
