/** Linked code and a later catalog: when it still means its source lines. */
module Staleness {
  import opened Bytes
  import opened Memory
  import opened Isa
  import opened Lexer
  import opened Code
  import opened Assembler
  import opened Meaning
  import opened Placement
  import opened ObjectFile
  import opened ObjectParser
  import opened Catalog
  import opened Linker
  import opened LinkedProgram

  /** The relocation's symbol still resolves, to the operand that was linked. */
  predicate SameOperand(context: Context, later: Context, records: seq<SymbolRecord>, r: Relocation) {
    && r.symbolIndex < |records| && PatchSize(r.kind) != 0
    && LinkOf(later, records[r.symbolIndex]).status == Resolved
    && PatchBytes(r.kind, LinkOf(later, records[r.symbolIndex])) ==
       PatchBytes(r.kind, LinkOf(context, records[r.symbolIndex]))
  }

  predicate SameOperands(context: Context, later: Context, image: Image) {
    forall k | 0 <= k < |image.relocations| :: SameOperand(context, later, image.symbols, image.relocations[k])
  }

  // The same operands give the same code

  lemma RelocateSame(context: Context, later: Context, symbols: seq<SymbolRecord>, relocation: Relocation, i: u16,
                     code: seq<byte>, report: Report)
    requires report.status == LinkOk && SameOperand(context, later, symbols, relocation)
    requires Relocate(context, symbols, relocation, i, code, report).0.status == LinkOk
    ensures Relocate(later, symbols, relocation, i, code, report) == Relocate(context, symbols, relocation, i, code, report)
  {
    hide PatchBytes, Patch, ResolveRecord, ResolveResolved;
  }

  lemma {:induction false} RelocateFromSame(context: Context, later: Context, image: Image, i: nat, code: seq<byte>,
                                            report: Report)
    requires i <= |image.relocations| <= 0xFFFF && report.status == LinkOk && SameOperands(context, later, image)
    requires RelocateFrom(context, image, i, code, report).0.status == LinkOk
    ensures RelocateFrom(later, image, i, code, report) == RelocateFrom(context, image, i, code, report)
    decreases |image.relocations| - i
  {
    hide Relocate, SameOperand;
    if i < |image.relocations| {
      RelocateSame(context, later, image.symbols, image.relocations[i], i, code, report);
      var next := Relocate(context, image.symbols, image.relocations[i], i, code, report);
      RelocateFromSame(context, later, image, i + 1, next.1, next.0);
    }
  }

  lemma LinkSame(context: Context, later: Context, image: Image, capacity: nat)
    requires |image.relocations| <= 0xFFFF && SameOperands(context, later, image)
    requires Link(context, image, capacity).0.status == LinkOk
    ensures Link(later, image, capacity) == Link(context, image, capacity)
  {
    hide SameOperands, RelocateFrom;
    RelocateFromSame(context, later, image, 0, image.code, Begin(image));
  }

  // The same code has the same operands

  /** Every relocation is that of an instruction with a point operand. */
  lemma {:induction false} RelocationFrom(program: seq<SourceInstr>, at: nat, index: map<string, nat>, k: nat)
    returns (j: nat)
    requires forall i | 0 <= i < |program| :: Shaped(program[i]) && Known(program[i], index)
    requires k < |RelocationsOf(program, at, index)|
    ensures j < |program| && UsesPoint(program[j])
    ensures
      var r := RelocationsOf(program, at, index)[k];
      r.symbolIndex == index[program[j].args[0].name] && r.kind == OperandsOf(program[j].opcode)[0].RelocationKind()
    decreases program
  {
    hide Shaped, Known, OperandsOf, SizeOf;
    var first := RelocationOf(program[0], at, index);
    FewOf(program[0], at, index);
    if k < |first| {
      OneRelocation(program[0], at, index);
      j := 0;
    } else {
      var i := RelocationFrom(program[1..], at + SizeOf(program[0].opcode), index, k - |first|);
      j := i + 1;
    }
  }

  lemma FewOf(instr: SourceInstr, at: nat, index: map<string, nat>)
    requires Shaped(instr) && Known(instr, index)
    ensures RelocationOf(instr, at, index) == [] || UsesPoint(instr)
  {
  }

  lemma OneRelocation(instr: SourceInstr, at: nat, index: map<string, nat>)
    requires Shaped(instr) && Known(instr, index) && UsesPoint(instr)
    ensures |RelocationOf(instr, at, index)| == 1
    ensures RelocationOf(instr, at, index)[0].symbolIndex == index[instr.args[0].name]
    ensures RelocationOf(instr, at, index)[0].kind == OperandsOf(instr.opcode)[0].RelocationKind()
  {
    hide OperandsOf, IsInstruction;
  }

  /** A point operand that means the same symbol in two contexts has the same value in both. */
  lemma PointDecides(name: string, operand: Operand, v: u32, next: nat, lines: seq<Line>, out: Output, i: nat,
                     context: Context, later: Context, host: Host)
    requires Indexed(out) && name in out.index && i == out.index[name] && operand.IsSymbol()
    requires ArgMeans(Arg.Point(name), operand, v, next, lines, out.symbols, context, host)
    requires ArgMeans(Arg.Point(name), operand, v, next, lines, out.symbols, later, host)
    ensures i < |out.symbols| && LinkOf(later, RecordOf(out.symbols[i])).status == Resolved
    ensures OperandValue(operand, LinkOf(context, RecordOf(out.symbols[i]))) ==
            OperandValue(operand, LinkOf(later, RecordOf(out.symbols[i])))
  {
    hide LinkOf, RecordOf, LabelOffset;
  }

  lemma SameValueSamePatch(operand: Operand, a: LinkResult, b: LinkResult)
    requires operand.IsSymbol() && OperandValue(operand, a) == OperandValue(operand, b)
    ensures PatchSize(operand.RelocationKind()) != 0
    ensures PatchBytes(operand.RelocationKind(), a) == PatchBytes(operand.RelocationKind(), b)
  {
  }

  /** The first operand of an instruction of code that means its source. */
  lemma FirstMeans(linked: seq<byte>, lines: seq<Line>, symbols: seq<Symbol>, context: Context, host: Host, j: nat)
    requires Means(linked, lines, symbols, context, host) && j < |Program(lines, host)|
    requires UsesPoint(Program(lines, host)[j])
    ensures
      var source := Program(lines, host);
      && Decode(linked, 0).Some? && j < |Decode(linked, 0).value| && |Decode(linked, 0).value[j].args| > 0
      && ArgMeans(source[j].args[0], OperandsOf(source[j].opcode)[0], Decode(linked, 0).value[j].args[0],
                  Offset(SourceOpcodes(source), j + 1), lines, symbols, context, host)
  {
    hide Program, Decode, ArgMeans, OperandsOf, Offset, SourceOpcodes, IsInstruction;
    var source, decoded := Program(lines, host), Decode(linked, 0).value;
    assert Shaped(source[j]) && Legal(decoded[j]);
    assert InstrMeans(source[j], decoded[j], Offset(SourceOpcodes(source), j + 1), lines, symbols, context, host);
  }

  lemma MeansDecides(linked: seq<byte>, lines: seq<Line>, out: Output, context: Context, later: Context, image: Image,
                     host: Host, k: nat)
    requires Indexed(out) && image.symbols == RecordsOf(out.symbols) && k < |image.relocations|
    requires AllKnown(Program(lines, host), out.index)
    requires image.relocations == RelocationsOf(Program(lines, host), 0, out.index)
    requires Means(linked, lines, out.symbols, context, host) && Means(linked, lines, out.symbols, later, host)
    ensures SameOperand(context, later, image.symbols, image.relocations[k])
  {
    hide *;
    var source := Program(lines, host);
    KnownEach(source, out.index);
    var j := RelocationFrom(source, 0, out.index, k);
    FirstMeans(linked, lines, out.symbols, context, host, j);
    FirstMeans(linked, lines, out.symbols, later, host, j);
    var instr := source[j];
    PointName(instr, out.index);
    var operand, i := OperandsOf(instr.opcode)[0], out.index[instr.args[0].name];
    PointDecides(instr.args[0].name, operand, Decode(linked, 0).value[j].args[0], Offset(SourceOpcodes(source), j + 1),
                 lines, out, i, context, later, host);
    var a, b := LinkOf(context, RecordOf(out.symbols[i])), LinkOf(later, RecordOf(out.symbols[i]));
    SameValueSamePatch(operand, a, b);
    SameOperandIs(context, later, out.symbols, image.relocations[k], i);
  }

  lemma PointName(instr: SourceInstr, index: map<string, nat>)
    requires Shaped(instr) && Known(instr, index) && UsesPoint(instr)
    ensures |instr.args| == 1 && instr.args[0] == Arg.Point(instr.args[0].name) && instr.args[0].name in index
    ensures OperandsOf(instr.opcode) != [] && OperandsOf(instr.opcode)[0].IsSymbol()
  {
    hide OperandsOf, IsInstruction;
  }

  lemma SameOperandIs(context: Context, later: Context, symbols: seq<Symbol>, r: Relocation, i: nat)
    requires i < |symbols| && r.symbolIndex == i && PatchSize(r.kind) != 0
    requires LinkOf(later, RecordOf(symbols[i])).status == Resolved
    requires PatchBytes(r.kind, LinkOf(context, RecordOf(symbols[i]))) ==
             PatchBytes(r.kind, LinkOf(later, RecordOf(symbols[i])))
    ensures SameOperand(context, later, RecordsOf(symbols), r)
  {
    hide LinkOf, RecordOf, PatchBytes;
  }

  // The exact condition

  lemma BuiltImage(source: seq<string>, lines: seq<Line>, options: Options, host: Host) returns (out: Output)
    requires Builds(source, lines, options, host)
    ensures ParseObject(ObjectOf(source, options, host)).Ok? && out.symbols == SymbolsOf(source, options, host)
    ensures Indexed(out) && AllKnown(Program(lines, host), out.index)
    ensures
      var image := ParseObject(ObjectOf(source, options, host)).value.image;
      image.symbols == RecordsOf(out.symbols) && image.relocations == RelocationsOf(Program(lines, host), 0, out.index)
  {
    hide ReadLines, AllNoData, WriteLines, LabelLines, ObjectBytes, Representable, ParseObject, RecordsOf, Placed, Indexed,
         RelocationsOf, LowerAll, EncodeAll, Shaped, AllSound, AllKnown;
    var assembly := Assemble(source, options, host).value;
    BuildThenParse(assembly, options);
    out := Final(lines, options, host);
    AssembledProgram(lines, options, host);
    FinalIndexed(lines, options, host);
  }

  /** Code linked against one catalog means its source lines against another if and only if every relocation's
      symbol still resolves to the same operand. */
  lemma MeansExactly(source: seq<string>, lines: seq<Line>, options: Options, host: Host, context: Context, later: Context,
                     capacity: nat)
    requires Builds(source, lines, options, host)
    ensures ParseObject(ObjectOf(source, options, host)).Ok?
    ensures
      var image := ParseObject(ObjectOf(source, options, host)).value.image;
      && |image.relocations| <= 0xFFFF
      && (Link(context, image, capacity).0.status == LinkOk ==>
            (Means(Link(context, image, capacity).1.value, lines, SymbolsOf(source, options, host), later, host) <==>
             SameOperands(context, later, image)))
  {
    hide *;
    LinkingPreservesProgram(source, lines, options, host, context, capacity);
    LinkingPreservesProgram(source, lines, options, host, later, capacity);
    var image := ParseObject(ObjectOf(source, options, host)).value.image;
    if Link(context, image, capacity).0.status == LinkOk {
      LinkYields(context, image, capacity);
      var linked := Link(context, image, capacity).1.value;
      if SameOperands(context, later, image) {
        LinkSame(context, later, image, capacity);
      }
      if Means(linked, lines, SymbolsOf(source, options, host), later, host) {
        var out := BuiltImage(source, lines, options, host);
        forall k | 0 <= k < |image.relocations|
          ensures SameOperand(context, later, image.symbols, image.relocations[k])
        {
          MeansDecides(linked, lines, out, context, later, image, host, k);
        }
        SameEach(context, later, image);
      }
    }
  }

  lemma LinkYields(context: Context, image: Image, capacity: nat)
    requires |image.relocations| <= 0xFFFF && Link(context, image, capacity).0.status == LinkOk
    ensures Link(context, image, capacity).1.Some?
  {
  }

  lemma SameEach(context: Context, later: Context, image: Image)
    requires forall k | 0 <= k < |image.relocations| :: SameOperand(context, later, image.symbols, image.relocations[k])
    ensures SameOperands(context, later, image)
  {
    hide SameOperand;
  }
}
