/** Linking preserves the program: the linked code decodes to the source program, each point operand
    replaced by what its symbol resolves to and each label branch reaching its label. */
module LinkedProgram {
  import opened Bytes
  import opened Memory
  import opened Isa
  import opened Lexer
  import opened Code
  import opened Assembler
  import opened Meaning
  import opened Placement
  import opened ObjectFile
  import opened ObjectParser
  import opened Catalog
  import opened Linker

  /** What a symbol record links to. */
  function LinkOf(context: Context, record: SymbolRecord): LinkResult {
    match ResolveRecord(context, record)
    case Some(resolved) => ResolveResolved(context, resolved)
    case None => Failed(UnsupportedPointType)
  }

  /** The value the linker writes for a point operand. */
  function OperandValue(operand: Operand, link: LinkResult): (v: u32)
    requires operand.IsSymbol()
    ensures v < operand.Limit()
  {
    if operand.PointIndex? then link.index else link.offset
  }

  function PointValue(context: Context, records: seq<SymbolRecord>, index: map<string, nat>, name: string,
                      operand: Operand): u32
  {
    if operand.IsSymbol() && name in index && index[name] < |records| then
      OperandValue(operand, LinkOf(context, records[index[name]]))
    else 0
  }

  /** The values the linker fills in, by symbol name. */
  function Links(context: Context, records: seq<SymbolRecord>, index: map<string, nat>): Fill {
    (name, operand) => PointValue(context, records, index, name, operand)
  }

  /** The instruction's point operand, if any, resolves. */
  predicate Resolves(instr: SourceInstr, context: Context, records: seq<SymbolRecord>, index: map<string, nat>)
    requires Shaped(instr)
  {
    UsesPoint(instr) ==>
      var name := instr.args[0].name;
      name in index && index[name] < |records| && LinkOf(context, records[index[name]]).status == Resolved
  }

  // One instruction

  lemma LowerWithoutPoint(instr: SourceInstr, at: nat, labels: Labels, fill: Fill)
    requires Shaped(instr) && Sound(instr, at, labels) && !UsesPoint(instr)
    ensures Lower(instr, at, labels, fill) == Lower(instr, at, labels, Zero)
  {
    var operands := OperandsOf(instr.opcode);
    var next := at + SizeOf(instr.opcode);
    hide OperandsOf, SizeOf, IsInstruction;
    var a, b := LowerArgs(operands, instr.args, next, labels, fill), LowerArgs(operands, instr.args, next, labels, Zero);
    forall i | 0 <= i < |a|
      ensures a[i] == b[i]
    {
      assert ArgSound(operands[i], instr.args[i], next, labels);
      assert !instr.args[i].Point?;
    }
    assert a == b;
  }

  /** Applying the relocation of a point operand turns its zero encoding into its linked encoding. */
  lemma RelocatePoint(context: Context, image: Image, i: u16, instr: SourceInstr, pre: seq<byte>, post: seq<byte>,
                      labels: Labels, index: map<string, nat>, report: Report)
    requires Shaped(instr) && UsesPoint(instr) && Known(instr, index)
    requires report.status == LinkOk
    requires
      var code := pre + Encode(Lower(instr, |pre|, labels, Zero)) + post;
      var relocation := RelocationOf(instr, |pre|, index)[0];
      Relocate(context, image.symbols, relocation, i, code, report).0.status == LinkOk
    ensures
      var code := pre + Encode(Lower(instr, |pre|, labels, Zero)) + post;
      var relocation := RelocationOf(instr, |pre|, index)[0];
      && Resolves(instr, context, image.symbols, index)
      && Relocate(context, image.symbols, relocation, i, code, report).1 ==
         pre + Encode(Lower(instr, |pre|, labels, Links(context, image.symbols, index))) + post
  {
    hide OperandsOf, SizeOf, IsInstruction, Lower, Encode, ResolveRecord, ResolveResolved, Le16, Le32;
    var fill := Links(context, image.symbols, index);
    var operand, name := OperandsOf(instr.opcode)[0], instr.args[0].name;
    LowerPoint(instr, |pre|, labels, Zero);
    LowerPoint(instr, |pre|, labels, fill);
    var before, after := ArgBytes(operand, 0), ArgBytes(operand, fill(name, operand));
    var code := pre + ([instr.opcode] + before) + post;
    assert Patch(code, |pre| + 1, after) == pre + ([instr.opcode] + after) + post;
  }

  // The whole relocation loop

  /** Linking from `i` on turned `program`, encoded with zeros after `pre`, into its linked encoding. */
  predicate Relinked(context: Context, image: Image, pre: seq<byte>, program: seq<SourceInstr>, labels: Labels,
                     index: map<string, nat>, code: seq<byte>)
    requires forall k | 0 <= k < |program| :: Shaped(program[k])
  {
    && (forall k | 0 <= k < |program| :: Resolves(program[k], context, image.symbols, index))
    && code == pre + EncodeAll(LowerAll(program, |pre|, labels, Links(context, image.symbols, index)))
  }

  lemma RelinkedCons(context: Context, image: Image, pre: seq<byte>, instr: SourceInstr, rest: seq<SourceInstr>,
                     labels: Labels, index: map<string, nat>, code: seq<byte>)
    requires Shaped(instr) && (forall k | 0 <= k < |rest| :: Shaped(rest[k]))
    requires Resolves(instr, context, image.symbols, index)
    requires
      var fill := Links(context, image.symbols, index);
      Relinked(context, image, pre + Encode(Lower(instr, |pre|, labels, fill)), rest, labels, index, code)
    ensures Relinked(context, image, pre, [instr] + rest, labels, index, code)
  {
    hide Shaped, SizeOf, Lower, LowerAll, Encode, EncodeAll, Resolves;
    LowerAllCons(instr, rest, |pre|, labels, Links(context, image.symbols, index));
  }

  /** `program` is encoded with zeros after `pre` and has the relocations from `i` on. */
  predicate Pending(image: Image, i: nat, pre: seq<byte>, program: seq<SourceInstr>, labels: Labels,
                    index: map<string, nat>, code: seq<byte>)
    requires forall k | 0 <= k < |program| :: Shaped(program[k])
  {
    && AllKnown(program, index)
    && AllSound(program, |pre|, labels)
    && i <= |image.relocations| <= 0xFFFF
    && image.relocations[i..] == RelocationsOf(program, |pre|, index)
    && code == pre + EncodeAll(LowerAll(program, |pre|, labels, Zero))
  }

  lemma PendingParts(image: Image, i: nat, pre: seq<byte>, program: seq<SourceInstr>, labels: Labels,
                     index: map<string, nat>, code: seq<byte>)
    requires forall k | 0 <= k < |program| :: Shaped(program[k])
    requires Pending(image, i, pre, program, labels, index, code)
    ensures AllKnown(program, index) && AllSound(program, |pre|, labels) && i <= |image.relocations|
    ensures forall k | 0 <= k < |program| :: Known(program[k], index)
    ensures image.relocations[i..] == RelocationsOf(program, |pre|, index)
    ensures code == pre + EncodeAll(LowerAll(program, |pre|, labels, Zero))
  {
    hide Shaped, Lower, LowerAll, EncodeAll, Known, AllSound, RelocationsOf;
  }

  lemma PendingCons(image: Image, i: nat, pre: seq<byte>, instr: SourceInstr, rest: seq<SourceInstr>, labels: Labels,
                    index: map<string, nat>, code: seq<byte>)
    requires Shaped(instr) && (forall k | 0 <= k < |rest| :: Shaped(rest[k]))
    requires Pending(image, i, pre, [instr] + rest, labels, index, code)
    ensures Known(instr, index) && Sound(instr, |pre|, labels) && AllKnown(rest, index)
    ensures AllSound(rest, |pre| + SizeOf(instr.opcode), labels)
    ensures image.relocations[i..] ==
            RelocationOf(instr, |pre|, index) + RelocationsOf(rest, |pre| + SizeOf(instr.opcode), index)
    ensures code == pre + Encode(Lower(instr, |pre|, labels, Zero)) +
                    EncodeAll(LowerAll(rest, |pre| + SizeOf(instr.opcode), labels, Zero))
  {
    hide *;
    PendingParts(image, i, pre, [instr] + rest, labels, index, code);
    KnownSoundCons(instr, rest, |pre|, labels, index);
    CodeCons(pre, instr, rest, labels);
    KnownEach(rest, index);
    RelocationsCons(instr, rest, |pre|, index);
  }

  lemma PendingPoint(context: Context, image: Image, i: nat, pre: seq<byte>, instr: SourceInstr,
                     rest: seq<SourceInstr>, labels: Labels, index: map<string, nat>, code: seq<byte>, report: Report)
    requires Shaped(instr) && (forall k | 0 <= k < |rest| :: Shaped(rest[k])) && UsesPoint(instr)
    requires Pending(image, i, pre, [instr] + rest, labels, index, code)
    requires report.status == LinkOk && RelocateFrom(context, image, i, code, report).0.status == LinkOk
    ensures i < |image.relocations|
    ensures
      var next := Relocate(context, image.symbols, image.relocations[i], i, code, report);
      var fill := Links(context, image.symbols, index);
      && next.0.status == LinkOk
      && Resolves(instr, context, image.symbols, index)
      && Pending(image, i + 1, pre + Encode(Lower(instr, |pre|, labels, fill)), rest, labels, index, next.1)
  {
    hide Shaped, SizeOf, Lower, LowerAll, Encode, EncodeAll, Known, Sound, Relocate, RelocationOf, RelocationsOf, Resolves;
    PendingCons(image, i, pre, instr, rest, labels, index, code);
    PointRelocation(instr, |pre|, index);
    assert image.relocations[i] == image.relocations[i..][0];
    assert image.relocations[i + 1..] == image.relocations[i..][1..];
    RelocatePoint(context, image, i, instr, pre, EncodeAll(LowerAll(rest, |pre| + SizeOf(instr.opcode), labels, Zero)),
                  labels, index, report);
  }

  lemma PendingOther(image: Image, i: nat, pre: seq<byte>, instr: SourceInstr, rest: seq<SourceInstr>, labels: Labels,
                     index: map<string, nat>, code: seq<byte>, fill: Fill)
    requires Shaped(instr) && (forall k | 0 <= k < |rest| :: Shaped(rest[k])) && !UsesPoint(instr)
    requires Pending(image, i, pre, [instr] + rest, labels, index, code)
    ensures Pending(image, i, pre + Encode(Lower(instr, |pre|, labels, fill)), rest, labels, index, code)
  {
    hide Shaped, SizeOf, Lower, LowerAll, Encode, EncodeAll, Known, Sound, RelocationsOf;
    PendingCons(image, i, pre, instr, rest, labels, index, code);
    LowerWithoutPoint(instr, |pre|, labels, fill);
  }

  lemma {:induction false} RelocateAll(context: Context, image: Image, i: nat, pre: seq<byte>,
                                       program: seq<SourceInstr>, labels: Labels, index: map<string, nat>,
                                       code: seq<byte>, report: Report)
    requires forall k | 0 <= k < |program| :: Shaped(program[k])
    requires Pending(image, i, pre, program, labels, index, code)
    requires report.status == LinkOk && RelocateFrom(context, image, i, code, report).0.status == LinkOk
    ensures Relinked(context, image, pre, program, labels, index, RelocateFrom(context, image, i, code, report).1)
    decreases program
  {
    hide Shaped, SizeOf, Lower, Encode, Relocate, Sound, Known, Resolves, RelocationOf, UsesPoint;
    if program != [] {
      hide Pending, Relinked;
      var instr, rest := program[0], program[1..];
      assert Shaped(instr) && program == [instr] + rest;
      var pre' := pre + Encode(Lower(instr, |pre|, labels, Links(context, image.symbols, index)));
      if UsesPoint(instr) {
        PendingPoint(context, image, i, pre, instr, rest, labels, index, code, report);
        var next := Relocate(context, image.symbols, image.relocations[i], i, code, report);
        RelocateAll(context, image, i + 1, pre', rest, labels, index, next.1, next.0);
      } else {
        PendingOther(image, i, pre, instr, rest, labels, index, code, Links(context, image.symbols, index));
        NoPointResolves(instr, context, image.symbols, index);
        RelocateAll(context, image, i, pre', rest, labels, index, code, report);
      }
      RelinkedCons(context, image, pre, instr, rest, labels, index, RelocateFrom(context, image, i, code, report).1);
    }
  }

  lemma NoPointResolves(instr: SourceInstr, context: Context, records: seq<SymbolRecord>, index: map<string, nat>)
    requires Shaped(instr) && !UsesPoint(instr)
    ensures Resolves(instr, context, records, index)
  {
  }

  lemma PointRelocation(instr: SourceInstr, at: nat, index: map<string, nat>)
    requires Shaped(instr) && UsesPoint(instr) && Known(instr, index)
    ensures |RelocationOf(instr, at, index)| == 1
  {
  }

  // The main result

  /** What the linked argument `v` of an operand has to be. `next` is the offset after the
      instruction. */
  predicate ArgMeans(arg: Arg, operand: Operand, v: u32, next: nat, lines: seq<Line>, symbols: seq<Symbol>,
                     context: Context, host: Host)
  {
    match arg
    case Value(bits) => v == bits
    case Point(name) =>
      operand.IsSymbol() && exists i | 0 <= i < |symbols| ::
        && symbols[i].name == name
        && LinkOf(context, RecordOf(symbols[i])).status == Resolved
        && v == OperandValue(operand, LinkOf(context, RecordOf(symbols[i])))
    case Target(tag) =>
      Declares(lines, tag) && v < 0x1_0000 && next + Signed16(v) == LabelOffset(lines, tag, host)
  }

  predicate InstrMeans(source: SourceInstr, instr: Instr, next: nat, lines: seq<Line>, symbols: seq<Symbol>,
                       context: Context, host: Host)
    requires Shaped(source) && Legal(instr)
  {
    && instr.opcode == source.opcode
    && forall j | 0 <= j < |source.args| ::
         ArgMeans(source.args[j], OperandsOf(source.opcode)[j], instr.args[j], next, lines, symbols, context, host)
  }

  /** `linked` is the source program: it decodes, instruction by instruction, to what the lines say. */
  predicate Means(linked: seq<byte>, lines: seq<Line>, symbols: seq<Symbol>, context: Context, host: Host) {
    var source := Program(lines, host);
    var decoded := Decode(linked, 0);
    && decoded.Some?
    && |decoded.value| == |source|
    && forall k | 0 <= k < |source| ::
         InstrMeans(source[k], decoded.value[k], Offset(SourceOpcodes(source), k + 1), lines, symbols, context, host)
  }

  lemma LinkIsRelink(context: Context, image: Image, capacity: nat)
    requires |image.relocations| <= 0xFFFF && Link(context, image, capacity).0.status == LinkOk
    ensures Link(context, image, capacity).1 == Some(RelocateFrom(context, image, 0, image.code, Begin(image)).1)
    ensures RelocateFrom(context, image, 0, image.code, Begin(image)).0.status == LinkOk
  {
    hide Relocate;
  }

  /** Linking an assembled object yields the lowering of the source program with every point operand
      filled in. */
  lemma LinkedEncoding(lines: seq<Line>, options: Options, host: Host, context: Context, image: Image, capacity: nat)
    requires AllNoData(lines) && AssembleLines(lines, options, host).Ok?
    requires
      var out := Final(lines, options, host);
      image == Image(out.code, options.entryOffset, RecordsOf(out.symbols), out.relocations)
    requires |image.relocations| <= 0xFFFF && Link(context, image, capacity).0.status == LinkOk
    ensures
      var out := Final(lines, options, host);
      Relinked(context, image, [], Program(lines, host), LabelLines(lines, 0, map[]).value, out.index,
               Link(context, image, capacity).1.value)
  {
    hide WriteLines, LabelLines, Placed, NoData, Relinked, Link, RelocateFrom, RelocationsOf, LowerAll, EncodeAll, Shaped,
         RecordsOf;
    var labels := LabelLines(lines, 0, map[]).value;
    var out := Final(lines, options, host);
    AssembledProgram(lines, options, host);
    LinkIsRelink(context, image, capacity);
    assert image.relocations[0..] == image.relocations;
    RelocateAll(context, image, 0, [], Program(lines, host), labels, out.index, image.code, Begin(image));
  }

  lemma ArgMeaning(arg: Arg, operand: Operand, next: nat, lines: seq<Line>, options: Options, labels: Labels,
                   out: Output, context: Context, host: Host)
    requires ArgSound(operand, arg, next, labels) && Placed(lines, 0, map[], labels, host) && Indexed(out)
    requires arg.Point? ==> arg.name in out.index &&
                            LinkOf(context, RecordOf(out.symbols[out.index[arg.name]])).status == Resolved
    ensures ArgMeans(arg, operand, LowerArg(operand, arg, next, labels, Links(context, RecordsOf(out.symbols), out.index)),
                     next, lines, out.symbols, context, host)
  {
    hide Placed, Indexed, ArgSound, ArgMeans, LowerArg, Links, LinkOf;
    match arg
    case Value(_) => ValueMeaning(arg, operand, next, lines, labels, out, context, host);
    case Point(_) => PointMeaning(arg, operand, next, lines, labels, out, context, host);
    case Target(_) => TargetMeaning(arg, operand, next, lines, labels, out, context, host);
  }

  lemma ValueMeaning(arg: Arg, operand: Operand, next: nat, lines: seq<Line>, labels: Labels, out: Output,
                     context: Context, host: Host)
    requires arg.Value? && ArgSound(operand, arg, next, labels)
    ensures ArgMeans(arg, operand, LowerArg(operand, arg, next, labels, Links(context, RecordsOf(out.symbols), out.index)),
                     next, lines, out.symbols, context, host)
  {
    hide Links, LinkOf, RecordOf, LabelOffset;
  }

  lemma PointMeaning(arg: Arg, operand: Operand, next: nat, lines: seq<Line>, labels: Labels, out: Output,
                     context: Context, host: Host)
    requires arg.Point? && ArgSound(operand, arg, next, labels) && Indexed(out) && arg.name in out.index
    requires LinkOf(context, RecordOf(out.symbols[out.index[arg.name]])).status == Resolved
    ensures ArgMeans(arg, operand, LowerArg(operand, arg, next, labels, Links(context, RecordsOf(out.symbols), out.index)),
                     next, lines, out.symbols, context, host)
  {
    hide LinkOf, RecordOf, LabelOffset;
    var i := out.index[arg.name];
    assert RecordsOf(out.symbols)[i] == RecordOf(out.symbols[i]) && out.symbols[i].name == arg.name;
  }

  lemma TargetMeaning(arg: Arg, operand: Operand, next: nat, lines: seq<Line>, labels: Labels, out: Output,
                      context: Context, host: Host)
    requires arg.Target? && ArgSound(operand, arg, next, labels) && Placed(lines, 0, map[], labels, host)
    ensures ArgMeans(arg, operand, LowerArg(operand, arg, next, labels, Links(context, RecordsOf(out.symbols), out.index)),
                     next, lines, out.symbols, context, host)
  {
    hide Links, LinkOf, RecordOf, LabelOffset;
    assert Declares(lines, arg.tag);
    PatternOfOffset(labels[arg.tag] - next);
  }

  lemma PatternOfOffset(offset: int)
    requires -0x8000 <= offset < 0x8000
    ensures Signed16(offset % 0x1_0000) == offset
  {
  }

  lemma InstrMeaning(source: SourceInstr, at: nat, lines: seq<Line>, options: Options, labels: Labels, out: Output,
                     context: Context, host: Host)
    requires Shaped(source) && Sound(source, at, labels) && Placed(lines, 0, map[], labels, host) && Indexed(out)
    requires Resolves(source, context, RecordsOf(out.symbols), out.index)
    ensures InstrMeans(source, Lower(source, at, labels, Links(context, RecordsOf(out.symbols), out.index)),
                       at + SizeOf(source.opcode), lines, out.symbols, context, host)
  {
    hide LinkOf, RecordOf, Placed, Indexed, ArgMeans, SizeOf, LowerArg, Links;
    var operands := OperandsOf(source.opcode);
    var next := at + SizeOf(source.opcode);
    forall j | 0 <= j < |source.args|
      ensures ArgMeans(source.args[j], operands[j],
                       LowerArg(operands[j], source.args[j], next, labels, Links(context, RecordsOf(out.symbols), out.index)),
                       next, lines, out.symbols, context, host)
    {
      assert ArgSound(operands[j], source.args[j], next, labels);
      ArgMeaning(source.args[j], operands[j], next, lines, options, labels, out, context, host);
    }
  }

  lemma InstrAtMeans(lines: seq<Line>, options: Options, host: Host, context: Context, out: Output, labels: Labels,
                     k: nat)
    requires AllSound(Program(lines, host), 0, labels) && Placed(lines, 0, map[], labels, host) && Indexed(out)
    requires k < |Program(lines, host)|
    requires Resolves(Program(lines, host)[k], context, RecordsOf(out.symbols), out.index)
    ensures
      var source := Program(lines, host);
      InstrMeans(source[k], LowerAll(source, 0, labels, Links(context, RecordsOf(out.symbols), out.index))[k],
                 Offset(SourceOpcodes(source), k + 1), lines, out.symbols, context, host)
  {
    hide *;
    var source := Program(lines, host);
    LowerAllAt(source, 0, labels, Links(context, RecordsOf(out.symbols), out.index), k);
    SoundAt(source, 0, labels, k);
    OffsetNext(SourceOpcodes(source), k);
    InstrMeaning(source[k], Offset(SourceOpcodes(source), k), lines, options, labels, out, context, host);
  }

  lemma DecodeWhole(program: seq<Instr>)
    requires AllLegal(program)
    ensures Decode(EncodeAll(program), 0) == Some(program)
  {
    hide *;
    DecodeEncoded([], program);
    assert [] + EncodeAll(program) == EncodeAll(program);
  }

  lemma RelinkedMeans(lines: seq<Line>, options: Options, host: Host, context: Context, image: Image, out: Output,
                      labels: Labels, linked: seq<byte>)
    requires image.symbols == RecordsOf(out.symbols)
    requires AllSound(Program(lines, host), 0, labels) && Placed(lines, 0, map[], labels, host) && Indexed(out)
    requires Relinked(context, image, [], Program(lines, host), labels, out.index, linked)
    ensures Means(linked, lines, out.symbols, context, host)
  {
    hide Shaped, Placed, Indexed, Sound, AllSound, Resolves, InstrMeans, LowerAll, EncodeAll, Decode, RecordsOf, Offset,
         Links, Lower, SizeOf, Legal, Program, SourceOpcodes;
    var source := Program(lines, host);
    var program := LowerAll(source, 0, labels, Links(context, image.symbols, out.index));
    assert linked == EncodeAll(program);
    DecodeWhole(program);
    forall k | 0 <= k < |source|
      ensures InstrMeans(source[k], program[k], Offset(SourceOpcodes(source), k + 1), lines, out.symbols, context, host)
    {
      InstrAtMeans(lines, options, host, context, out, labels, k);
    }
  }

  /** A source without `DB` that assembles, and whose object file can be built. */
  predicate Builds(source: seq<string>, lines: seq<Line>, options: Options, host: Host) {
    && ReadLines(source, 0, [], host) == Ok(lines)
    && AllNoData(lines)
    && Assemble(source, options, host).Ok?
    && ObjectBytes(Assemble(source, options, host).value, options).Ok?
    && Representable(Assemble(source, options, host).value, options)
  }

  /** The object file of a source. */
  function ObjectOf(source: seq<string>, options: Options, host: Host): seq<byte> {
    match Assemble(source, options, host)
    case Err(_) => []
    case Ok(assembly) =>
      match ObjectBytes(assembly, options)
      case Err(_) => []
      case Ok(file) => file
  }

  function SymbolsOf(source: seq<string>, options: Options, host: Host): seq<Symbol> {
    match Assemble(source, options, host)
    case Err(_) => []
    case Ok(assembly) => assembly.symbols
  }

  /** Linking preserves the program. Whenever a source without `DB` assembles, its object is built and
      the object file links, the linked code means exactly the source. */
  lemma LinkingPreservesProgram(source: seq<string>, lines: seq<Line>, options: Options, host: Host, context: Context,
                                capacity: nat)
    requires Builds(source, lines, options, host)
    ensures ParseObject(ObjectOf(source, options, host)).Ok?
    ensures
      var image := ParseObject(ObjectOf(source, options, host)).value.image;
      |image.relocations| <= 0xFFFF
      && (Link(context, image, capacity).0.status == LinkOk ==>
            Means(Link(context, image, capacity).1.value, lines, SymbolsOf(source, options, host), context, host))
  {
    hide ReadLines, AllNoData, WriteLines, LabelLines, ObjectBytes, Representable, ParseObject, Link, Means, RecordsOf,
         Relinked, Placed, Indexed, RelocationsOf, LowerAll, EncodeAll, Shaped, AllSound, Known;
    var assembly := Assemble(source, options, host).value;
    BuildThenParse(assembly, options);
    var image := ParseObject(ObjectBytes(assembly, options).value).value.image;
    FewRelocations(assembly, options);
    var out := Final(lines, options, host);
    if Link(context, image, capacity).0.status == LinkOk {
      LinkedEncoding(lines, options, host, context, image, capacity);
      AssembledProgram(lines, options, host);
      FinalIndexed(lines, options, host);
      RelinkedMeans(lines, options, host, context, image, out, LabelLines(lines, 0, map[]).value,
                    Link(context, image, capacity).1.value);
    }
  }

  lemma FewRelocations(assembly: Assembly, options: Options)
    requires Representable(assembly, options)
    ensures |assembly.relocations| <= 0xFFFF
  {
  }
}
