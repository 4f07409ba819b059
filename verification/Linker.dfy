/** The linker that works on an object image in memory. */
module Linker {
  import opened Bytes
  import opened Memory
  import opened Isa
  import opened Assembler
  import opened ObjectFile
  import opened ObjectParser
  import opened Catalog

  const NO_SLOT: u16 := 0xFFFF
  const NONE16: u16 := 0xFFFF

  datatype Status =
    | LinkOk
    | OutputTooSmall
    | EntryOffsetOutOfRange
    | SymbolIndexOutOfRange
    | RelocationOutOfRange
    | UnsupportedRelocationKind
    | ResolveFailed

  datatype Report = Report(
    status: Status,
    resolveStatus: LinkStatus,
    failingSymbol: u16,
    failingRelocation: u16,
    resolved: nat,
    codeSize: nat,
    entryOffset: u32
  )

  /** The object image, the slot it is for, and what its symbols are resolved against. */
  datatype Context = Context(publisher: Publisher, points: Points, slot: u16)

  function SlotVariableIdentity(context: Context, name: string): Option<Identity> {
    if context.points == [] || name == "" || context.slot == NO_SLOT then None
    else
      var feature := SlotFeature(context.slot);
      Some(Identity(SlotDevice(context.points, feature), feature, name))
  }

  /** resolveSymbolRecord: a slot variable gets its identity from its name. */
  function ResolveRecord(context: Context, record: SymbolRecord): Option<SymbolRecord> {
    if record.kind != SLOT_VAR then Some(record)
    else if !SupportedSlotVariableType(record.expectedType) then None
    else
      match SlotVariableIdentity(context, record.name)
      case None => None
      case Some(id) => Some(record.(id := id))
  }

  /** resolveSlotVariableLink: the type must match exactly, and access is not checked. */
  function ResolveSlotVariable(publisher: Publisher, points: Points, record: SymbolRecord): LinkResult {
    var i := FindIndex(points, record.id);
    if i == |points| then Failed(NotFound)
    else if points[i].valueType != record.expectedType then Failed(TypeMismatch)
    else if StateIndex(publisher, i) == INVALID_INDEX then Failed(UnsupportedPointType)
    else LinkResult(Resolved, StateIndex(publisher, i), StateOffset(publisher, i))
  }

  function ResolveResolved(context: Context, record: SymbolRecord): LinkResult {
    if record.kind == SLOT_VAR then ResolveSlotVariable(context.publisher, context.points, record)
    else ResolveLinkRequest(context.publisher, context.points, record.id, record.expectedType, record.access)
  }

  function PatchSize(kind: byte): nat {
    if kind == RELOCATION_INDEX_U16 then 2 else if kind == RELOCATION_OFFSET_U32 then 4 else 0
  }

  function PatchBytes(kind: byte, link: LinkResult): (s: seq<byte>)
    requires PatchSize(kind) != 0
    ensures |s| == PatchSize(kind)
  {
    if kind == RELOCATION_INDEX_U16 then Le16(link.index) else Le32(link.offset)
  }

  /** One relocation: the report and the code after it. The report keeps what it last recorded. */
  function Relocate(context: Context, symbols: seq<SymbolRecord>, relocation: Relocation, i: u16, code: seq<byte>,
                    report: Report): (r: (Report, seq<byte>))
    ensures |r.1| == |code|
  {
    var started := report.(failingRelocation := i);
    if |symbols| <= relocation.symbolIndex then
      (started.(status := SymbolIndexOutOfRange, failingSymbol := relocation.symbolIndex), code)
    else if PatchSize(relocation.kind) == 0 then (started.(status := UnsupportedRelocationKind), code)
    else if |code| < relocation.codeOffset + PatchSize(relocation.kind) then
      (started.(status := RelocationOutOfRange), code)
    else
      match ResolveRecord(context, symbols[relocation.symbolIndex])
      case None => (started.(status := ResolveFailed, resolveStatus := UnsupportedPointType), code)
      case Some(record) =>
        var link := ResolveResolved(context, record);
        var found := started.(failingSymbol := relocation.symbolIndex, resolveStatus := link.status);
        if link.status != Resolved then (found.(status := ResolveFailed), code)
        else
          (found.(resolved := report.resolved + 1),
           Patch(code, relocation.codeOffset, PatchBytes(relocation.kind, link)))
  }

  function RelocateFrom(context: Context, image: Image, i: nat, code: seq<byte>, report: Report): (r: (Report, seq<byte>))
    requires i <= |image.relocations| <= 0xFFFF && report.status == LinkOk
    ensures |r.1| == |code|
    decreases |image.relocations| - i
  {
    if i == |image.relocations| then (report.(failingSymbol := NONE16, failingRelocation := NONE16), code)
    else
      var next := Relocate(context, image.symbols, image.relocations[i], i, code, report);
      if next.0.status == LinkOk then RelocateFrom(context, image, i + 1, next.1, next.0) else next
  }

  function Begin(image: Image): Report {
    Report(LinkOk, Resolved, NONE16, NONE16, 0, |image.code|, image.entryOffset)
  }

  /** What linkObjectImage reports and, unless it refuses at once, leaves in the code area. */
  function Link(context: Context, image: Image, capacity: nat): (r: (Report, Option<seq<byte>>))
    requires |image.relocations| <= 0xFFFF
    ensures r.1.Some? ==> |r.1.value| == |image.code| <= capacity
    ensures r.0.status == LinkOk ==> r.1.Some?
  {
    if capacity < |image.code| then (Begin(image).(status := OutputTooSmall), None)
    else if |image.code| < image.entryOffset then (Begin(image).(status := Status.EntryOffsetOutOfRange), None)
    else
      var r := RelocateFrom(context, image, 0, image.code, Begin(image));
      (r.0, Some(r.1))
  }

  /** linkObjectImage: copies the code to `base`, then patches it in place, relocation by relocation. */
  method LinkObjectImage(context: Context, image: Image, out: array<byte>, base: nat, capacity: nat)
    returns (report: Report)
    requires |image.relocations| <= 0xFFFF && base + capacity <= out.Length
    modifies out
    ensures report == Link(context, image, capacity).0
    ensures
      match Link(context, image, capacity).1
      case None => out[..] == old(out[..])
      case Some(code) => out[..] == Patch(old(out[..]), base, code)
  {
    hide ResolveRecord, ResolveResolved, PatchBytes, Patch, Relocate;
    report := Begin(image);
    if capacity < |image.code| {
      return report.(status := OutputTooSmall);
    }
    if |image.code| < image.entryOffset {
      return report.(status := Status.EntryOffsetOutOfRange);
    }
    ghost var was := out[..];
    Store(out, base, image.code);
    ghost var code := image.code;
    for i := 0 to |image.relocations|
      invariant report.status == LinkOk && report.codeSize == |code| == |image.code|
      invariant out[..] == Patch(was, base, code)
      invariant RelocateFrom(context, image, i, code, report) == RelocateFrom(context, image, 0, image.code, Begin(image))
    {
      report, code := RelocateInPlace(context, image.symbols, image.relocations[i], i, out, base, code, was, report);
      if report.status != LinkOk {
        return;
      }
    }
    report := report.(failingSymbol := NONE16, failingRelocation := NONE16);
  }

  /** The body of the loop; `code` is what the code area at `base` holds. */
  method RelocateInPlace(context: Context, symbols: seq<SymbolRecord>, relocation: Relocation, i: u16, out: array<byte>,
                         base: nat, ghost code: seq<byte>, ghost was: seq<byte>, begun: Report)
    returns (report: Report, ghost next: seq<byte>)
    requires |was| == out.Length && base + |code| <= out.Length && out[..] == Patch(was, base, code)
    requires begun.codeSize == |code|
    modifies out
    ensures (report, next) == Relocate(context, symbols, relocation, i, code, begun)
    ensures report.codeSize == begun.codeSize
    ensures out[..] == Patch(was, base, next)
  {
    hide ResolveRecord, ResolveResolved, PatchBytes, Patch;
    next := code;
    report := begun.(failingRelocation := i);
    if |symbols| <= relocation.symbolIndex {
      report := report.(status := SymbolIndexOutOfRange, failingSymbol := relocation.symbolIndex);
      return;
    }
    if PatchSize(relocation.kind) == 0 {
      report := report.(status := UnsupportedRelocationKind);
      return;
    }
    if report.codeSize < relocation.codeOffset + PatchSize(relocation.kind) {
      report := report.(status := RelocationOutOfRange);
      return;
    }
    var record := ResolveRecord(context, symbols[relocation.symbolIndex]);
    if record.None? {
      report := report.(status := ResolveFailed, resolveStatus := UnsupportedPointType);
      return;
    }
    var link := ResolveResolved(context, record.value);
    report := report.(failingSymbol := relocation.symbolIndex, resolveStatus := link.status);
    if link.status != Resolved {
      report := report.(status := ResolveFailed);
      return;
    }
    var bytes := PatchBytes(relocation.kind, link);
    PatchInside(was, base, code, relocation.codeOffset, bytes);
    Store(out, base + relocation.codeOffset, bytes);
    next := Patch(code, relocation.codeOffset, bytes);
    report := report.(resolved := report.resolved + 1);
  }
}
