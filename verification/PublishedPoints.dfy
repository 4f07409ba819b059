/** What is published of the points in SDRAM, read back: the runtime header and the descriptors. */
module PublishedPoints {
  import opened Bytes
  import opened Memory
  import opened ObjectFile
  import opened Catalog
  import opened SlotVariables
  import opened PointAccess
  import opened SlotMemory
  import opened SlotIsolation
  import opened SlotRecords

  const HEADER_AT: nat := 0x10_0000

  function DescriptorOf(i: nat): nat { 0x10_0100 + 20 * i }

  // The header

  lemma HeaderBytesAre(p: Publication)
    requires p.count <= MAX_POINTS
    ensures
      RuntimeHeaderBytes(p) ==
      Words([RUNTIME_MAGIC]) + Halves([1, 0]) +
      Words([p.count, SDRAM_BASE + DESCRIPTORS_AT, SDRAM_BASE + STATES_AT, STATE_SIZE, p.epoch])
  {
    hide Words, Halves;
  }

  lemma HeaderReadsBack(m: seq<byte>, p: Publication)
    requires |m| == SDRAM_SIZE && p.count <= MAX_POINTS && Stands(m, Write(RUNTIME_AT, RuntimeHeaderBytes(p)))
    ensures
      var h := HEADER_AT;
      && Fetch32(m, h) == 0x3156_4D50 && Fetch16(m, h + 4) == 1 && Fetch16(m, h + 6) == 0
      && Fetch32(m, h + 8) == p.count && Fetch32(m, h + 12) == 0x2010_0100 && Fetch32(m, h + 16) == 0x207E_0000
      && Fetch32(m, h + 20) == 80 && Fetch32(m, h + 24) == p.epoch
  {
    HeaderBytesAre(p);
    hide RuntimeHeaderBytes, Words, Halves, Fetch32, Fetch16;
    var first, halves, words := [RUNTIME_MAGIC], [1, 0],
                                [p.count, SDRAM_BASE + DESCRIPTORS_AT, SDRAM_BASE + STATES_AT, STATE_SIZE, p.epoch];
    RecordParts(m, HEADER_AT, Words(first), Halves(halves), Words(words));
    FirstFields(m, HEADER_AT, first, halves);
    ReadWord(m, HEADER_AT + 8, words, 0);
    ReadWord(m, HEADER_AT + 8, words, 1);
    ReadWord(m, HEADER_AT + 8, words, 2);
    ReadWord(m, HEADER_AT + 8, words, 3);
    ReadWord(m, HEADER_AT + 8, words, 4);
  }

  // The descriptors

  lemma {:induction false} DescriptorAt(points: Points, i: nat)
    requires i < |points| <= MAX_POINTS
    ensures Descriptors(points)[20 * i..20 * i + 20] == DescriptorBytes(points[i], i)
    decreases points
  {
    hide DescriptorBytes;
    var last := |points| - 1;
    if i < last {
      DescriptorAt(points[..last], i);
      var init := Descriptors(points[..last]);
      assert Descriptors(points)[20 * i..20 * i + 20] == init[20 * i..20 * i + 20];
    }
  }

  /** The type code of a point: none for texts. */
  predicate HasCode(valueType: byte, code: byte) {
    && (valueType == 0 <==> code == 1) && (valueType == 1 <==> code == 2) && (valueType == 2 || valueType == 6 <==> code == 3)
    && (valueType == 3 <==> code == 4) && (valueType == 4 <==> code == 5) && (valueType == 5 <==> code == 6)
    && (valueType >= 7 <==> code == 0)
  }

  predicate Bit(flags: byte, n: nat) {
    (n == 0 && flags % 2 == 1) || (n == 1 && flags / 2 % 2 == 1) || (n == 2 && flags / 4 % 2 == 1)
    || (n == 3 && flags / 8 % 2 == 1) || (n == 4 && flags / 0x10 % 2 == 1) || (n == 5 && flags / 0x20 % 2 == 1)
    || (n == 6 && flags / 0x40 % 2 == 1) || (n == 7 && flags / 0x80 == 1)
  }

  /** What the flags of a point say. */
  predicate Flagged(p: Point, flags: byte) {
    && Bit(flags, 0) && (Bit(flags, 1) <==> MayBeWritten(p))
    && (Bit(flags, 2) <==> p.direction == Input || p.direction == InOut)
    && (Bit(flags, 3) <==> p.direction == Output || p.direction == InOut)
    && (Bit(flags, 4) <==> p.local) && (Bit(flags, 5) <==> p.valueType == 5)
    && (Bit(flags, 6) <==> p.valueType <= 6 && p.valueType != 5) && !Bit(flags, 7)
  }

  lemma FlagsSay(p: Point)
    ensures Flagged(p, PointFlags(p))
  {
    ProgramVariableIs(p.id);
    hide IsProgramVariable, IsDynamicSlotVariable;
  }

  lemma TypeSays(valueType: byte)
    ensures HasCode(valueType, RuntimeType(valueType).GetOr(0))
  {
  }

  lemma DescriptorParts(m: seq<byte>, p: Point, i: u16, d: nat)
    requires d + 20 <= |m| && m[d..d + 20] == DescriptorBytes(p, i)
    ensures m[d..d + 2] == Halves([i])
    ensures m[d + 2..d + 4] == [RuntimeType(p.valueType).GetOr(0), PointFlags(p)]
    ensures m[d + 4..d + 20] == Words([i * 80, i * 80 + 68, 0, 0])
  {
    hide Words, Halves, PointFlags, RuntimeType;
    var halves, middle, words := Halves([i]), [RuntimeType(p.valueType).GetOr(0), PointFlags(p)],
                                 Words([i * 80, i * 80 + 68, 0, 0]);
    assert DescriptorBytes(p, i) == halves + (middle + words);
    hide DescriptorBytes;
    Split(m, d, 2, halves, middle + words);
    Split(m, d + 2, 2, middle, words);
  }

  lemma DescriptorWords(m: seq<byte>, d: nat, a: u32, b: u32)
    requires d + 20 <= |m| && m[d + 4..d + 20] == Words([a, b, 0, 0])
    ensures Fetch32(m, d + 4) == a && Fetch32(m, d + 8) == b && Fetch32(m, d + 12) == 0 && Fetch32(m, d + 16) == 0
  {
    hide Words, Fetch32;
    var words := [a, b, 0, 0];
    ReadWord(m, d + 4, words, 0);
    ReadWord(m, d + 4, words, 1);
    ReadWord(m, d + 4, words, 2);
    ReadWord(m, d + 4, words, 3);
  }

  lemma DescriptorReads(m: seq<byte>, p: Point, i: u16)
    requires |m| == SDRAM_SIZE && i < MAX_POINTS && DescriptorOf(i) + 20 <= |m|
    requires m[DescriptorOf(i)..DescriptorOf(i) + 20] == DescriptorBytes(p, i)
    ensures
      var d := DescriptorOf(i);
      && Fetch16(m, d) == i && HasCode(p.valueType, m[d + 2]) && Flagged(p, m[d + 3])
      && Fetch32(m, d + 4) == 80 * i && Fetch32(m, d + 8) == 80 * i + 68
      && Fetch32(m, d + 12) == 0 && Fetch32(m, d + 16) == 0
  {
    FlagsSay(p);
    TypeSays(p.valueType);
    hide *;
    var d := DescriptorOf(i);
    DescriptorParts(m, p, i, d);
    DescriptorWords(m, d, i * 80, i * 80 + 68);
    ReadHalf(m, d, [i], 0);
    assert m[d + 2] == m[d + 2..d + 4][0] && m[d + 3] == m[d + 2..d + 4][1];
  }

  // What a preparation publishes

  lemma ReadsBack(memory: seq<byte>, states: seq<Write>, descriptors: seq<Write>, points: Points, p: Publication, i: nat)
    requires |memory| == SDRAM_SIZE && i < |points| <= MAX_POINTS && p.count <= MAX_POINTS
    requires descriptors == [Write(DESCRIPTORS_AT, Descriptors(points))]
    requires InMemory(memory, states + descriptors + [Write(RUNTIME_AT, RuntimeHeaderBytes(p))])
    ensures
      var m := Apply(memory, states + descriptors + [Write(RUNTIME_AT, RuntimeHeaderBytes(p))]);
      DescriptorOf(i) + 20 <= |m| && m[DescriptorOf(i)..DescriptorOf(i) + 20] == DescriptorBytes(points[i], i)
  {
    hide Apply, InMemory, Descriptors, DescriptorBytes, RuntimeHeaderBytes;
    WriteStands(memory, states, descriptors[0], [Write(RUNTIME_AT, RuntimeHeaderBytes(p))]);
    DescriptorAt(points, i);
    HeldSlice(Apply(memory, states + descriptors + [Write(RUNTIME_AT, RuntimeHeaderBytes(p))]), DESCRIPTORS_AT,
              Descriptors(points), 20 * i, 20);
  }

  lemma PublishedHeader(memory: seq<byte>, before: seq<Write>, p: Publication)
    requires |memory| == SDRAM_SIZE && p.count <= MAX_POINTS
    requires InMemory(memory, before + [Write(RUNTIME_AT, RuntimeHeaderBytes(p))])
    ensures var w := Write(RUNTIME_AT, RuntimeHeaderBytes(p)); Stands(Apply(memory, before + [w]), w)
  {
    hide Apply, InMemory, RuntimeHeaderBytes, Stands;
    var w := Write(RUNTIME_AT, RuntimeHeaderBytes(p));
    assert before + [w] == before + [w] + [];
    WriteStands(memory, before, w, []);
  }

  /** What a preparation publishes, as memory then has it: the header, with the number of points and the epoch; and if
      the descriptors are rebuilt, for each point of the new catalog its index, its type, whether it may be written,
      its directions, and where its state is. */
  lemma PreparationPublishes(board: Board, slot: u16, records: Option<seq<SymbolRecord>>, hash: u32, i: nat)
    requires board.Valid()
    ensures InMemory(board.memory, Prepare(board, slot, records, hash).writes)
    ensures
      var r, prepared := Reconcile(board.points, board.publication, slot, records, hash), Prepare(board, slot, records, hash);
      var m, d := Apply(board.memory, prepared.writes), DescriptorOf(i);
      && (r.published ==>
            && Fetch32(m, HEADER_AT) == 0x3156_4D50 && Fetch16(m, HEADER_AT + 4) == 1 && Fetch16(m, HEADER_AT + 6) == 0
            && Fetch32(m, HEADER_AT + 8) == prepared.publication.count && Fetch32(m, HEADER_AT + 12) == 0x2010_0100
            && Fetch32(m, HEADER_AT + 16) == 0x207E_0000 && Fetch32(m, HEADER_AT + 20) == 80
            && Fetch32(m, HEADER_AT + 24) == prepared.publication.epoch)
      && (r.rebuilt ==> prepared.publication.count == |prepared.points|)
      && (r.rebuilt && i < |prepared.points| ==>
            && d + 20 <= |m| && Fetch16(m, d) == i && HasCode(prepared.points[i].valueType, m[d + 2])
            && Flagged(prepared.points[i], m[d + 3]) && Fetch32(m, d + 4) == 80 * i && Fetch32(m, d + 8) == 80 * i + 68)
  {
    PrepareFits(board, slot, records, hash);
    PrepareParts(board, slot, records, hash);
    hide Reconcile, Prepare, Apply, InMemory, Descriptors, DescriptorBytes, RuntimeHeaderBytes, MovedStates, Flat, Fetch32,
         Fetch16, HasCode, Flagged, Stands, DescriptorOf;
    var r, prepared := Reconcile(board.points, board.publication, slot, records, hash), Prepare(board, slot, records, hash);
    var states := if r.changed then [Write(STATES_AT, Flat(MovedStates(board, slot, r.points)))] else [];
    var descriptors := if r.rebuilt then [Write(DESCRIPTORS_AT, Descriptors(r.points))] else [];
    if r.published {
      PublishedHeader(board.memory, states + descriptors, r.publication);
      HeaderReadsBack(Apply(board.memory, prepared.writes), r.publication);
    }
    if r.rebuilt && i < |prepared.points| {
      ReadsBack(board.memory, states, descriptors, r.points, r.publication, i);
      DescriptorReads(Apply(board.memory, prepared.writes), r.points[i], i);
    }
  }

  lemma PrepareFits(board: Board, slot: u16, records: Option<seq<SymbolRecord>>, hash: u32)
    requires board.Valid()
    ensures InMemory(board.memory, Prepare(board, slot, records, hash).writes) && |board.memory| == SDRAM_SIZE
  {
    PrepareIsSound(board, slot, records, hash);
    hide Prepare;
  }

  lemma PrepareParts(board: Board, slot: u16, records: Option<seq<SymbolRecord>>, hash: u32)
    requires board.Valid()
    ensures
      var r, prepared := Reconcile(board.points, board.publication, slot, records, hash), Prepare(board, slot, records, hash);
      && prepared.points == r.points && prepared.publication == r.publication && |r.points| <= MAX_POINTS
      && r.publication.count <= MAX_POINTS && (r.rebuilt ==> r.published && r.publication.count == |r.points|)
      && prepared.writes ==
         (if r.changed then [Write(STATES_AT, Flat(MovedStates(board, slot, r.points)))] else []) +
         (if r.rebuilt then [Write(DESCRIPTORS_AT, Descriptors(r.points))] else []) +
         (if r.published then [Write(RUNTIME_AT, RuntimeHeaderBytes(r.publication))] else [])
  {
    hide Expected, Replace, Replaced, NeedsPublish, Flat, MovedStates, Descriptors, RuntimeHeaderBytes;
    ReconciledIs(board.points, board.publication, slot, records, hash);
  }
}
