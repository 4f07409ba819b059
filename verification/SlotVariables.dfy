/** The slot variables of a program as points of the catalog: what a load makes of the catalog before it links,
    and where the points of the others are afterwards. */
module SlotVariables {
  import opened Bytes
  import opened Isa
  import opened Literals
  import opened Assembler
  import opened ObjectFile
  import opened Catalog
  import opened FlashLinker

  // Points of slots

  /** parse_slot_feature_suffix */
  function SlotOf(feature: string): Option<u16> {
    if |SLOT_FEATURE| < |feature| && feature[..|SLOT_FEATURE|] == SLOT_FEATURE && AllDigits(feature[|SLOT_FEATURE|..]) then
      match DigitsValue(feature[|SLOT_FEATURE|..], 10)
      case None => None
      case Some(v) => if v <= 0xFFFF then Some(v) else None
    else None
  }

  /** The commands among a slot's points. */
  const SLOT_COMMANDS: set<string> := {"start", "stop", "reset", "clearFault"}

  /** is_slot_variable_point */
  predicate IsSlotVariable(p: Point, slot: u16) {
    p.local && SlotOf(p.id.feature) == Some(slot) && p.id.point !in BUILTIN_POINTS && p.id.point != ""
  }

  /** A point, other than a command, of a slot behind this one. */
  predicate IsBehind(p: Point, slot: u16) {
    && p.local && SlotOf(p.id.feature).Some? && p.id.point !in SLOT_COMMANDS
    && slot < SlotOf(p.id.feature).value
  }

  /** What belongs to the points that are no variables of the slot: of the points themselves, or of anything
      kept in the order of the points. */
  function Kept<T>(points: Points, slot: u16, values: seq<T>): (kept: seq<T>)
    requires |values| == |points|
    ensures |kept| <= |points|
  {
    if points == [] then []
    else
      var last := |points| - 1;
      Kept(points[..last], slot, values[..last]) + (if IsSlotVariable(points[last], slot) then [] else [values[last]])
  }

  function Variables(points: Points, slot: u16): (variables: Points)
    ensures |variables| <= |points|
  {
    if points == [] then []
    else
      var last := |points| - 1;
      Variables(points[..last], slot) + (if IsSlotVariable(points[last], slot) then [points[last]] else [])
  }

  /** The position of the first point behind the slot, or the end. */
  function InsertAt(kept: Points, slot: u16): (at: nat)
    ensures at <= |kept|
    ensures at < |kept| ==> IsBehind(kept[at], slot)
    ensures forall i | 0 <= i < at :: !IsBehind(kept[i], slot)
  {
    if kept == [] || IsBehind(kept[0], slot) then 0 else 1 + InsertAt(kept[1..], slot)
  }

  function Inserted<T>(s: seq<T>, at: nat, added: seq<T>): seq<T>
    requires at <= |s|
  {
    s[..at] + added + s[at..]
  }

  /** The catalog with other variables for the slot. */
  function Replaced(points: Points, slot: u16, added: Points): Points {
    var kept := Kept(points, slot, points);
    Inserted(kept, InsertAt(kept, slot), added)
  }

  /** Anything kept in the order of the points, with something for the new ones. */
  function Moved<T>(points: Points, slot: u16, values: seq<T>, added: seq<T>): seq<T>
    requires |values| == |points|
  {
    KeptLength(points, slot, values, points);
    Inserted(Kept(points, slot, values), InsertAt(Kept(points, slot, points), slot), added)
  }

  /** replaceSlotVariableDefinitions: the catalog, and whether it has changed; nothing if it would be full. */
  function Replace(points: Points, slot: u16, added: Points): Option<(Points, bool)> {
    if MAX_POINTS < |Kept(points, slot, points)| + |added| then None
    else if Variables(points, slot) == added then Some((points, false))
    else Some((Replaced(points, slot, added), true))
  }

  lemma {:induction false} KeptLength<T, U>(points: Points, slot: u16, a: seq<T>, b: seq<U>)
    requires |a| == |b| == |points|
    ensures |Kept(points, slot, a)| == |Kept(points, slot, b)|
  {
    if points != [] {
      var last := |points| - 1;
      KeptLength(points[..last], slot, a[..last], b[..last]);
    }
  }

  // What a load asks for

  /** buildExpectedSlotVariableDefinition: nothing for a name that cannot be a slot variable's; a type that is
      not supported leaves the other fields as they are in a fresh definition. */
  function ExpectedPoint(points: Points, slot: u16, record: SymbolRecord): Option<Point> {
    if points == [] || record.name == "" || record.name in BUILTIN_POINTS then None
    else
      var feature := SlotFeature(slot);
      var id := Identity(SlotDevice(points, feature), feature, record.name);
      Some(if SupportedSlotVariableType(record.expectedType) then
             Point(id, record.name, true, if record.flags % 2 == 1 then Direction.Input else Direction.InOut,
                   record.expectedType, SLOT_DETAILS)
           else Point(id, "", true, Direction.Input, TYPE_BOOL, DEFAULT_DETAILS))
  }

  function Expected(points: Points, slot: u16, records: seq<SymbolRecord>): Option<Points> {
    if records == [] then Some([])
    else
      var last := records[|records| - 1];
      var init := Expected(points, slot, records[..|records| - 1]);
      if init.None? || last.kind != SLOT_VAR then init
      else
        match ExpectedPoint(points, slot, last)
        case None => None
        case Some(p) => Some(init.value + [p])
  }

  /** isSlotVariablePoint, by which the loader counts. */
  predicate IsCounted(p: Point, slot: u16) {
    p.local && p.id.feature == SlotFeature(slot) && p.id.point !in BUILTIN_POINTS && p.id.point != ""
  }

  function Counted(points: Points, slot: u16): nat {
    if points == [] then 0
    else Counted(points[..|points| - 1], slot) + (if IsCounted(points[|points| - 1], slot) then 1 else 0)
  }

  /** The point is not in the catalog as expected, or has no state that is published. */
  predicate Lags(points: Points, publisher: Publisher, expected: Point) {
    var i := FindIndex(points, expected.id);
    i == |points| || points[i] != expected || StateIndex(publisher, i) == INVALID_INDEX
  }

  /** Whether the catalog has to be published again even if it does not change. */
  predicate NeedsPublish(points: Points, publisher: Publisher, slot: u16, expected: Points) {
    || Counted(points, slot) != |expected|
    || exists k | 0 <= k < |expected| :: Lags(points, publisher, expected[k])
  }

  /** What the publisher has published: whether at all, the hash of the catalog then, how often, and how many
      points. */
  datatype Publication = Publication(publisher: Publisher, written: bool, hash: u32, epoch: u32, count: nat)

  /** The catalog, what is published of it, and what the last step did. */
  datatype Reconciled = Reconciled(ok: bool, points: Points, publication: Publication, changed: bool,
                                   rebuilt: bool, published: bool)

  /** publish: the descriptors are only rebuilt for another hash. */
  function Publish(r: Reconciled, hash: u32): Reconciled {
    var p := r.publication;
    if !p.publisher.ready then r.(ok := false)
    else
      var rebuilds := !p.written || p.hash != hash;
      r.(publication := if rebuilds then p.(written := true, hash := hash, epoch := (p.epoch + 1) % 0x1_0000_0000,
                                            count := |r.points|)
                        else p,
         rebuilt := rebuilds, published := true)
  }

  /** reconcileSlotVariablePoints: with the symbol records, or nothing if one cannot be read. `hash` is that of
      the definitions of the catalog once they are as expected. */
  function Reconcile(points: Points, publication: Publication, slot: u16, records: Option<seq<SymbolRecord>>, hash: u32)
    : Reconciled
  {
    var failed := Reconciled(false, points, publication, false, false, false);
    if records.None? then failed
    else
      match Expected(points, slot, records.value)
      case None => failed
      case Some(expected) =>
        match Replace(points, slot, expected)
        case None => failed
        case Some((next, changed)) =>
          var replaced := Reconciled(true, next, publication, changed, false, false);
          if changed || NeedsPublish(points, publication.publisher, slot, expected) then
            Publish(replaced, hash)
          else replaced
  }

  // Where points go

  lemma {:induction false} KeptConcat<T>(p: Points, q: Points, slot: u16, a: seq<T>, b: seq<T>)
    requires |a| == |p| && |b| == |q|
    ensures Kept(p + q, slot, a + b) == Kept(p, slot, a) + Kept(q, slot, b)
    decreases q
  {
    hide IsSlotVariable;
    if q == [] {
      assert p + q == p && a + b == a;
    } else {
      var last := |q| - 1;
      var r, c := p + q, a + b;
      assert r[..|r| - 1] == p + q[..last] && c[..|c| - 1] == a + b[..last];
      KeptConcat(p, q[..last], slot, a, b[..last]);
    }
  }

  lemma {:induction false} VariablesConcat(p: Points, q: Points, slot: u16)
    ensures Variables(p + q, slot) == Variables(p, slot) + Variables(q, slot)
    decreases q
  {
    hide IsSlotVariable;
    if q == [] {
      assert p + q == p;
    } else {
      var last := |q| - 1;
      var r := p + q;
      assert r[..|r| - 1] == p + q[..last];
      VariablesConcat(p, q[..last], slot);
    }
  }

  predicate AllKept(points: Points, slot: u16) {
    forall i | 0 <= i < |points| :: !IsSlotVariable(points[i], slot)
  }

  predicate AllVariables(points: Points, slot: u16) {
    forall i | 0 <= i < |points| :: IsSlotVariable(points[i], slot)
  }

  lemma {:induction false} AllAreVariables(points: Points, slot: u16)
    requires AllVariables(points, slot)
    ensures Kept(points, slot, points) == [] && Variables(points, slot) == points
  {
    hide IsSlotVariable;
    if points != [] {
      AllAreVariables(points[..|points| - 1], slot);
    }
  }

  lemma {:induction false} NoneAreVariables(points: Points, slot: u16)
    requires AllKept(points, slot)
    ensures Kept(points, slot, points) == points && Variables(points, slot) == []
  {
    hide IsSlotVariable;
    if points != [] {
      NoneAreVariables(points[..|points| - 1], slot);
    }
  }

  lemma {:induction false} KeptAreNoVariables(points: Points, slot: u16)
    ensures AllKept(Kept(points, slot, points), slot)
  {
    hide IsSlotVariable;
    if points != [] {
      var last := |points| - 1;
      KeptAreNoVariables(points[..last], slot);
      var init := Kept(points[..last], slot, points[..last]);
      var kept := Kept(points, slot, points);
      assert kept == init + (if IsSlotVariable(points[last], slot) then [] else [points[last]]);
      forall i | 0 <= i < |kept|
        ensures !IsSlotVariable(kept[i], slot)
      {
        if i < |init| {
          assert kept[i] == init[i] && !IsSlotVariable(init[i], slot);
        } else {
          assert kept[i] == points[last];
        }
      }
    }
  }

  lemma {:induction false} KeptKeepsOthers(points: Points, slot: u16, other: u16)
    requires other != slot
    ensures Variables(Kept(points, slot, points), other) == Variables(points, other)
  {
    if points != [] {
      var last := points[|points| - 1];
      var kept := Kept(points[..|points| - 1], slot, points[..|points| - 1]);
      KeptKeepsOthers(points[..|points| - 1], slot, other);
      assert !(IsSlotVariable(last, slot) && IsSlotVariable(last, other));
      hide IsSlotVariable;
      var more := if IsSlotVariable(last, slot) then [] else [last];
      assert Kept(points, slot, points) == kept + more;
      VariablesConcat(kept, more, other);
      VariablesOne(last, other);
    }
  }

  lemma VariablesOne(p: Point, slot: u16)
    ensures Variables([p], slot) == if IsSlotVariable(p, slot) then [p] else []
  {
    hide IsSlotVariable;
    assert [p][..0] == [];
  }

  lemma {:induction false} NoneOfOther(points: Points, slot: u16, other: u16)
    requires other != slot && AllVariables(points, slot)
    ensures Variables(points, other) == []
  {
    if points != [] {
      assert IsSlotVariable(points[|points| - 1], slot);
      NoneOfOther(points[..|points| - 1], slot, other);
    }
  }

  lemma KeptOfThree(a: Points, b: Points, c: Points, slot: u16)
    requires AllKept(a, slot) && AllVariables(b, slot) && AllKept(c, slot)
    ensures Kept(a + b + c, slot, a + b + c) == a + c && Variables(a + b + c, slot) == b
  {
    hide *;
    NoneAreVariables(a, slot);
    AllAreVariables(b, slot);
    NoneAreVariables(c, slot);
    KeptConcat(a, b, slot, a, b);
    KeptConcat(a + b, c, slot, a + b, c);
    VariablesConcat(a, b, slot);
    VariablesConcat(a + b, c, slot);
  }

  lemma OthersOfThree(a: Points, b: Points, c: Points, slot: u16, other: u16)
    requires other != slot && AllVariables(b, slot)
    ensures Variables(a + b + c, other) == Variables(a + c, other)
  {
    hide *;
    NoneOfOther(b, slot, other);
    VariablesConcat(a, b, other);
    VariablesConcat(a + b, c, other);
    VariablesConcat(a, c, other);
  }

  lemma PartsAreKept(kept: Points, slot: u16, at: nat)
    requires AllKept(kept, slot) && at <= |kept|
    ensures AllKept(kept[..at], slot) && AllKept(kept[at..], slot)
  {
    hide IsSlotVariable;
  }

  /** The slot has exactly the new variables then; every other point, of other slots or of none, is still
      there in the same order. */
  lemma ReplacedIs(points: Points, slot: u16, added: Points)
    requires AllVariables(added, slot)
    ensures
      var replaced := Replaced(points, slot, added);
      && Variables(replaced, slot) == added
      && Kept(replaced, slot, replaced) == Kept(points, slot, points)
      && forall other: u16 | other != slot :: Variables(replaced, other) == Variables(points, other)
  {
    hide IsSlotVariable, InsertAt, Kept, Variables, AllKept, AllVariables;
    var kept := Kept(points, slot, points);
    var at := InsertAt(kept, slot);
    assert kept[..at] + kept[at..] == kept;
    KeptAreNoVariables(points, slot);
    PartsAreKept(kept, slot, at);
    KeptOfThree(kept[..at], added, kept[at..], slot);
    forall other: u16 | other != slot
      ensures Variables(Replaced(points, slot, added), other) == Variables(points, other)
    {
      KeptKeepsOthers(points, slot, other);
      OthersOfThree(kept[..at], added, kept[at..], slot, other);
    }
  }

  /** So replacing again changes nothing. */
  lemma ReplaceAgain(points: Points, slot: u16, added: Points)
    requires AllVariables(added, slot) && Replace(points, slot, added).Some?
    ensures Replace(Replace(points, slot, added).value.0, slot, added) == Some((Replace(points, slot, added).value.0, false))
  {
    hide IsSlotVariable, Replaced, Kept, Variables, AllVariables;
    ReplacedIs(points, slot, added);
  }

  /** How many points before this one stay. */
  function Rank(points: Points, slot: u16, i: nat): nat
    requires i <= |points|
  {
    |Kept(points[..i], slot, points[..i])|
  }

  /** Where a point that stays is, once `count` others have been added. */
  function NewIndex(points: Points, slot: u16, i: nat, count: nat): nat
    requires i <= |points|
  {
    var rank := Rank(points, slot, i);
    rank + (if InsertAt(Kept(points, slot, points), slot) <= rank then count else 0)
  }

  lemma KeptSplit<T>(points: Points, slot: u16, values: seq<T>, i: nat)
    requires |values| == |points| && i < |points|
    ensures Kept(points, slot, values) ==
            Kept(points[..i], slot, values[..i]) + (if IsSlotVariable(points[i], slot) then [] else [values[i]]) +
            Kept(points[i + 1..], slot, values[i + 1..])
  {
    hide IsSlotVariable;
    var p, a := points[..i + 1], values[..i + 1];
    assert p + points[i + 1..] == points && a + values[i + 1..] == values;
    assert p[..i] == points[..i] && a[..i] == values[..i];
    KeptConcat(p, points[i + 1..], slot, a, values[i + 1..]);
  }

  /** Nothing gets lost or mixed up: what belongs to a point that stays is where the point is. */
  lemma MovedAt<T>(points: Points, slot: u16, values: seq<T>, added: seq<T>, i: nat)
    requires |values| == |points| && i < |points| && !IsSlotVariable(points[i], slot)
    ensures
      var moved := Moved(points, slot, values, added);
      NewIndex(points, slot, i, |added|) < |moved| && moved[NewIndex(points, slot, i, |added|)] == values[i]
  {
    hide IsSlotVariable, InsertAt, Kept;
    KeptSplit(points, slot, values, i);
    KeptLength(points, slot, values, points);
    KeptLength(points[..i], slot, values[..i], points[..i]);
  }

  lemma RankMonotone(points: Points, slot: u16, i: nat, j: nat)
    requires i <= j <= |points|
    ensures Rank(points, slot, i) <= Rank(points, slot, j)
  {
    hide Kept;
    var p := points[..j];
    assert p[..i] == points[..i] && p[..i] + p[i..] == p;
    KeptConcat(p[..i], p[i..], slot, p[..i], p[i..]);
  }

  lemma {:induction false} KeptFrom(points: Points, slot: u16, r: nat) returns (i: nat)
    requires r < |Kept(points, slot, points)|
    ensures i < |points| && !IsSlotVariable(points[i], slot) && Rank(points, slot, i) == r
    decreases points
  {
    hide IsSlotVariable;
    var last := |points| - 1;
    var init := points[..last];
    if r < |Kept(init, slot, init)| {
      i := KeptFrom(init, slot, r);
      assert init[..i] == points[..i];
    } else {
      i := last;
    }
  }

  lemma LastIs(points: Points, id: Identity, i: nat)
    requires i < |points| && points[i].id == id && forall k | i < k < |points| :: points[k].id != id
    ensures FindIndex(points, id) == i
  {
    hide FindIndex;
  }

  predicate Lacks(points: Points, id: Identity) {
    forall k | 0 <= k < |points| :: points[k].id != id
  }

  /** A point that stays is still found by its identity, at its new index. */
  lemma FoundAgain(points: Points, slot: u16, added: Points, id: Identity)
    requires FindIndex(points, id) < |points| && !IsSlotVariable(points[FindIndex(points, id)], slot)
    requires Lacks(added, id)
    ensures
      var i := FindIndex(points, id);
      var next := Replaced(points, slot, added);
      && FindIndex(next, id) == NewIndex(points, slot, i, |added|) < |next|
      && next[NewIndex(points, slot, i, |added|)] == points[i]
  {
    var i, next := FindIndex(points, id), Replaced(points, slot, added);
    hide IsSlotVariable, InsertAt, Kept, FindIndex;
    var kept := Kept(points, slot, points);
    var at := InsertAt(kept, slot);
    MovedAt(points, slot, points, added, i);
    var found := NewIndex(points, slot, i, |added|);
    forall k | found < k < |next|
      ensures next[k].id != id
    {
      if at <= k < at + |added| {
        assert next[k] == added[k - at];
      } else {
        var j := KeptFrom(points, slot, if k < at then k else k - |added|);
        MovedAt(points, slot, points, added, j);
        assert NewIndex(points, slot, j, |added|) == k;
        if j <= i {
          RankMonotone(points, slot, j, i);
        }
      }
    }
    LastIs(next, id, found);
  }

  lemma {:induction false} KeptOrVariable(points: Points, slot: u16)
    ensures |Kept(points, slot, points)| + |Variables(points, slot)| == |points|
  {
    hide IsSlotVariable;
    if points != [] {
      KeptOrVariable(points[..|points| - 1], slot);
    }
  }

  /** A point that stays keeps its index if and only if as many variables are put in before it as are taken
      out before it. */
  lemma StaysExactly(points: Points, slot: u16, i: nat, count: nat)
    requires i <= |points|
    ensures
      var before := InsertAt(Kept(points, slot, points), slot) <= Rank(points, slot, i);
      NewIndex(points, slot, i, count) == i <==> |Variables(points[..i], slot)| == if before then count else 0
  {
    hide Kept, InsertAt, Variables;
    KeptOrVariable(points[..i], slot);
  }

  // What is expected

  lemma SlotOfFeature(slot: u16)
    ensures SlotOf(SlotFeature(slot)) == Some(slot)
  {
    var feature := SlotFeature(slot);
    assert feature[..|SLOT_FEATURE|] == SLOT_FEATURE && feature[|SLOT_FEATURE|..] == Decimal(slot);
    DecimalIsDigits(slot);
    DigitsOfDecimal(slot);
    hide DigitsValue, Decimal, AllDigits;
  }

  lemma {:induction false} ExpectedAreVariables(points: Points, slot: u16, records: seq<SymbolRecord>)
    requires Expected(points, slot, records).Some?
    ensures AllVariables(Expected(points, slot, records).value, slot)
    decreases records
  {
    if records != [] {
      ExpectedAreVariables(points, slot, records[..|records| - 1]);
      SlotOfFeature(slot);
      hide SlotOf, SlotFeature, SlotDevice, Expected, BUILTIN_POINTS;
      ExpectedLast(points, slot, records);
    }
  }

  /** The last record adds its point, if it is a slot variable's. */
  lemma ExpectedLast(points: Points, slot: u16, records: seq<SymbolRecord>)
    requires records != [] && Expected(points, slot, records).Some?
    ensures
      var last := records[|records| - 1];
      && Expected(points, slot, records[..|records| - 1]).Some?
      && Expected(points, slot, records).value ==
         Expected(points, slot, records[..|records| - 1]).value +
         (if last.kind == SLOT_VAR then [ExpectedPoint(points, slot, last).GetOr(points[0])] else [])
      && (last.kind == SLOT_VAR ==> ExpectedPoint(points, slot, last).Some?)
  {
  }

  /** Every point of the slot's feature is local and on the slot's device, which has a name. */
  predicate OnDevice(points: Points, slot: u16) {
    && points != []
    && SlotDevice(points, SlotFeature(slot)) != ""
    && forall p | p in points ::
         p.id.feature == SlotFeature(slot) ==> p.local && p.id.device == SlotDevice(points, SlotFeature(slot))
  }

  predicate DistinctNames(records: seq<SymbolRecord>) {
    forall j, k | 0 <= j < k < |records| && records[j].kind == records[k].kind == SLOT_VAR ::
      records[j].name != records[k].name
  }

  lemma {:induction false} VariablesHas(points: Points, slot: u16, p: Point)
    requires p in points && IsSlotVariable(p, slot)
    ensures p in Variables(points, slot)
  {
    hide IsSlotVariable;
    var last := |points| - 1;
    if p != points[last] {
      VariablesHas(points[..last], slot, p);
    }
  }

  lemma {:induction false} KeptHas(points: Points, slot: u16, p: Point)
    requires p in Kept(points, slot, points)
    ensures p in points
  {
    hide IsSlotVariable;
    var last := |points| - 1;
    if p in Kept(points[..last], slot, points[..last]) {
      KeptHas(points[..last], slot, p);
    }
  }

  lemma ReplacedHas(points: Points, slot: u16, added: Points, p: Point)
    requires p in Replaced(points, slot, added)
    ensures p in points || p in added
  {
    hide Kept, InsertAt;
    if p in Kept(points, slot, points) {
      KeptHas(points, slot, p);
    }
  }

  /** Each expected point is that of a record, and has its type if that is supported. */
  lemma {:induction false} ExpectedHas(points: Points, slot: u16, records: seq<SymbolRecord>, p: Point) returns (k: nat)
    requires Expected(points, slot, records).Some? && p in Expected(points, slot, records).value
    ensures k < |records| && records[k].kind == SLOT_VAR
    ensures ExpectedPoint(points, slot, records[k]) == Some(p)
    decreases records
  {
    hide ExpectedPoint;
    var last := |records| - 1;
    if p in Expected(points, slot, records[..last]).value {
      k := ExpectedHas(points, slot, records[..last], p);
    } else {
      k := last;
    }
  }

  lemma {:induction false} ExpectedOf(points: Points, slot: u16, records: seq<SymbolRecord>, k: nat)
    requires Expected(points, slot, records).Some? && k < |records| && records[k].kind == SLOT_VAR
    ensures ExpectedPoint(points, slot, records[k]).Some?
    ensures ExpectedPoint(points, slot, records[k]).value in Expected(points, slot, records).value
    decreases records
  {
    hide ExpectedPoint;
    var last := |records| - 1;
    if k < last {
      ExpectedOf(points, slot, records[..last], k);
    }
  }

  lemma {:induction false} FirstLocalIs(points: Points, feature: string, device: string, p: Point)
    requires p in points && p.id.feature == feature
    requires forall q | q in points :: q.id.feature == feature ==> q.local && q.id.device == device
    ensures FirstLocalDevice(points, feature) == Some(device)
    decreases points
  {
    assert points[0] in points;
    if points[0].id.feature != feature {
      assert forall q | q in points[1..] :: q in points;
      FirstLocalIs(points[1..], feature, device, p);
    }
  }

  /** The points expected for the slot are on the slot's device. */
  lemma ExpectedPlace(points: Points, slot: u16, record: SymbolRecord)
    requires ExpectedPoint(points, slot, record).Some?
    ensures
      var p := ExpectedPoint(points, slot, record).value;
      && points != [] && p.local && record.name != "" && record.name !in BUILTIN_POINTS
      && p.id == Identity(SlotDevice(points, SlotFeature(slot)), SlotFeature(slot), record.name)
      && (SupportedSlotVariableType(record.expectedType) ==> p.valueType == record.expectedType)
  {
  }

  /** What replacing leaves has the same device for the slot, if it has any variable. */
  lemma DeviceStays(points: Points, slot: u16, records: seq<SymbolRecord>, next: Points, p: Point)
    requires OnDevice(points, slot) && Expected(points, slot, records).Some?
    requires
      var added := Expected(points, slot, records).value;
      p in added && (next == points || next == Replaced(points, slot, added)) && Variables(next, slot) == added
    ensures OnDevice(next, slot) && SlotDevice(next, SlotFeature(slot)) == SlotDevice(points, SlotFeature(slot))
  {
    hide Kept, InsertAt, Replaced, Expected, ExpectedPoint, SlotFeature, IsSlotVariable;
    var feature := SlotFeature(slot);
    var added := Expected(points, slot, records).value;
    hide SlotDevice;
    forall q | q in next
      ensures q.id.feature == feature ==> q.local && q.id.device == SlotDevice(points, feature)
    {
      if next != points {
        ReplacedHas(points, slot, added, q);
      }
      if q in added {
        var k := ExpectedHas(points, slot, records, q);
        ExpectedPlace(points, slot, records[k]);
      }
    }
    VariablesAre(next, slot, p);
    var k := ExpectedHas(points, slot, records, p);
    ExpectedPlace(points, slot, records[k]);
    FirstLocalIs(next, feature, SlotDevice(points, feature), p);
    DeviceIs(next, feature);
  }

  lemma DeviceIs(points: Points, feature: string)
    requires points != []
    ensures
      var device := FirstLocalDevice(points, feature);
      device.Some? && device.value != "" ==> SlotDevice(points, feature) == device.value
  {
  }

  lemma {:induction false} VariablesAre(points: Points, slot: u16, p: Point)
    requires p in Variables(points, slot)
    ensures p in points && IsSlotVariable(p, slot)
  {
    hide IsSlotVariable;
    var last := |points| - 1;
    if p in Variables(points[..last], slot) {
      VariablesAre(points[..last], slot, p);
    }
  }

  /** After preparation the point of every slot variable has its type, if no two of them have the same name. */
  lemma PreparedIsTyped(points: Points, slot: u16, records: seq<SymbolRecord>, next: Points, k: nat)
    requires OnDevice(points, slot) && Expected(points, slot, records).Some? && DistinctNames(records)
    requires
      var added := Expected(points, slot, records).value;
      Replace(points, slot, added).Some? && next == Replace(points, slot, added).value.0
    requires k < |records| && records[k].kind == SLOT_VAR && SupportedSlotVariableType(records[k].expectedType)
    ensures next != []
    ensures
      var i := FindIndex(next, Identity(SlotDevice(next, SlotFeature(slot)), SlotFeature(slot), records[k].name));
      i < |next| && next[i].valueType == records[k].expectedType
  {
    hide *;
    var added := Expected(points, slot, records).value;
    ReplaceIs(points, slot, records);
    ExpectedOf(points, slot, records, k);
    var p := ExpectedPoint(points, slot, records[k]).value;
    DeviceStays(points, slot, records, next, p);
    VariablesAre(next, slot, p);
    ExpectedPlace(points, slot, records[k]);
    var id := p.id;
    var i := FindIndex(next, id);
    assert next[i].id == id;
    FoundIsVariable(points, slot, next, next[i], p);
    VariablesHas(next, slot, next[i]);
    var j := ExpectedHas(points, slot, records, next[i]);
    ExpectedPlace(points, slot, records[j]);
    SameRecord(records, j, k);
  }

  /** A preparation leaves the catalog as it is or with other variables for the slot, within its bounds. */
  lemma ReconciledIs(points: Points, publication: Publication, slot: u16, records: Option<seq<SymbolRecord>>, hash: u32)
    ensures
      var r := Reconcile(points, publication, slot, records, hash);
      && r.publication.publisher == publication.publisher
      && (|points| <= MAX_POINTS ==> |r.points| <= MAX_POINTS)
      && (publication.count <= MAX_POINTS && |points| <= MAX_POINTS ==> r.publication.count <= MAX_POINTS)
      && (r.rebuilt ==> r.published) && (r.published ==> r.ok)
      && (!r.changed ==> r.points == points)
      && (r.ok || r.changed ==> records.Some? && Expected(points, slot, records.value).Some?
                                && var added := Expected(points, slot, records.value).value;
                                   Replace(points, slot, added) == Some((r.points, r.changed)))
  {
    hide Kept, InsertAt, Variables, Expected, NeedsPublish;
  }

  lemma SameRecord(records: seq<SymbolRecord>, j: nat, k: nat)
    requires DistinctNames(records) && j < |records| && k < |records|
    requires records[j].kind == records[k].kind == SLOT_VAR && records[j].name == records[k].name
    ensures j == k
  {
  }

  lemma FoundIsVariable(points: Points, slot: u16, next: Points, q: Point, p: Point)
    requires OnDevice(next, slot) && q in next && q.id == p.id && IsSlotVariable(p, slot)
    requires p.id.feature == SlotFeature(slot)
    ensures IsSlotVariable(q, slot)
  {
    hide SlotOf, SlotFeature, BUILTIN_POINTS, SlotDevice;
  }

  lemma ReplaceIs(points: Points, slot: u16, records: seq<SymbolRecord>)
    requires Expected(points, slot, records).Some?
    requires Replace(points, slot, Expected(points, slot, records).value).Some?
    ensures
      var added := Expected(points, slot, records).value;
      var next := Replace(points, slot, added).value.0;
      Variables(next, slot) == added && (next == points || next == Replaced(points, slot, added))
  {
    hide Replaced, Expected, Variables, Kept;
    ExpectedAreVariables(points, slot, records);
    ReplacedIs(points, slot, Expected(points, slot, records).value);
  }
}
