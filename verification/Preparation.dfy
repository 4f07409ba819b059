/** The point catalog in place: a load replaces the slot's variables in it. */
module Preparation {
  import opened Bytes
  import opened Catalog
  import opened ObjectFile
  import opened Assembler
  import opened SlotVariables

  type State = seq<byte>

  /** A point state nobody has written. */
  const NEW_STATE: State := Zeros(STATE_SIZE)

  /** memmove of array elements. */
  method Move<T>(a: array<T>, from: nat, to: nat, n: nat)
    requires from + n <= a.Length && to + n <= a.Length
    modifies a
    ensures a[to..to + n] == old(a[from..from + n])
    ensures forall k | 0 <= k < a.Length && !(to <= k < to + n) :: a[k] == old(a[k])
  {
    forall i | 0 <= i < n {
      a[to + i] := a[from + i];
    }
  }

  /** Room for `n` elements at a position. */
  method MoveUp<T>(a: array<T>, at: nat, compacted: nat, n: nat)
    requires at <= compacted && compacted + n <= a.Length
    modifies a
    ensures a[..][..at] == old(a[..compacted])[..at]
    ensures a[..][at + n..compacted + n] == old(a[..compacted])[at..]
  {
    if at < compacted && n != 0 {
      Move(a, at, at + n, compacted - at);
    }
    assert a[at + n..compacted + n] == old(a[at..compacted]);
  }

  lemma InsertAtIs(kept: Points, slot: u16, at: nat)
    requires at <= |kept| && (at < |kept| ==> IsBehind(kept[at], slot))
    requires forall i | 0 <= i < at :: !IsBehind(kept[i], slot)
    ensures InsertAt(kept, slot) == at
  {
    hide IsBehind, InsertAt;
  }

  lemma KeptNext<T>(points: Points, slot: u16, values: seq<T>, i: nat)
    requires |values| == |points| && i < |points|
    ensures Kept(points[..i + 1], slot, values[..i + 1]) ==
            Kept(points[..i], slot, values[..i]) + (if IsSlotVariable(points[i], slot) then [] else [values[i]])
  {
    hide IsSlotVariable;
    assert points[..i + 1][..i] == points[..i] && values[..i + 1][..i] == values[..i];
  }

  lemma VariablesNext(points: Points, slot: u16, i: nat)
    requires i < |points|
    ensures Variables(points[..i + 1], slot) ==
            Variables(points[..i], slot) + (if IsSlotVariable(points[i], slot) then [points[i]] else [])
  {
    hide IsSlotVariable;
    assert points[..i + 1][..i] == points[..i];
  }

  class PointCatalog {
    const entries: array<Point>
    const states: array<State>
    var count: nat

    predicate Valid()
      reads this
    {
      entries.Length == MAX_POINTS && states.Length == MAX_POINTS && count <= MAX_POINTS
    }

    function Contents(): (points: Points)
      requires Valid()
      reads this, entries
    {
      entries[..count]
    }

    function States(): (s: seq<State>)
      requires Valid()
      reads this, states
    {
      states[..count]
    }

    /** The first loop: how many variables the slot has, and whether they are not the ones given. */
    method Compare(slot: u16, definitions: Points) returns (existing: nat, differs: bool)
      requires Valid()
      ensures existing == |Variables(Contents(), slot)|
      ensures differs || existing != |definitions| <==> Variables(Contents(), slot) != definitions
    {
      hide Variables, IsSlotVariable;
      existing, differs := 0, false;
      ghost var points := Contents();
      NoVariables(points, slot);
      for i := 0 to count
        invariant existing == |Variables(points[..i], slot)|
        invariant !differs <==> existing <= |definitions| && Variables(points[..i], slot) == definitions[..existing]
      {
        VariablesNext(points, slot, i);
        ghost var before := Variables(points[..i], slot);
        if IsSlotVariable(entries[i], slot) {
          if |definitions| <= existing || entries[i] != definitions[existing] {
            differs := true;
          }
          ghost var after := before + [points[i]];
          assert after[..|before|] == before;
          assert existing < |definitions| ==>
              definitions[..existing + 1] == definitions[..existing] + [definitions[existing]];
          assert existing < |definitions| ==> definitions[..existing + 1][..existing] == definitions[..existing];
          existing := existing + 1;
        }
      }
      assert points[..count] == points;
      assert definitions[..|definitions|] == definitions;
    }

    /** The second loop: what stays moves down over the slot's variables. */
    method Compact(slot: u16) returns (compacted: nat)
      requires Valid()
      modifies entries, states
      ensures compacted == |Kept(old(Contents()), slot, old(Contents()))| <= count
      ensures entries[..compacted] == Kept(old(Contents()), slot, old(Contents()))
      ensures states[..compacted] == Kept(old(Contents()), slot, old(States()))
    {
      hide Kept, IsSlotVariable;
      compacted := 0;
      ghost var points, values := Contents(), States();
      NoneKept(points, slot, points);
      NoneKept(points, slot, values);
      for i := 0 to count
        invariant compacted <= i
        invariant entries[..compacted] == Kept(points[..i], slot, points[..i])
        invariant states[..compacted] == Kept(points[..i], slot, values[..i])
        invariant forall k | i <= k < count :: entries[k] == points[k] && states[k] == values[k]
      {
        KeptNext(points, slot, points, i);
        KeptNext(points, slot, values, i);
        if IsSlotVariable(entries[i], slot) {
          continue;
        }
        if compacted != i {
          entries[compacted] := entries[i];
          states[compacted] := states[i];
        }
        compacted := compacted + 1;
        assert entries[..compacted] == entries[..compacted - 1] + [points[i]];
        assert states[..compacted] == states[..compacted - 1] + [values[i]];
      }
      assert points[..count] == points && values[..count] == values;
    }

    /** The third loop. */
    method InsertPosition(slot: u16, compacted: nat) returns (at: nat)
      requires Valid() && compacted <= count
      ensures at == InsertAt(entries[..compacted], slot)
    {
      hide InsertAt, IsBehind;
      at := compacted;
      for i := 0 to compacted
        invariant at == compacted && forall k | 0 <= k < i :: !IsBehind(entries[k], slot)
      {
        if IsBehind(entries[i], slot) {
          at := i;
          break;
        }
      }
      InsertAtIs(entries[..compacted], slot, at);
    }

    /** The new variables, with new states, from the position on. */
    method Write(at: nat, definitions: Points)
      requires Valid() && at + |definitions| <= MAX_POINTS
      modifies entries, states
      ensures entries[at..at + |definitions|] == definitions
      ensures states[at..at + |definitions|] == seq(|definitions|, _ => NEW_STATE)
      ensures entries[..at] == old(entries[..at]) && states[..at] == old(states[..at])
      ensures entries[at + |definitions|..] == old(entries[at + |definitions|..])
      ensures states[at + |definitions|..] == old(states[at + |definitions|..])
    {
      for i := 0 to |definitions|
        invariant forall k | at <= k < at + i :: entries[k] == definitions[k - at] && states[k] == NEW_STATE
        invariant forall k | 0 <= k < at :: entries[k] == old(entries[k]) && states[k] == old(states[k])
        invariant forall k | at + i <= k < MAX_POINTS :: entries[k] == old(entries[k]) && states[k] == old(states[k])
      {
        entries[at + i] := definitions[i];
        states[at + i] := NEW_STATE;
      }
    }

    /** What is behind the position moves up, and the new variables are written there. */
    method Insert(compacted: nat, at: nat, definitions: Points)
      requires Valid() && at <= compacted && compacted + |definitions| <= MAX_POINTS
      modifies entries, states
      ensures entries[..compacted + |definitions|] == Inserted(old(entries[..compacted]), at, definitions)
      ensures states[..compacted + |definitions|] ==
              Inserted(old(states[..compacted]), at, seq(|definitions|, _ => NEW_STATE))
    {
      hide Inserted;
      var n := |definitions|;
      ghost var points, values := entries[..compacted], states[..compacted];
      MoveUp(entries, at, compacted, n);
      MoveUp(states, at, compacted, n);
      ghost var e, v := entries[..], states[..];
      Write(at, definitions);
      InsertedIs(entries[..], e, points, at, definitions);
      InsertedIs(states[..], v, values, at, seq(n, _ => NEW_STATE));
    }

    /** replaceSlotVariableDefinitions */
    method ReplaceSlotVariableDefinitions(slot: u16, definitions: Points) returns (ok: bool, changed: bool)
      requires Valid()
      modifies this, entries, states
      ensures Valid()
      ensures
        match Replace(old(Contents()), slot, definitions)
        case None => !ok && !changed && Contents() == old(Contents()) && States() == old(States())
        case Some((next, differs)) =>
          && ok && changed == differs && Contents() == next
          && States() == (if differs then
                            Moved(old(Contents()), slot, old(States()), seq(|definitions|, _ => NEW_STATE))
                          else old(States()))
    {
      hide Kept, Variables, InsertAt;
      ghost var points, values := Contents(), States();
      KeptOrVariable(points, slot);
      if MAX_POINTS < |definitions| {
        return false, false;
      }
      var existing, differs := Compare(slot, definitions);
      if MAX_POINTS < count - existing + |definitions| {
        return false, false;
      }
      if !differs && existing == |definitions| {
        return true, false;
      }
      var compacted := Compact(slot);
      var at := InsertPosition(slot, compacted);
      Insert(compacted, at, definitions);
      count := compacted + |definitions|;
      return true, true;
    }
  }

  /** The first loop of reconcileSlotVariablePoints: the points expected, and whether one of them lags. */
  method ExpectPoints(points: Points, publisher: Publisher, slot: u16, records: seq<SymbolRecord>)
    returns (expected: Option<Points>, lags: bool)
    ensures expected == Expected(points, slot, records)
    ensures expected.Some? ==> lags == exists k | 0 <= k < |expected.value| :: Lags(points, publisher, expected.value[k])
  {
    hide ExpectedPoint, Lags;
    var found: Points := [];
    lags := false;
    for i := 0 to |records|
      invariant Expected(points, slot, records[..i]) == Some(found)
      invariant lags == exists k | 0 <= k < |found| :: Lags(points, publisher, found[k])
    {
      assert records[..i + 1][..i] == records[..i];
      if records[i].kind != SLOT_VAR {
        continue;
      }
      var p := ExpectedPoint(points, slot, records[i]);
      if p.None? {
        NoneExpected(points, slot, records, i + 1);
        return None, lags;
      }
      ghost var before := found;
      found := found + [p.value];
      assert forall k | 0 <= k < |before| :: found[k] == before[k];
      if Lags(points, publisher, p.value) {
        assert Lags(points, publisher, found[|before|]);
        lags := true;
      }
    }
    assert records[..|records|] == records;
    expected := Some(found);
  }

  lemma {:induction false} NoneExpected(points: Points, slot: u16, records: seq<SymbolRecord>, i: nat)
    requires i <= |records| && Expected(points, slot, records[..i]).None?
    ensures Expected(points, slot, records).None?
    decreases records
  {
    hide ExpectedPoint;
    if i == |records| {
      assert records[..i] == records;
    } else {
      var init := records[..|records| - 1];
      assert init[..i] == records[..i];
      NoneExpected(points, slot, init, i);
    }
  }

  /** The second loop. */
  method CountPoints(points: Points, slot: u16) returns (existing: nat)
    ensures existing == Counted(points, slot)
  {
    hide IsCounted;
    existing := 0;
    for i := 0 to |points|
      invariant existing == Counted(points[..i], slot)
    {
      assert points[..i + 1][..i] == points[..i];
      if IsCounted(points[i], slot) {
        existing := existing + 1;
      }
    }
    assert points[..|points|] == points;
  }

  /** reconcileSlotVariablePoints, with what the publisher has published afterwards */
  method ReconcileSlotVariablePoints(catalog: PointCatalog, publication: Publication, slot: u16,
                                     records: Option<seq<SymbolRecord>>, hash: u32)
    returns (ok: bool, next: Publication, changed: bool)
    requires catalog.Valid()
    modifies catalog, catalog.entries, catalog.states
    ensures catalog.Valid()
    ensures
      var r := Reconcile(old(catalog.Contents()), publication, slot, records, hash);
      && ok == r.ok && next == r.publication && changed == r.changed && catalog.Contents() == r.points
    ensures catalog.States() ==
            (if changed then
               Moved(old(catalog.Contents()), slot, old(catalog.States()),
                     seq(|Variables(catalog.Contents(), slot)|, _ => NEW_STATE))
             else old(catalog.States()))
  {
    hide Expected, Replace, Kept, Counted, Lags, Variables, Moved;
    next := publication;
    if records.None? {
      return false, publication, false;
    }
    ghost var points := catalog.Contents();
    var expected, lags := ExpectPoints(catalog.Contents(), publication.publisher, slot, records.value);
    if expected.None? {
      return false, publication, false;
    }
    var existing := CountPoints(catalog.Contents(), slot);
    var needsPublish := lags || existing != |expected.value|;
    ok, changed := catalog.ReplaceSlotVariableDefinitions(slot, expected.value);
    if changed {
      ReplaceIs(points, slot, records.value);
    }
    if ok && (changed || needsPublish) {
      if !next.publisher.ready {
        ok := false;
      } else if !next.written || next.hash != hash {
        next := Publication(next.publisher, true, hash, (next.epoch + 1) % 0x1_0000_0000, catalog.count);
      }
    }
  }

  lemma NoVariables(points: Points, slot: u16)
    ensures Variables(points[..0], slot) == []
  {
  }

  lemma NoneKept<T>(points: Points, slot: u16, values: seq<T>)
    requires |values| == |points|
    ensures Kept(points[..0], slot, values[..0]) == []
  {
  }

  lemma InsertedIs<T>(a: seq<T>, moved: seq<T>, s: seq<T>, at: nat, added: seq<T>)
    requires at <= |s| && |s| + |added| <= |a| == |moved|
    requires moved[..at] == s[..at] && moved[at + |added|..|s| + |added|] == s[at..]
    requires a[..at] == moved[..at] && a[at..at + |added|] == added && a[at + |added|..] == moved[at + |added|..]
    ensures a[..|s| + |added|] == Inserted(s, at, added)
  {
    var n := |s| - at;
    assert a[at + |added|..][..n] == moved[at + |added|..][..n];
    assert a[..|s| + |added|] == a[..at] + a[at..at + |added|] + a[at + |added|..|s| + |added|];
  }
}
