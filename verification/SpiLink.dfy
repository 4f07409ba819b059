/** What the plcLink client keeps in place: its tables, overwritten record by record, and its ring of
    pending updates. */
module SpiLink {
  import opened Bytes
  import opened PlcLink
  import opened LinkState
  import opened LinkPoll
  import opened LinkRuns
  import opened LinkUpdates

  /** Where the i-th entry of a ring is kept. */
  function Place(head: nat, i: nat): (n: nat)
    ensures n < MAX_PENDING
  {
    (head + i) % MAX_PENDING
  }

  lemma NextPlace(head: nat, i: nat)
    ensures Place(Place(head, 1), i) == Place(head, i + 1)
  {
  }

  lemma PlacesApart(head: nat, i: nat, j: nat)
    requires i < j < MAX_PENDING
    ensures Place(head, i) != Place(head, j)
  {
  }

  /** The ring buffer of pending point updates. */
  class PendingUpdates {
    const ring: array<Update>
    var head: nat
    var count: nat

    ghost predicate Valid()
      reads this
    {
      ring.Length == MAX_PENDING && head < MAX_PENDING && count <= MAX_PENDING
    }

    /** The entries, oldest first. */
    ghost function Contents(): (s: seq<Update>)
      requires Valid()
      reads this, ring
      ensures |s| == count
    {
      seq(count, i requires 0 <= i < count reads this, ring requires Valid() => ring[Place(head, i)])
    }

    constructor ()
      ensures Valid() && Contents() == [] && fresh(ring)
    {
      ring := new Update[MAX_PENDING](_ => Update(0, 0));
      head, count := 0, 0;
    }

    method Clear()
      requires Valid()
      modifies this
      ensures Valid() && Contents() == []
    {
      head, count := 0, 0;
    }

    method Drop()
      requires Valid() && count > 0
      modifies this
      ensures Valid() && count == old(count) - 1 && Contents() == old(Contents())[1..]
    {
      ghost var was, first := Contents(), head;
      hide Place;
      head := Place(head, 1);
      count := count - 1;
      forall i: nat | i < count
        ensures Place(head, i) == Place(first, i + 1)
      {
        NextPlace(first, i);
      }
      assert forall i | 0 <= i < count :: Contents()[i] == ring[Place(head, i)] == ring[Place(first, i + 1)] == was[i + 1];
    }

    /** enqueue_pending_point_update_locked */
    method Push(update: Update)
      requires Valid()
      modifies this, ring
      ensures Valid() && Contents() == Enqueue(old(Contents()), update)
    {
      hide Place;
      if count == MAX_PENDING {
        Drop();
      }
      ghost var kept := Contents();
      forall i: nat | i < count
        ensures Place(head, i) != Place(head, count)
      {
        PlacesApart(head, i, count);
      }
      ring[Place(head, count)] := update;
      count := count + 1;
      assert Contents() == kept + [update];
    }

    /** Taking the oldest entry. */
    method Pop() returns (update: Update)
      requires Valid() && count > 0
      modifies this
      ensures Valid() && update == old(Contents())[0] && Contents() == old(Contents())[1..]
    {
      assert Place(head, 0) == head;
      update := ring[head];
      Drop();
    }
  }

  // Records in a chunk

  /** A record at the start of a chunk, and how long it is there. */
  function FirstRecord(chunk: seq<byte>): (r: (Cached, nat))
    requires Records(chunk, 1).Some?
    ensures r.0.Sized() && 0 < r.1 <= |chunk| && chunk[..r.1] == RecordBytes(r.0)
  {
    var record := chunk[..RECORD_SIZE];
    if record[2] == STRING_POINT then
      var cached := Cached(record, chunk[RECORD_SIZE..RECORD_SIZE + TEXT_SIZE]);
      assert chunk[..RECORD_SIZE + TEXT_SIZE] == cached.record + cached.text;
      (cached, RECORD_SIZE + TEXT_SIZE)
    else (Cached(record, Zeros(TEXT_SIZE)), RECORD_SIZE)
  }

  lemma RecordsUnfold(chunk: seq<byte>, count: nat)
    requires count > 0 && Records(chunk, count).Some?
    ensures Records(chunk, 1).Some?
    ensures
      var first := FirstRecord(chunk);
      && Records(chunk[first.1..], count - 1).Some?
      && Records(chunk, count).value == [first.0] + Records(chunk[first.1..], count - 1).value
  {
    assert Records(chunk[RECORD_SIZE..], 0) == Some([]);
    if chunk[..RECORD_SIZE][2] == STRING_POINT {
      assert Records(chunk[RECORD_SIZE + TEXT_SIZE..], 0) == Some([]);
    }
  }

  /** The records of a chunk take up its first bytes, and it does not matter what follows them. */
  lemma {:induction false} RecordsAreFirst(chunk: seq<byte>, count: nat)
    requires Records(chunk, count).Some?
    ensures
      var bytes := StatesBytes(Records(chunk, count).value);
      bytes <= chunk && Records(bytes, count) == Records(chunk, count)
    decreases count
  {
    if count > 0 {
      RecordsUnfold(chunk, count);
      var first := FirstRecord(chunk);
      var rest := Records(chunk[first.1..], count - 1).value;
      RecordsAreFirst(chunk[first.1..], count - 1);
      hide Records, FirstRecord, RecordBytes;
      FirstIsRead(chunk, first.0, StatesBytes(rest), count, rest);
      assert Records(chunk, count).value[0] == first.0 && Records(chunk, count).value[1..] == rest;
    }
  }

  lemma FirstIsRead(chunk: seq<byte>, first: Cached, more: seq<byte>, count: nat, rest: seq<Cached>)
    requires count > 0 && Records(chunk, 1).Some? && first == FirstRecord(chunk).0
    requires Records(more, count - 1) == Some(rest)
    ensures Records(RecordBytes(first) + more, count) == Some([first] + rest)
  {
    var bytes := RecordBytes(first) + more;
    assert bytes[..RECORD_SIZE] == first.record;
    if first.HasText() {
      assert bytes[RECORD_SIZE..RECORD_SIZE + TEXT_SIZE] == first.text && bytes[RECORD_SIZE + TEXT_SIZE..] == more;
    } else {
      assert bytes[RECORD_SIZE..] == more;
    }
  }

  /** measure_state_records_payload: how many bytes the records take, or nothing if one is cut short. */
  method MeasureStateRecords(chunk: seq<byte>, count: nat) returns (size: Option<nat>)
    ensures size.Some? <==> Records(chunk, count).Some?
    ensures size.Some? ==>
      && size.value <= |chunk|
      && chunk[..size.value] == StatesBytes(Records(chunk, count).value)
      && Records(chunk[..size.value], count) == Records(chunk, count)
  {
    hide RecordBytes, StatesBytes;
    var at := 0;
    for i := 0 to count
      invariant at <= |chunk|
      invariant Records(chunk[at..], count - i).Some? <==> Records(chunk, count).Some?
      invariant Records(chunk, count).Some? ==>
        at + |StatesBytes(Records(chunk[at..], count - i).value)| == |StatesBytes(Records(chunk, count).value)|
    {
      ghost var rest := chunk[at..];
      if |chunk| < at + RECORD_SIZE {
        return None;
      }
      var record := chunk[at..at + RECORD_SIZE];
      assert rest[..RECORD_SIZE] == record;
      ghost var start := at;
      at := at + RECORD_SIZE;
      assert rest[RECORD_SIZE..] == chunk[at..];
      if record[2] == STRING_POINT {
        if |chunk| < at + TEXT_SIZE {
          return None;
        }
        at := at + TEXT_SIZE;
        assert rest[RECORD_SIZE + TEXT_SIZE..] == chunk[at..];
      }
      if Records(chunk, count).Some? {
        FirstTakes(rest, count - i, at - start);
        assert rest[at - start..] == chunk[at..];
      }
    }
    if Records(chunk, count).Some? {
      NoBytes();
      RecordsAreFirst(chunk, count);
      assert chunk[..at] == StatesBytes(Records(chunk, count).value);
    }
    size := Some(at);
  }

  lemma NoBytes()
    ensures StatesBytes([]) == []
  {
  }

  lemma FirstTakes(chunk: seq<byte>, count: nat, size: nat)
    requires count > 0 && Records(chunk, count).Some?
    requires size == if chunk[2] == STRING_POINT then RECORD_SIZE + TEXT_SIZE else RECORD_SIZE
    ensures size <= |chunk| && Records(chunk[size..], count - 1).Some?
    ensures |StatesBytes(Records(chunk, count).value)| ==
            size + |StatesBytes(Records(chunk[size..], count - 1).value)|
  {
    RecordsUnfold(chunk, count);
    var first := FirstRecord(chunk);
    var rest := Records(chunk[first.1..], count - 1).value;
    assert first.1 == size;
    assert ([first.0] + rest)[1..] == rest;
  }

  // The cache

  /** What the client's mutex guards: the two tables, reallocated when they change their size and
      otherwise overwritten in place, the ring of pending updates and the numbers that go with them. */
  class Cache {
    var definitions: array<Definition>
    var defsTotal: u32
    var defsLoaded: u32
    var records: array<Cached>
    var sequence: u32
    const updates: PendingUpdates
    ghost var Repr: set<object>

    ghost predicate Valid()
      reads this, Repr
    {
      && this in Repr && definitions in Repr && records in Repr && updates in Repr && updates.ring in Repr
      && updates.Valid()
    }

    /** The cache holds that part of the client's state. */
    ghost predicate Holds(s: State)
      requires Valid()
      reads this, Repr
    {
      && definitions[..] == s.defs && defsTotal == s.defsTotal && defsLoaded == s.defsLoaded
      && records[..] == s.states && sequence == s.sequence && updates.Contents() == s.pending
    }

    constructor ()
      ensures Valid() && fresh(Repr) && Holds(INITIAL)
    {
      var noDefinitions := new Definition[0];
      var noRecords := new Cached[0];
      var noUpdates := new PendingUpdates();
      definitions, records, updates := noDefinitions, noRecords, noUpdates;
      defsTotal, defsLoaded, sequence := 0, 0, 0;
      Repr := {this, noDefinitions, noRecords, noUpdates, noUpdates.ring};
    }

    /** reset_state_cache */
    method ResetStateCache(points: u16, ghost s: State)
      requires Valid() && Holds(s)
      modifies Repr
      ensures Valid() && fresh(Repr - old(Repr)) && Holds(ResetStates(s, points))
    {
      hide PendingUpdates.Contents;
      records := new Cached[points](_ => NO_STATE);
      Repr := Repr + {records};
      sequence := 0;
      updates.Clear();
      assert records[..] == Blank(points);
    }

    /** reset_defs_cache */
    method ResetDefsCache(ghost s: State)
      requires Valid() && Holds(s)
      modifies Repr
      ensures Valid() && fresh(Repr - old(Repr)) && Holds(ResetDefs(s))
    {
      hide PendingUpdates.Contents;
      definitions := new Definition[0];
      Repr := Repr + {definitions};
      defsTotal, defsLoaded := 0, 0;
    }

    /** store_defs_chunk */
    method StoreDefsChunk(c: DefsChunk, ghost s: State)
      requires Valid() && Holds(s)
      modifies Repr
      ensures Valid() && fresh(Repr - old(Repr)) && Holds(StoreDefs(s, c))
    {
      hide PendingUpdates.Contents, Definitions, Overlay, NoDefinitions, StoreDefs, SizedDefs;
      SizedParts(s, c);
      StoredParts(s, c);
      if definitions.Length != c.points || defsTotal != c.total {
        definitions := new Definition[c.points](_ => Zeros(DEFINITION_SIZE));
        Repr := Repr + {definitions};
        defsTotal, defsLoaded := c.total, 0;
        NoneDefined(definitions[..], c.points);
      }
      if Placeable(c, definitions.Length) {
        CopyDefinitions(definitions, c.offset / DEFINITION_SIZE, c.bytes);
        defsLoaded := LoadedEnd(c, defsLoaded);
      }
    }

    /** The cache grown to hold a point. */
    method Grow(size: nat)
      requires Valid()
      modifies this
      ensures Valid() && fresh(Repr - old(Repr))
      ensures records[..] == Grown(old(records[..]), size)
      ensures definitions == old(definitions) && defsTotal == old(defsTotal) && defsLoaded == old(defsLoaded)
      ensures sequence == old(sequence)
    {
      var was := records;
      if records.Length < size {
        records := new Cached[size](i requires 0 <= i < size reads was => if i < was.Length then was[i] else NO_STATE);
        Repr := Repr + {records};
        assert records[..] == was[..] + Blank(size - was.Length);
      }
    }

    /** store_update_chunk */
    method StoreUpdateChunk(chunk: seq<byte>, count: nat, sequence: u32, ghost s: State)
      requires Valid() && Holds(s) && Records(chunk, count).Some?
      modifies Repr
      ensures Valid() && fresh(Repr - old(Repr))
      ensures Holds(StoreUpdates(s, Records(chunk, count).value, sequence))
    {
      hide Records, FirstRecord, Updated, PendingUpdates.Contents, StatesBytes, RecordBytes;
      ghost var all, now := Records(chunk, count).value, s;
      var at: nat := 0;
      assert chunk[0..] == chunk && all[0..] == all;
      for i := 0 to count
        invariant Valid() && fresh(Repr - old(Repr)) && Holds(now)
        invariant at <= |chunk|
        invariant Records(chunk[at..], count - i) == Some(all[i..])
        invariant Updated(now, all[i..], sequence) == Updated(s, all, sequence)
      {
        RecordsUnfold(chunk[at..], count - i);
        var first := FirstRecord(chunk[at..]);
        assert all[i..] == [first.0] + all[i + 1..];
        UpdatedCons(now, first.0, all[i + 1..], sequence);
        now := StoreUpdate(first.0, sequence, now);
        assert chunk[at..][first.1..] == chunk[at + first.1..];
        assert all[i..][1..] == all[i + 1..];
        at := at + first.1;
      }
      assert all[count..] == [];
      UpdatedNothing(now, sequence);
      this.sequence := sequence;
    }

    method StoreUpdate(cached: Cached, sequence: u32, ghost s: State) returns (ghost next: State)
      requires Valid() && Holds(s) && cached.Sized()
      modifies Repr
      ensures Valid() && fresh(Repr - old(Repr)) && Holds(next)
      ensures next == Noted(s, cached, sequence)
    {
      hide PendingUpdates.Contents, Cached.Point, Grown, Enqueue;
      var target: nat := cached.Point();
      Grow(target + 1);
      records[target] := cached;
      updates.Push(Update(target, sequence));
      next := Noted(s, cached, sequence);
    }

    /** store_snapshot_chunk, with the records of `c` in the chunk */
    method StoreSnapshotChunk(total: u16, chunk: seq<byte>, count: nat, sequence: u32, ghost c: StatesChunk,
                              ghost s: State)
      requires Valid() && Holds(s)
      requires c.sequence == sequence && c.points == total && Records(chunk, count) == Some(c.records)
      modifies Repr
      ensures Valid() && fresh(Repr - old(Repr)) && Holds(StoreSnapshot(s, c))
    {
      hide Records, FirstRecord, Grown, Placed, PendingUpdates.Contents, StatesBytes, RecordBytes, StoreSnapshot;
      SnapshotParts(s, c);
      ghost var all := c.records;
      Grow(total);
      var at: nat := 0;
      assert chunk[0..] == chunk && all[0..] == all;
      for i := 0 to count
        invariant Valid() && fresh(Repr - old(Repr)) && records.Length == |Grown(s.states, total)|
        invariant definitions[..] == s.defs && defsTotal == s.defsTotal && defsLoaded == s.defsLoaded
        invariant updates.Contents() == s.pending
        invariant at <= |chunk|
        invariant Records(chunk[at..], count - i) == Some(all[i..])
        invariant Placed(records[..], all[i..]) == Placed(Grown(s.states, total), all)
      {
        RecordsUnfold(chunk[at..], count - i);
        var first := FirstRecord(chunk[at..]);
        assert all[i..] == [first.0] + all[i + 1..];
        PlacedCons(records[..], first.0, all[i + 1..]);
        var target: nat := first.0.Point();
        ghost var was := records[..];
        if target < records.Length {
          records[target] := first.0;
          assert records[..] == was[target := first.0];
        }
        assert chunk[at..][first.1..] == chunk[at + first.1..];
        assert all[i..][1..] == all[i + 1..];
        at := at + first.1;
      }
      assert all[count..] == [];
      PlacedNothing(records[..]);
      this.sequence := sequence;
    }

    /** The records of an update frame, measured and stored; a malformed frame is ignored. */
    method TakeUpdateFrame(payload: seq<byte>, h: Header, ghost s: State) returns (taken: bool)
      requires Valid() && Holds(s)
      modifies Repr
      ensures Valid() && fresh(Repr - old(Repr))
      ensures taken <==> ReadUpdate(payload, h).Some?
      ensures
        match ReadUpdate(payload, h)
        case None => Holds(s)
        case Some(update) => Holds(StoreUpdates(s, update.records, update.sequence))
    {
      hide Records, StoreUpdates, StatesBytes, ChunkOf, Fetch16, Fetch32, Holds;
      if |payload| < HEADER_SIZE + UPDATE_PREFIX || h.payloadLength < UPDATE_PREFIX {
        return false;
      }
      var sequence, count := Fetch32(payload, 18), Fetch16(payload, 22);
      var chunk := ChunkOf(payload, h, UPDATE_PREFIX);
      var size := MeasureStateRecords(chunk, count);
      if size.None? {
        return false;
      }
      ChunkFits(payload, h, UPDATE_PREFIX);
      assert UPDATE_PREFIX + size.value <= h.payloadLength && HEADER_SIZE + UPDATE_PREFIX + size.value <= |payload|;
      StoreUpdateChunk(chunk[..size.value], count, sequence, s);
      taken := true;
    }

    /** The same for a frame with a chunk of the snapshot. */
    method TakeSnapshotFrame(payload: seq<byte>, h: Header, ghost s: State) returns (taken: bool)
      requires Valid() && Holds(s)
      modifies Repr
      ensures Valid() && fresh(Repr - old(Repr))
      ensures taken <==> ReadStates(payload, h).Some?
      ensures
        match ReadStates(payload, h)
        case None => Holds(s)
        case Some(c) => Holds(StoreSnapshot(s, c))
    {
      hide Records, StatesBytes, ChunkOf, Fetch16, Fetch32, Holds, Placed, Grown;
      if |payload| < HEADER_SIZE + STATES_PREFIX || h.messageType != STATES_RESPONSE || h.payloadLength < STATES_PREFIX {
        return false;
      }
      var sequence, total, count := Fetch32(payload, 18), Fetch16(payload, 22), Fetch16(payload, 26);
      var chunk := ChunkOf(payload, h, STATES_PREFIX);
      var size := MeasureStateRecords(chunk, count);
      if size.None? {
        return false;
      }
      ChunkFits(payload, h, STATES_PREFIX);
      assert STATES_PREFIX + size.value <= h.payloadLength && HEADER_SIZE + STATES_PREFIX + size.value <= |payload|;
      StoreSnapshotChunk(total, chunk[..size.value], count, sequence, ReadStates(payload, h).value, s);
      taken := true;
    }

    /** pop_point_update */
    method PopPointUpdate(ghost s: State) returns (update: Option<PointUpdate>)
      requires Valid() && Holds(s)
      modifies Repr
      ensures Valid() && fresh(Repr - old(Repr)) && Holds(TakeUpdate(s))
      ensures update == Popped(s)
    {
      hide PendingUpdates.Contents, TakeUpdate;
      TakenParts(s);
      update := None;
      if updates.count != 0 {
        var pending := updates.Pop();
        var index: nat := pending.point;
        if index < records.Length {
          var definition := if index < definitions.Length then Some(definitions[index]) else None;
          update := Some(PointUpdate(pending.sequence, records[index], definition));
        }
      }
    }
  }

  /** The part of a frame that is measured is both declared and received. */
  lemma ChunkFits(payload: seq<byte>, h: Header, prefix: nat)
    requires HEADER_SIZE + prefix <= |payload| && prefix <= h.payloadLength
    ensures prefix + |ChunkOf(payload, h, prefix)| <= h.payloadLength
    ensures HEADER_SIZE + prefix + |ChunkOf(payload, h, prefix)| <= |payload|
  {
  }

  lemma SnapshotParts(s: State, c: StatesChunk)
    requires forall i | 0 <= i < |c.records| :: c.records[i].Sized()
    ensures
      var t := StoreSnapshot(s, c);
      && t.defs == s.defs && t.defsTotal == s.defsTotal && t.defsLoaded == s.defsLoaded
      && t.states == Placed(Grown(s.states, c.points), c.records) && t.sequence == c.sequence && t.pending == s.pending
  {
    hide Placed, Grown;
  }

  lemma TakenParts(s: State)
    ensures
      var t := TakeUpdate(s);
      && t.defs == s.defs && t.defsTotal == s.defsTotal && t.defsLoaded == s.defsLoaded
      && t.states == s.states && t.sequence == s.sequence
      && t.pending == if s.pending == [] then [] else s.pending[1..]
  {
  }

  lemma NoneDefined(defs: seq<Definition>, n: nat)
    requires |defs| == n && forall i | 0 <= i < n :: defs[i] == Zeros(DEFINITION_SIZE)
    ensures defs == NoDefinitions(n)
  {
  }

  lemma {:induction false} DefinitionAt(bytes: seq<byte>, k: nat)
    requires |bytes| % DEFINITION_SIZE == 0 && k < |bytes| / DEFINITION_SIZE
    ensures DEFINITION_SIZE * k + DEFINITION_SIZE <= |bytes|
    ensures Definitions(bytes)[k] == bytes[DEFINITION_SIZE * k..DEFINITION_SIZE * k + DEFINITION_SIZE]
    decreases k
  {
    DefinitionCount(|bytes|);
    if k > 0 {
      var rest := bytes[DEFINITION_SIZE..];
      DefinitionAt(rest, k - 1);
      assert rest[DEFINITION_SIZE * (k - 1)..DEFINITION_SIZE * k] ==
             bytes[DEFINITION_SIZE * k..DEFINITION_SIZE * k + DEFINITION_SIZE];
    }
  }

  /** After a chunk every definition is what the chunk says of it; without saying, what it was in a table of
      the same size, and blank in one of another size. */
  lemma StoredDefinitions(s: State, c: DefsChunk, i: nat)
    requires i < c.points
    ensures |StoreDefs(s, c).defs| == c.points
    ensures
      var first, n := c.offset / DEFINITION_SIZE, |c.bytes| / DEFINITION_SIZE;
      var at := DEFINITION_SIZE * (i - first);
      if Placeable(c, c.points) && first <= i < first + n then
        at + DEFINITION_SIZE <= |c.bytes| && StoreDefs(s, c).defs[i] == c.bytes[at..at + DEFINITION_SIZE]
      else
        StoreDefs(s, c).defs[i] ==
        if |s.defs| == c.points && s.defsTotal == c.total then s.defs[i] else Zeros(DEFINITION_SIZE)
  {
    SizedParts(s, c);
    StoredParts(s, c);
    var first, n := c.offset / DEFINITION_SIZE, |c.bytes| / DEFINITION_SIZE;
    if Placeable(c, c.points) && first <= i < first + n {
      DefinitionAt(c.bytes, i - first);
    }
    hide StoreDefs, SizedDefs, Definitions, LoadedEnd;
  }

  /** The memcpy of a definitions chunk. */
  method CopyDefinitions(definitions: array<Definition>, first: nat, bytes: seq<byte>)
    requires |bytes| % DEFINITION_SIZE == 0 && first + |bytes| / DEFINITION_SIZE <= definitions.Length
    modifies definitions
    ensures definitions[..] == Overlay(old(definitions[..]), first, Definitions(bytes))
  {
    hide Definitions;
    ghost var was, all := definitions[..], Definitions(bytes);
    for k := 0 to |bytes| / DEFINITION_SIZE
      invariant definitions[..first] == was[..first]
      invariant definitions[first..first + k] == all[..k]
      invariant definitions[first + k..] == was[first + k..]
    {
      DefinitionAt(bytes, k);
      definitions[first + k] := bytes[DEFINITION_SIZE * k..DEFINITION_SIZE * k + DEFINITION_SIZE];
    }
  }

  lemma UpdatedNothing(s: State, sequence: u32)
    ensures Updated(s, [], sequence) == s
  {
  }

  lemma PlacedNothing(states: seq<Cached>)
    ensures Placed(states, []) == states
  {
  }

  lemma PlacedCons(states: seq<Cached>, cached: Cached, rest: seq<Cached>)
    requires cached.Sized() && forall i | 0 <= i < |rest| :: rest[i].Sized()
    ensures
      var at := cached.Point();
      Placed(states, [cached] + rest) == Placed(if at < |states| then states[at := cached] else states, rest)
  {
    var records := [cached] + rest;
    assert records[0] == cached && records[1..] == rest;
  }

  lemma UpdatedCons(s: State, cached: Cached, rest: seq<Cached>, sequence: u32)
    requires cached.Sized() && forall i | 0 <= i < |rest| :: rest[i].Sized()
    ensures Updated(s, [cached] + rest, sequence) == Updated(Noted(s, cached, sequence), rest, sequence)
  {
    hide Noted;
    var records := [cached] + rest;
    assert records[0] == cached && records[1..] == rest;
  }
}
