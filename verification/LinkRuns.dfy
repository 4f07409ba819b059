/** What holds over any run of the plcLink client: the snapshot it shows is the one it last finished, and
    no update is lost unnoticed. */
module LinkRuns {
  import opened Bytes
  import opened PlcLink
  import opened LinkState
  import opened LinkPoll

  /** What can happen to the client. */
  datatype Action =
    | Polling(input: Input)
    | RefreshRequested
    | WriteRequested(request: WriteRequest)
    | UpdateTaken

  /** request_states_refresh */
  function RequestRefresh(s: State): State {
    if s.capsSeen && !s.statesSent && s.statesSeen then s.(refresh := true) else s
  }

  /** request_write_state */
  function RequestWrite(s: State, request: WriteRequest): State {
    if s.capsSeen && s.statesSeen && s.write.None? && !s.writeSent then s.(write := Some(request)) else s
  }

  /** Taking the oldest pending update. */
  function TakeUpdate(s: State): State {
    if s.pending == [] then s else s.(pending := s.pending[1..])
  }

  function Do(s: State, action: Action): State {
    match action
    case Polling(input) => Poll(s, input).0
    case RefreshRequested => RequestRefresh(s)
    case WriteRequested(request) => RequestWrite(s, request)
    case UpdateTaken => TakeUpdate(s)
  }

  datatype Info = Info(points: u16, loaded: u16, maxPayload: u16, complete: bool, sequence: u32)

  /** get_snapshot_info */
  function SnapshotInfo(s: State): Info {
    if s.published.Some? && (s.runtimeView || s.statesSeen) then
      var p := s.published.value;
      Info(p.points, p.loaded, p.maxPayload, true, p.sequence)
    else Info(s.points, Min(s.recordCount, |s.states|), s.maxPayload, s.statesSeen, s.sequence)
  }

  // The shown snapshot

  /** What the client has at hand, as a snapshot. */
  function Live(s: State): Snapshot {
    Snapshot(s.sequence, s.points, s.recordCount, s.maxPayload)
  }

  /** The step finishes a snapshot. */
  predicate Finishes(s: State, next: State) {
    !s.statesSeen && next.statesSeen
  }

  /** What was at hand when the last snapshot of a run was finished. */
  function LastFinished(s: State, actions: seq<Action>, last: Option<Snapshot>): Option<Snapshot>
    decreases actions
  {
    if actions == [] then last
    else
      var next := Do(s, actions[0]);
      LastFinished(next, actions[1..], if Finishes(s, next) then Some(Live(next)) else last)
  }

  function After(s: State, actions: seq<Action>): State
    decreases actions
  {
    if actions == [] then s else After(Do(s, actions[0]), actions[1..])
  }

  /** The step leaves the published snapshot alone, or finishes and publishes one; and a snapshot is only
      shown as complete when one is published. */
  predicate Publishes(s: State, next: State) {
    && next.published == (if Finishes(s, next) then Some(Live(next)) else s.published)
    && (next.statesSeen || next.runtimeView ==> next.published.Some?)
  }

  predicate Shown(s: State) {
    s.statesSeen || s.runtimeView ==> s.published.Some?
  }

  /** A step that finishes nothing. */
  predicate Keeps(s: State, next: State) {
    && next.published == s.published
    && (next.statesSeen ==> s.statesSeen)
    && (next.runtimeView ==> next.published.Some?)
  }

  lemma KeepsPublishes(s: State, next: State)
    requires Shown(s) && Keeps(s, next)
    ensures Publishes(s, next)
  {
  }

  /** The step does not touch what is shown. */
  predicate SameView(s: State, next: State) {
    next.published == s.published && next.statesSeen == s.statesSeen && next.runtimeView == s.runtimeView
  }

  lemma SameKeeps(s: State, next: State)
    requires Shown(s) && SameView(s, next)
    ensures Keeps(s, next) && Shown(next)
  {
  }

  lemma ResetsSame(s: State, points: u16)
    ensures SameView(s, ResetStates(s, points)) && SameView(s, ResetDefs(s))
  {
  }

  lemma SameTransitive(a: State, b: State, c: State)
    requires SameView(a, b) && SameView(b, c)
    ensures SameView(a, c)
  {
  }

  /** What a resync shows: a snapshot is shown as complete afterwards exactly if the definitions are kept
      and the states were complete, and then it is the snapshot shown before. */
  lemma ResyncShows(s: State, generation: u32)
    requires Shown(s)
    ensures
      var before, after := SnapshotInfo(s), SnapshotInfo(Resync(s, generation));
      && (after.complete <==> generation != 0 && generation == s.generation && s.defsSeen && s.statesSeen)
      && (after.complete ==> after == before)
  {
    hide Blank;
  }

  lemma ResyncKeeps(s: State, generation: u32)
    requires Shown(s)
    ensures Keeps(s, Resync(s, generation))
  {
    hide Blank;
  }

  lemma {:induction false} UpdatedKeeps(s: State, records: seq<Cached>, sequence: u32)
    requires forall i | 0 <= i < |records| :: records[i].Sized()
    ensures Updated(s, records, sequence) ==
            s.(states := Updated(s, records, sequence).states, pending := Updated(s, records, sequence).pending)
    decreases records
  {
    hide Cached.Point, Enqueue, Grown;
    if records != [] {
      var at: nat := records[0].Point();
      var next := s.(states := Grown(s.states, at + 1)[at := records[0]],
                     pending := Enqueue(s.pending, Update(at, sequence)));
      UpdatedKeeps(next, records[1..], sequence);
    }
  }

  lemma StoreUpdatesIs(s: State, records: seq<Cached>, sequence: u32)
    requires forall i | 0 <= i < |records| :: records[i].Sized()
    ensures
      var next := StoreUpdates(s, records, sequence);
      && SameView(s, next)
      && next.sequence == sequence
      && next.resyncPending == s.resyncPending
      && next.capsSeen == s.capsSeen
      && next.generation == s.generation
  {
    UpdatedKeeps(s, records, sequence);
    hide Updated;
  }

  lemma ProcessUpdateKeeps(s: State, generation: u32, update: UpdateFrame)
    requires forall i | 0 <= i < |update.records| :: update.records[i].Sized()
    requires Shown(s)
    ensures Keeps(s, ProcessUpdate(s, generation, update))
  {
    hide Resync, StoreUpdates;
    var stored := StoreUpdates(s, update.records, update.sequence);
    StoreUpdatesIs(s, update.records, update.sequence);
    ResyncKeeps(s, generation);
    ResyncKeeps(stored, stored.generation);
  }

  lemma ProcessKeeps(s: State, payload: seq<byte>, h: Header)
    requires Shown(s)
    ensures Keeps(s, ProcessFrame(s, payload, h))
  {
    hide ReadUpdate, ProcessUpdate;
    match ReadUpdate(payload, h)
    case None =>
    case Some(update) => ProcessUpdateKeeps(s, h.generation, update);
  }

  lemma TakeCapsKeeps(s: State, payload: seq<byte>)
    requires HEADER_SIZE + CAPS_SIZE <= |payload|
    ensures SameView(s, TakeCaps(s, payload))
  {
    hide Fetch16, Fetch32, Blank;
  }

  lemma CapsKeeps(s: State, payload: seq<byte>)
    requires Shown(s)
    ensures Keeps(s, OnCaps(s, payload))
  {
    hide ReadUpdate, StoreUpdates, DecodeHeader, TakeCaps, Keeps, SameView;
    SameIsSame(s);
    SameKeeps(s, s);
    if DecodeHeader(payload).Some? {
      var h := DecodeHeader(payload).value;
      if ReadUpdate(payload, h).Some? {
        var update := ReadUpdate(payload, h).value;
        StoreUpdatesIs(s, update.records, update.sequence);
        SameKeeps(s, StoreUpdates(s, update.records, update.sequence));
      }
      if HEADER_SIZE + CAPS_SIZE <= |payload| {
        TakeCapsKeeps(s, payload);
        SameKeeps(s, TakeCaps(s, payload));
      }
    }
  }

  lemma SameIsSame(s: State)
    ensures SameView(s, s)
  {
  }

  lemma SizedDefsSame(s: State, c: DefsChunk)
    ensures SameView(s, SizedDefs(s, c))
  {
    if |s.defs| != c.points || s.defsTotal != c.total {
      var blank := NoDefinitions(c.points);
      assert SizedDefs(s, c) == s.(defs := blank, defsTotal := c.total, defsLoaded := 0);
    }
  }

  lemma StoreDefsSame(s: State, c: DefsChunk)
    ensures SameView(s, StoreDefs(s, c))
  {
    SizedDefsSame(s, c);
    hide SizedDefs, Definitions, Overlay;
  }

  lemma TakeDefsSame(s: State, c: DefsChunk)
    ensures SameView(s, TakeDefs(s, c))
  {
    StoreDefsSame(s.(defsSent := false), c);
    hide StoreDefs;
  }

  lemma DefsKeeps(s: State, payload: seq<byte>)
    requires Shown(s)
    ensures Keeps(s, OnDefs(s, payload))
  {
    hide ReadDefs, DecodeHeader, ProcessFrame, TakeDefs, Keeps, SameView;
    SameIsSame(s);
    SameKeeps(s, s);
    if DecodeHeader(payload).Some? {
      var h := DecodeHeader(payload).value;
      ProcessKeeps(s, payload, h);
      if ReadDefs(payload, h).Some? {
        TakeDefsSame(s, ReadDefs(payload, h).value);
        SameKeeps(s, TakeDefs(s, ReadDefs(payload, h).value));
      }
    }
  }

  lemma WriteKeeps(s: State, payload: seq<byte>)
    requires Shown(s)
    ensures Keeps(s, OnWrite(s, payload))
  {
    hide DecodeHeader, ProcessFrame;
    if DecodeHeader(payload).Some? {
      ProcessKeeps(s.(writeSent := false, write := None), payload, DecodeHeader(payload).value);
    }
  }

  lemma UnsolicitedKeeps(s: State, payload: seq<byte>)
    requires Shown(s)
    ensures Keeps(s, OnUnsolicited(s, payload))
  {
    hide DecodeHeader, ProcessFrame, Resync;
    if DecodeHeader(payload).Some? {
      ProcessKeeps(s, payload, DecodeHeader(payload).value);
      ResyncKeeps(s, DecodeHeader(payload).value.generation);
    }
  }

  lemma StoreStatesSame(s: State, c: StatesChunk)
    requires forall i | 0 <= i < |c.records| :: c.records[i].Sized()
    ensures SameView(s, StoreStates(s, c)) && StoreStates(s, c).sequence == c.sequence
    ensures StoreStates(s, c).points == s.points && StoreStates(s, c).maxPayload == s.maxPayload
  {
    hide Placed, Grown;
  }

  lemma TakeStatesPublishes(s: State, c: StatesChunk)
    requires Shown(s) && !s.statesSeen
    requires forall i | 0 <= i < |c.records| :: c.records[i].Sized()
    ensures Publishes(s, TakeStates(s, c))
  {
    StoreStatesSame(s, c);
    hide StoreStates;
  }

  lemma StatesPublishes(s: State, payload: seq<byte>)
    requires Shown(s) && !s.statesSeen
    ensures Publishes(s, OnStates(s, payload))
  {
    hide DecodeHeader, ProcessFrame, ReadStates, TakeStates, Publishes, Keeps, SameView;
    SameIsSame(s);
    SameKeeps(s, s);
    KeepsPublishes(s, s);
    if DecodeHeader(payload).Some? {
      var h := DecodeHeader(payload).value;
      ProcessKeeps(s, payload, h);
      KeepsPublishes(s, ProcessFrame(s, payload, h));
      if ReadStates(payload, h).Some? {
        TakeStatesPublishes(s, ReadStates(payload, h).value);
      }
    }
  }

  lemma SendCapsSame(s: State, in_: Input)
    ensures SameView(s, SendCaps(s, in_).0) && SameView(s, SendCaps(s.(resyncPending := false), in_).0)
  {
  }

  lemma SendDefsSame(s: State, in_: Input)
    ensures SameView(s, SendDefs(s, in_).0)
  {
    hide DefsRoom, ResetDefs;
    if DefsRoom(s.maxPayload) != 0 && in_.writeOk {
      var sent := s.(defsSent := true);
      ResetsSame(sent, 0);
      assert SameView(s, sent) && SameView(s, ResetDefs(sent));
    }
  }

  lemma SendStatesSame(s: State, start: u16, in_: Input)
    ensures SameView(s, SendStates(s, start, in_).0)
  {
    hide StatesRoom, ResetStates;
    if StatesRoom(s.maxPayload) != 0 && in_.writeOk {
      var sent := s.(statesSent := true);
      ResetsSame(sent.(recordCount := 0), s.points);
      assert SameView(s, sent) && SameView(s, ResetStates(sent.(recordCount := 0), s.points));
    }
  }

  lemma SendsKeep(s: State, in_: Input)
    requires Shown(s)
    ensures Keeps(s, SendCaps(s, in_).0) && Keeps(s, SendCaps(s.(resyncPending := false), in_).0)
    ensures Keeps(s, SendDefs(s, in_).0) && Keeps(s, SendStates(s, s.nextStates, in_).0)
  {
    SendCapsSame(s, in_);
    SendDefsSame(s, in_);
    SendStatesSame(s, s.nextStates, in_);
    SameKeeps(s, SendCaps(s, in_).0);
    SameKeeps(s, SendCaps(s.(resyncPending := false), in_).0);
    SameKeeps(s, SendDefs(s, in_).0);
    SameKeeps(s, SendStates(s, s.nextStates, in_).0);
    hide SendCaps, SendDefs, SendStates, Keeps, SameView;
  }

  lemma RefreshKeeps(s: State, in_: Input)
    requires Shown(s)
    ensures Keeps(s, SendStates(s.(refresh := false, statesSeen := false, nextStates := 0), 0, in_).0)
  {
    hide StatesRoom, Blank;
  }

  lemma TakingPublishes(s: State, in_: Input, on: (State, seq<byte>) -> State)
    requires Shown(s) && forall payload: seq<byte> :: Publishes(s, on(s, payload))
    ensures Publishes(s, Taking(s, in_, on).0)
  {
    hide Input.Received;
  }

  lemma PollStatesPublishes(s: State, in_: Input)
    requires Shown(s)
    ensures Publishes(s, PollStates(s, in_).0)
  {
    hide *;
    SameIsSame(s);
    SameKeeps(s, s);
    KeepsPublishes(s, s);
    SendsKeep(s, in_);
    KeepsPublishes(s, SendStates(s, s.nextStates, in_).0);
    forall payload: seq<byte>
      ensures Publishes(s, OnDefs(s, payload)) && Publishes(s, OnUnsolicited(s, payload))
      ensures !s.statesSeen ==> Publishes(s, OnStates(s, payload))
    {
      DefsKeeps(s, payload);
      KeepsPublishes(s, OnDefs(s, payload));
      UnsolicitedKeeps(s, payload);
      KeepsPublishes(s, OnUnsolicited(s, payload));
      if !s.statesSeen {
        StatesPublishes(s, payload);
      }
    }
    TakingPublishes(s, in_, OnDefs);
    TakingPublishes(s, in_, OnUnsolicited);
    if !s.statesSeen {
      TakingPublishes(s, in_, OnStates);
    }
    PollStatesIs(s, in_);
  }

  /** The four things the last part of a poll can do. */
  lemma PollStatesIs(s: State, in_: Input)
    ensures
      var r := PollStates(s, in_);
      || r == Taking(s, in_, OnDefs)
      || r == SendStates(s, s.nextStates, in_)
      || r == Taking(s, in_, OnUnsolicited)
      || (r == Taking(s, in_, OnStates) && !s.statesSeen)
      || r.0 == s
  {
    hide Taking, SendStates;
  }

  lemma PollSnapshotPublishes(s: State, in_: Input)
    requires Shown(s)
    ensures Publishes(s, PollSnapshot(s, in_).0)
  {
    PollStatesPublishes(s, in_);
    SendsKeep(s, in_);
    KeepsPublishes(s, SendDefs(s, in_).0);
    forall payload: seq<byte>
      ensures Publishes(s, OnUnsolicited(s, payload))
    {
      UnsolicitedKeeps(s, payload);
      KeepsPublishes(s, OnUnsolicited(s, payload));
    }
    TakingPublishes(s, in_, OnUnsolicited);
    hide SendDefs, Taking, PollStates, Publishes;
  }

  lemma PollCapsPublishes(s: State, in_: Input)
    requires Shown(s)
    ensures Publishes(s, PollCaps(s, in_).0)
  {
    hide SendCaps, Taking, PollStates, Publishes, Resync, OnCaps, Keeps, SameView, Shown;
    PollStatesPublishes(s, in_);
    SameIsSame(s);
    SameKeeps(s, s);
    KeepsPublishes(s, s);
    SendsKeep(s, in_);
    KeepsPublishes(s, SendCaps(s, in_).0);
    ResyncKeeps(s, 0);
    KeepsPublishes(s, Resync(s, 0));
    forall payload: seq<byte>
      ensures Publishes(s, OnCaps(s, payload))
    {
      CapsKeeps(s, payload);
      KeepsPublishes(s, OnCaps(s, payload));
    }
    TakingPublishes(s, in_, OnCaps);
  }

  lemma PollFreshPublishes(s: State, in_: Input)
    requires Shown(s)
    ensures Publishes(s, PollFresh(s, in_).0)
  {
    hide *;
    PollCapsPublishes(s, in_);
    PollSnapshotPublishes(s, in_);
    SameIsSame(s);
    SameKeeps(s, s);
    KeepsPublishes(s, s);
    SendsKeep(s, in_);
    KeepsPublishes(s, SendCaps(s.(resyncPending := false), in_).0);
    RefreshKeeps(s, in_);
    KeepsPublishes(s, SendStates(s.(refresh := false, statesSeen := false, nextStates := 0), 0, in_).0);
    MarkWrite(s);
    SameKeeps(s, s.(writeSent := true));
    KeepsPublishes(s, s.(writeSent := true));
    forall payload: seq<byte>
      ensures Publishes(s, OnWrite(s, payload)) && Publishes(s, OnUnsolicited(s, payload))
    {
      WriteKeeps(s, payload);
      KeepsPublishes(s, OnWrite(s, payload));
      UnsolicitedKeeps(s, payload);
      KeepsPublishes(s, OnUnsolicited(s, payload));
    }
    TakingPublishes(s, in_, OnWrite);
    TakingPublishes(s, in_, OnUnsolicited);
    PollFreshIs(s, in_);
  }

  lemma MarkWrite(s: State)
    ensures SameView(s, s.(writeSent := true))
  {
  }

  /** What the first part of a poll can do. */
  lemma PollFreshIs(s: State, in_: Input)
    ensures
      var r := PollFresh(s, in_);
      || r == SendCaps(s.(resyncPending := false), in_)
      || r == Taking(s, in_, OnWrite)
      || r == Taking(s, in_, OnUnsolicited)
      || r == SendStates(s.(refresh := false, statesSeen := false, nextStates := 0), 0, in_)
      || r.0 == s.(writeSent := true)
      || r.0 == s
      || r == PollCaps(s, in_)
      || r == PollSnapshot(s, in_)
  {
    hide Taking, SendStates, SendCaps, PollCaps, PollSnapshot;
  }

  lemma PollPublishes(s: State, in_: Input)
    requires Shown(s)
    ensures Publishes(s, Poll(s, in_).0)
  {
    PollFreshPublishes(s, in_);
    ResyncKeeps(s, 0);
    KeepsPublishes(s, Resync(s, 0));
    SameIsSame(s);
    SameKeeps(s, s);
    KeepsPublishes(s, s);
    hide PollFresh, Resync, Publishes, Keeps, SameView;
  }

  lemma StepPublishes(s: State, action: Action)
    requires Shown(s)
    ensures Publishes(s, Do(s, action)) && Shown(Do(s, action))
  {
    hide Poll;
    match action
    case Polling(input) => PollPublishes(s, input);
    case RefreshRequested =>
    case WriteRequested(_) =>
    case UpdateTaken =>
  }

  lemma {:induction false} PublishedIsLastFinished(s: State, actions: seq<Action>)
    requires Shown(s)
    ensures Shown(After(s, actions)) && After(s, actions).published == LastFinished(s, actions, s.published)
    decreases actions
  {
    hide Do, Shown;
    if actions != [] {
      StepPublishes(s, actions[0]);
      PublishedIsLastFinished(Do(s, actions[0]), actions[1..]);
    }
  }

  /** Over every run of polls with any incoming frames, whenever the snapshot is shown as complete, what
      is shown is exactly what was at hand when the last snapshot was finished. */
  lemma ShownSnapshotIsLastFinished(actions: seq<Action>)
    ensures
      var info := SnapshotInfo(After(INITIAL, actions));
      info.complete ==>
      LastFinished(INITIAL, actions, None) == Some(Snapshot(info.sequence, info.points, info.loaded, info.maxPayload))
  {
    PublishedIsLastFinished(INITIAL, actions);
    hide After, LastFinished;
  }

  // Updates

  datatype Incoming = Incoming(generation: u32, update: UpdateFrame)

  predicate WellFormed(frames: seq<Incoming>) {
    forall i | 0 <= i < |frames| ::
      forall k | 0 <= k < |frames[i].update.records| :: frames[i].update.records[k].Sized()
  }

  function Follow(s: State, frames: seq<Incoming>): State
    requires WellFormed(frames)
    decreases frames
  {
    if frames == [] then s
    else Follow(ProcessUpdate(s, frames[0].generation, frames[0].update), frames[1..])
  }

  function TotalRecords(frames: seq<Incoming>): nat {
    if frames == [] then 0 else |frames[0].update.records| + TotalRecords(frames[1..])
  }

  /** An update frame is ahead of the cached sequence: by anything if it has no records, and otherwise by more
      than its records, except behind sequence zero. */
  predicate Ahead(sequence: u32, update: UpdateFrame) {
    if update.records == [] then sequence < update.sequence
    else sequence != 0 && sequence + |update.records| < update.sequence
  }

  /** The cached sequence after a frame that is not. */
  function NextSequence(sequence: u32, update: UpdateFrame): u32 {
    if update.records == [] then sequence else update.sequence
  }

  /** The client has everything it asked for. */
  predicate Complete(s: State) {
    s.capsSeen && s.defsSeen && s.statesSeen && !s.resyncPending
  }

  /** One frame, exactly: a resync starts if and only if the frame is ahead; otherwise the client goes on with
      the frame's sequence. */
  lemma ResyncsExactly(s: State, generation: u32, update: UpdateFrame)
    requires Complete(s) && forall i | 0 <= i < |update.records| :: update.records[i].Sized()
    ensures
      var next := ProcessUpdate(s, generation, update);
      && (next.resyncPending <==> Ahead(s.sequence, update))
      && (!next.resyncPending ==> Complete(next) && next.sequence == NextSequence(s.sequence, update))
  {
    hide StoreUpdates;
    StoreUpdatesIs(s, update.records, update.sequence);
    StoreUpdatesComplete(s, update.records, update.sequence);
    ResyncPends(s, generation);
    var stored := StoreUpdates(s, update.records, update.sequence);
    ResyncPends(stored, stored.generation);
    hide Resync;
  }

  lemma {:induction false} UpdatedComplete(s: State, records: seq<Cached>, sequence: u32)
    requires Complete(s) && forall i | 0 <= i < |records| :: records[i].Sized()
    ensures Complete(Updated(s, records, sequence))
    decreases records
  {
    hide Complete;
    if records != [] {
      NotedComplete(s, records[0], sequence);
      hide Noted;
      UpdatedComplete(Noted(s, records[0], sequence), records[1..], sequence);
    }
  }

  lemma NotedComplete(s: State, cached: Cached, sequence: u32)
    requires cached.Sized() && Complete(s)
    ensures Complete(Noted(s, cached, sequence))
  {
    hide Cached.Point, Enqueue, Grown;
  }

  lemma StoreUpdatesComplete(s: State, records: seq<Cached>, sequence: u32)
    requires Complete(s) && forall i | 0 <= i < |records| :: records[i].Sized()
    ensures Complete(StoreUpdates(s, records, sequence))
  {
    UpdatedComplete(s, records, sequence);
    hide Updated;
  }

  /** None of the frames is ahead of what came before it. */
  predicate Steady(sequence: u32, frames: seq<Incoming>)
    decreases frames
  {
    frames == [] ||
    (!Ahead(sequence, frames[0].update) && Steady(NextSequence(sequence, frames[0].update), frames[1..]))
  }

  function LastSequence(sequence: u32, frames: seq<Incoming>): u32
    decreases frames
  {
    if frames == [] then sequence else LastSequence(NextSequence(sequence, frames[0].update), frames[1..])
  }

  /** Over any run of update frames, exactly: a resync starts if and only if one of them is ahead of what came
      before it, and otherwise the client ends with the sequence of the last frame with records. */
  lemma {:induction false} RunResyncsExactly(s: State, frames: seq<Incoming>)
    requires WellFormed(frames) && Complete(s)
    ensures Follow(s, frames).resyncPending <==> !Steady(s.sequence, frames)
    ensures Steady(s.sequence, frames) ==> Follow(s, frames).sequence == LastSequence(s.sequence, frames)
    decreases frames
  {
    assert !s.resyncPending;
    hide ProcessUpdate, Complete, Ahead, NextSequence;
    if frames != [] {
      var next := ProcessUpdate(s, frames[0].generation, frames[0].update);
      ResyncsExactly(s, frames[0].generation, frames[0].update);
      if next.resyncPending {
        ResyncStays(next, frames[1..]);
      } else {
        RunResyncsExactly(next, frames[1..]);
      }
    }
  }

  /** When a loss is noticed. A server that has counted `sent` records sends the last of them, and the client had
      counted `seen`; both count modulo 2^32. While neither has wrapped beyond the other and the client does not
      stand at zero, a resync starts if and only if records between the two are missing. */
  lemma LossIsNoticed(s: State, generation: u32, update: UpdateFrame, seen: nat, sent: nat)
    requires Complete(s) && update.records != [] && forall i | 0 <= i < |update.records| :: update.records[i].Sized()
    requires s.sequence == seen % 0x1_0000_0000 && update.sequence == sent % 0x1_0000_0000
    requires seen / 0x1_0000_0000 == sent / 0x1_0000_0000 && s.sequence != 0
    ensures ProcessUpdate(s, generation, update).resyncPending <==> seen + |update.records| < sent
  {
    ResyncsExactly(s, generation, update);
    hide ProcessUpdate, Complete;
  }

  /** A frame with records whose sequence is not above the cached one is taken, whatever is missing: so it is
      when the server's count has wrapped or started over. */
  lemma StepBackIsTaken(s: State, generation: u32, update: UpdateFrame)
    requires Complete(s) && update.records != [] && forall i | 0 <= i < |update.records| :: update.records[i].Sized()
    requires update.sequence <= s.sequence
    ensures
      var next := ProcessUpdate(s, generation, update);
      !next.resyncPending && next.sequence == update.sequence
  {
    ResyncsExactly(s, generation, update);
    hide ProcessUpdate, Complete;
  }

  /** For one: at the highest sequence, three records are lost, and the frame with the fourth has sequence 3. */
  lemma WrapHidesLoss(s: State, generation: u32, record: Cached)
    requires Complete(s) && s.sequence == 0xFFFF_FFFF && record.Sized()
    ensures
      var seen, sent := 0xFFFF_FFFF, 0x1_0000_0003;
      && seen + 1 < sent && sent % 0x1_0000_0000 == 3
      && !ProcessUpdate(s, generation, UpdateFrame(3, [record])).resyncPending
  {
    hide ProcessUpdate;
    StepBackIsTaken(s, generation, UpdateFrame(3, [record]));
  }

  lemma ProcessEffect(s: State, generation: u32, update: UpdateFrame)
    requires forall i | 0 <= i < |update.records| :: update.records[i].Sized()
    ensures
      var next := ProcessUpdate(s, generation, update);
      && (s.resyncPending ==> next.resyncPending)
      && (!next.resyncPending ==>
            && (update.records != [] ==> next.sequence == update.sequence)
            && (update.records == [] ==> next == s)
            && next.capsSeen == s.capsSeen
            && (s.capsSeen && s.sequence != 0 ==> next.sequence - s.sequence <= |update.records|))
  {
    hide StoreUpdates;
    StoreUpdatesIs(s, update.records, update.sequence);
    ResyncPends(s, generation);
    var stored := StoreUpdates(s, update.records, update.sequence);
    ResyncPends(stored, stored.generation);
    hide Resync;
  }

  lemma ResyncPends(s: State, generation: u32)
    ensures Resync(s, generation).resyncPending
  {
    hide Blank;
  }

  lemma {:induction false} ResyncStays(s: State, frames: seq<Incoming>)
    requires WellFormed(frames) && s.resyncPending
    ensures Follow(s, frames).resyncPending
    decreases frames
  {
    hide ProcessUpdate;
    if frames != [] {
      ProcessEffect(s, frames[0].generation, frames[0].update);
      ResyncStays(ProcessUpdate(s, frames[0].generation, frames[0].update), frames[1..]);
    }
  }

  /** Frames with records carry sequences other than zero. */
  predicate Nonzero(frames: seq<Incoming>) {
    forall i | 0 <= i < |frames| :: frames[i].update.records != [] ==> frames[i].update.sequence != 0
  }

  /** So the sequence never advances by more than the records received without a resync, over any run of update
      frames whose records do not come with sequence zero. */
  lemma {:induction false} AdvanceIsBounded(s: State, frames: seq<Incoming>)
    requires WellFormed(frames) && Nonzero(frames) && s.capsSeen && s.sequence != 0
    ensures Follow(s, frames).resyncPending || Follow(s, frames).sequence - s.sequence <= TotalRecords(frames)
    decreases frames
  {
    hide ProcessUpdate;
    if frames != [] {
      var next := ProcessUpdate(s, frames[0].generation, frames[0].update);
      ProcessEffect(s, frames[0].generation, frames[0].update);
      if next.resyncPending {
        ResyncStays(next, frames[1..]);
      } else {
        AdvanceIsBounded(next, frames[1..]);
      }
    }
  }

  /** Behind a frame with records and sequence zero, no gap starts a resync. */
  lemma ZeroHidesGap(s: State, generation: u32, records: seq<Cached>, update: UpdateFrame)
    requires !s.resyncPending && records != [] && update.records != []
    requires forall i | 0 <= i < |records| :: records[i].Sized()
    requires forall i | 0 <= i < |update.records| :: update.records[i].Sized()
    ensures
      var next := ProcessUpdate(ProcessUpdate(s, generation, UpdateFrame(0, records)), generation, update);
      !next.resyncPending && next.sequence == update.sequence
  {
    hide StoreUpdates, Resync;
    var zero := StoreUpdates(s, records, 0);
    StoreUpdatesIs(s, records, 0);
    StoreUpdatesIs(zero, update.records, update.sequence);
  }

  /** The last record for a point, or what was there before. */
  function LastRecord(records: seq<Cached>, point: nat, before: Cached): Cached
    requires forall i | 0 <= i < |records| :: records[i].Sized()
    decreases records
  {
    if records == [] then before
    else LastRecord(records[1..], point, if records[0].Point() == point then records[0] else before)
  }

  function StateAt(states: seq<Cached>, point: nat): Cached {
    if point < |states| then states[point] else NO_STATE
  }

  lemma {:induction false} UpdatedAt(s: State, records: seq<Cached>, sequence: u32, point: nat)
    requires forall i | 0 <= i < |records| :: records[i].Sized()
    ensures StateAt(Updated(s, records, sequence).states, point) ==
            LastRecord(records, point, StateAt(s.states, point))
    decreases records
  {
    hide Cached.Point, Enqueue, NO_STATE;
    if records != [] {
      var at: nat := records[0].Point();
      var states := Grown(s.states, at + 1)[at := records[0]];
      assert StateAt(states, point) == if at == point then records[0] else StateAt(s.states, point);
      UpdatedAt(s.(states := states, pending := Enqueue(s.pending, Update(at, sequence))), records[1..], sequence, point);
    }
  }

  function AllRecords(frames: seq<Incoming>): (records: seq<Cached>)
    requires WellFormed(frames)
    ensures forall i | 0 <= i < |records| :: records[i].Sized()
    decreases frames
  {
    if frames == [] then [] else frames[0].update.records + AllRecords(frames[1..])
  }

  lemma {:induction false} LastOfTwo(a: seq<Cached>, b: seq<Cached>, point: nat, before: Cached)
    requires (forall i | 0 <= i < |a| :: a[i].Sized()) && forall i | 0 <= i < |b| :: b[i].Sized()
    requires forall i | 0 <= i < |a + b| :: (a + b)[i].Sized()
    ensures LastRecord(a + b, point, before) == LastRecord(b, point, LastRecord(a, point, before))
    decreases a
  {
    hide Cached.Sized, Cached.Point;
    if a == [] {
      assert a + b == b;
    } else {
      assert (a + b)[1..] == a[1..] + b;
      LastOfTwo(a[1..], b, point, if a[0].Point() == point then a[0] else before);
    }
  }

  lemma ProcessStores(s: State, generation: u32, update: UpdateFrame, point: nat)
    requires forall i | 0 <= i < |update.records| :: update.records[i].Sized()
    requires !ProcessUpdate(s, generation, update).resyncPending
    ensures StateAt(ProcessUpdate(s, generation, update).states, point) ==
            LastRecord(update.records, point, StateAt(s.states, point))
  {
    UpdatedAt(s, update.records, update.sequence, point);
    ResyncPends(s, generation);
    var stored := StoreUpdates(s, update.records, update.sequence);
    ResyncPends(stored, stored.generation);
    hide Resync, Updated;
  }

  /** While no resync starts, every point holds the last record received for it. */
  lemma {:induction false} CacheFollows(s: State, frames: seq<Incoming>, point: nat)
    requires WellFormed(frames) && !Follow(s, frames).resyncPending
    ensures StateAt(Follow(s, frames).states, point) ==
            LastRecord(AllRecords(frames), point, StateAt(s.states, point))
    decreases frames
  {
    hide ProcessUpdate, Cached.Sized, Cached.Point;
    if frames != [] {
      var next := ProcessUpdate(s, frames[0].generation, frames[0].update);
      if next.resyncPending {
        ResyncStays(next, frames[1..]);
      } else {
        ProcessStores(s, frames[0].generation, frames[0].update, point);
        CacheFollows(next, frames[1..], point);
        LastOfTwo(frames[0].update.records, AllRecords(frames[1..]), point, StateAt(s.states, point));
      }
    }
  }

  /** A poll of the idle client that finds an update frame of the current generation processes it. */
  lemma IdlePollFollows(s: State, in_: Input, payload: seq<byte>)
    requires IsIdle(s) && s.capsSeen && !s.resyncPending && !s.writeSent && in_.Bit5()
    requires in_.Received() == Some(payload) && DecodeHeader(payload).Some?
    requires
      var h := DecodeHeader(payload).value;
      h.generation == s.generation && h.messageType == UPDATES_RESPONSE && ReadUpdate(payload, h).Some?
    ensures
      var h := DecodeHeader(payload).value;
      Poll(s, in_) == (ProcessUpdate(s, h.generation, ReadUpdate(payload, h).value), None)
  {
    hide DecodeHeader, ReadUpdate, ProcessUpdate, Input.Bit5, Input.Received, PollCaps, PollSnapshot, SendCaps, SendStates,
         Resync;
  }
}
