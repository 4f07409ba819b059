/** The plcLink client over runs of polls: what it asks first, that it follows the updates it hears, and
    that the updates it queues can be handed out. */
module LinkUpdates {
  import opened Bytes
  import opened PlcLink
  import opened LinkState
  import opened LinkPoll
  import opened LinkRuns

  // The first request

  /** The client has asked for nothing yet and been told nothing. */
  predicate Unasked(s: State) {
    && !s.capsSent && !s.capsSeen && !s.defsSent && !s.defsSeen && !s.statesSent && !s.statesSeen
    && !s.writeSent && s.write.None? && !s.refresh
  }

  predicate MailboxEmpty(in_: Input) {
    !in_.Bit0() && !in_.Bit4() && !in_.Bit6()
  }

  lemma UnaskedPoll(s: State, in_: Input)
    requires Unasked(s)
    ensures
      var (next, request) := Poll(s, in_);
      || (request == None && Unasked(next))
      || (request == Some(GetCaps) && (s.resyncPending || MailboxEmpty(in_)))
  {
    UnaskedResync(s);
    hide Resync, Input.Received, Input.Bit4, Input.Bit5, Input.Bit6, SendDefs, SendStates, OnWrite, OnUnsolicited,
         OnCaps, OnDefs, OnStates;
  }

  lemma UnaskedResync(s: State)
    requires Unasked(s)
    ensures Unasked(Resync(s, 0))
  {
    hide Blank;
  }

  /** The requests of a run of polls. */
  function Requests(s: State, inputs: seq<Input>): seq<Request>
    decreases inputs
  {
    if inputs == [] then []
    else
      var (next, request) := Poll(s, inputs[0]);
      (if request.Some? then [request.value] else []) + Requests(next, inputs[1..])
  }

  /** Whatever the mailbox holds when the client starts, and however often that makes it start over, the
      first thing it asks for is the capabilities. */
  lemma {:induction false} FirstRequestIsCaps(s: State, inputs: seq<Input>)
    requires Unasked(s)
    ensures Requests(s, inputs) != [] ==> Requests(s, inputs)[0] == GetCaps
    decreases inputs
  {
    hide Poll, Unasked;
    if inputs != [] {
      UnaskedPoll(s, inputs[0]);
      var (next, request) := Poll(s, inputs[0]);
      if request.None? {
        FirstRequestIsCaps(next, inputs[1..]);
      }
    }
  }

  // Following

  /** The client has everything and waits for updates. */
  predicate Following(s: State) {
    IsIdle(s) && s.capsSeen && !s.refresh && !s.resyncPending
  }

  /** The update in a response, if it is one. */
  function UpdateIn(payload: seq<byte>): (update: Option<UpdateFrame>)
    ensures update.Some? ==> forall i | 0 <= i < |update.value.records| :: update.value.records[i].Sized()
  {
    match DecodeHeader(payload)
    case None => None
    case Some(h) => if h.messageType == UPDATES_RESPONSE then ReadUpdate(payload, h) else None
  }

  function RecordsIn(payload: seq<byte>): (records: seq<Cached>)
    ensures forall i | 0 <= i < |records| :: records[i].Sized()
  {
    match UpdateIn(payload)
    case None => []
    case Some(update) => update.records
  }

  function SequenceIn(sequence: u32, payload: seq<byte>): u32 {
    match UpdateIn(payload)
    case None => sequence
    case Some(update) => NextSequence(sequence, update)
  }

  /** The response a poll of a client that follows reads, if any. */
  function Heard(action: Action): Option<seq<byte>> {
    if action.Polling? && action.input.Bit5() then action.input.Received() else None
  }

  function HeardRecords(action: Action): (records: seq<Cached>)
    ensures forall i | 0 <= i < |records| :: records[i].Sized()
  {
    match Heard(action)
    case None => []
    case Some(payload) => RecordsIn(payload)
  }

  function HeardSequence(sequence: u32, action: Action): u32 {
    match Heard(action)
    case None => sequence
    case Some(payload) => SequenceIn(sequence, payload)
  }

  function AllHeard(actions: seq<Action>): (records: seq<Cached>)
    ensures forall i | 0 <= i < |records| :: records[i].Sized()
  {
    if actions == [] then [] else HeardRecords(actions[0]) + AllHeard(actions[1..])
  }

  function LastHeard(sequence: u32, actions: seq<Action>): u32
    decreases actions
  {
    if actions == [] then sequence else LastHeard(HeardSequence(sequence, actions[0]), actions[1..])
  }

  /** A response that makes a client that follows start over: one of another generation, unless a write is
      being answered, or an update that is ahead of the cached sequence. */
  predicate Disturbs(s: State, payload: seq<byte>) {
    match DecodeHeader(payload)
    case None => false
    case Some(h) =>
      || (!s.writeSent && h.generation != s.generation)
      || (UpdateIn(payload).Some? && Ahead(s.sequence, UpdateIn(payload).value))
  }

  predicate Disturbed(s: State, action: Action) {
    Heard(action).Some? && Disturbs(s, Heard(action).value)
  }

  /** No response of the run does. */
  predicate Undisturbed(s: State, actions: seq<Action>)
    decreases actions
  {
    actions == [] || (!Disturbed(s, actions[0]) && Undisturbed(Do(s, actions[0]), actions[1..]))
  }

  /** No step of the run starts a resync. */
  predicate NoResync(s: State, actions: seq<Action>)
    decreases actions
  {
    actions == [] || (!Do(s, actions[0]).resyncPending && NoResync(Do(s, actions[0]), actions[1..]))
  }

  /** Nothing but polls, requested writes and updates handed out. */
  predicate Unrefreshed(actions: seq<Action>) {
    forall i | 0 <= i < |actions| :: !actions[i].RefreshRequested?
  }

  /** The client has taken these records, and stands at this sequence. */
  ghost predicate Follows(s: State, next: State, records: seq<Cached>, sequence: u32)
    requires forall i | 0 <= i < |records| :: records[i].Sized()
  {
    && Following(next) && next.sequence == sequence
    && forall point: nat ::
         StateAt(next.states, point) == LastRecord(records, point, StateAt(s.states, point))
  }

  lemma {:induction false} UpdatedFollowing(s: State, records: seq<Cached>, sequence: u32)
    requires forall i | 0 <= i < |records| :: records[i].Sized()
    requires Following(s)
    ensures Following(Updated(s, records, sequence))
    decreases records
  {
    hide Following;
    if records != [] {
      NotedFollowing(s, records[0], sequence);
      hide Noted;
      UpdatedFollowing(Noted(s, records[0], sequence), records[1..], sequence);
    }
  }

  lemma NotedFollowing(s: State, cached: Cached, sequence: u32)
    requires cached.Sized() && Following(s)
    ensures Following(Noted(s, cached, sequence))
  {
    hide Cached.Point, Enqueue, Grown;
  }

  lemma ProcessFollowing(s: State, generation: u32, update: UpdateFrame)
    requires Following(s) && forall i | 0 <= i < |update.records| :: update.records[i].Sized()
    ensures
      var next := ProcessUpdate(s, generation, update);
      next.resyncPending || Following(next)
  {
    UpdatedFollowing(s, update.records, update.sequence);
    ResyncPends(s, generation);
    var stored := StoreUpdates(s, update.records, update.sequence);
    ResyncPends(stored, stored.generation);
    hide Resync, Updated;
  }

  lemma UpdateFollows(s: State, generation: u32, update: UpdateFrame)
    requires Following(s) && forall i | 0 <= i < |update.records| :: update.records[i].Sized()
    ensures
      var next := ProcessUpdate(s, generation, update);
      if Ahead(s.sequence, update) then next.resyncPending
      else Follows(s, next, update.records, NextSequence(s.sequence, update))
  {
    var next := ProcessUpdate(s, generation, update);
    ResyncsExactly(s, generation, update);
    ProcessFollowing(s, generation, update);
    if !next.resyncPending {
      forall point: nat
        ensures StateAt(next.states, point) == LastRecord(update.records, point, StateAt(s.states, point))
      {
        ProcessStores(s, generation, update, point);
      }
    }
    hide ProcessUpdate, StateAt, LastRecord, Ahead, NextSequence;
  }

  /** Steps that leave the cache alone. */
  predicate SameTable(s: State, t: State) {
    t.states == s.states && t.sequence == s.sequence
  }

  lemma FollowsFrom(s: State, t: State, next: State, records: seq<Cached>, sequence: u32)
    requires forall i | 0 <= i < |records| :: records[i].Sized()
    requires SameTable(s, t) && Follows(t, next, records, sequence)
    ensures Follows(s, next, records, sequence)
  {
    hide LastRecord, StateAt, Following;
  }

  lemma FollowsNothing(s: State, t: State)
    requires Following(t) && SameTable(s, t)
    ensures Follows(s, t, [], s.sequence)
  {
    hide Following;
  }

  lemma FrameFollows(s: State, payload: seq<byte>)
    requires Following(s)
    ensures
      var h := DecodeHeader(payload);
      h.Some? && h.value.messageType == UPDATES_RESPONSE ==>
        var next := ProcessFrame(s, payload, h.value);
        if UpdateIn(payload).Some? && Ahead(s.sequence, UpdateIn(payload).value) then next.resyncPending
        else Follows(s, next, RecordsIn(payload), SequenceIn(s.sequence, payload))
  {
    hide DecodeHeader, ReadUpdate, ProcessUpdate, Follows, Following, Ahead, NextSequence;
    FollowsNothing(s, s);
    var h := DecodeHeader(payload);
    if h.Some? && h.value.messageType == UPDATES_RESPONSE && ReadUpdate(payload, h.value).Some? {
      UpdateFollows(s, h.value.generation, ReadUpdate(payload, h.value).value);
    }
  }

  lemma UnsolicitedFollows(s: State, payload: seq<byte>)
    requires Following(s) && !s.writeSent
    ensures
      var next := OnUnsolicited(s, payload);
      if Disturbs(s, payload) then next.resyncPending
      else Follows(s, next, RecordsIn(payload), SequenceIn(s.sequence, payload))
  {
    FrameFollows(s, payload);
    FollowsNothing(s, s);
    if DecodeHeader(payload).Some? {
      ResyncPends(s, DecodeHeader(payload).value.generation);
    }
    hide DecodeHeader, ReadUpdate, ProcessFrame, Follows, Following, Resync, Ahead, NextSequence;
  }

  lemma WriteFollows(s: State, payload: seq<byte>)
    requires Following(s) && s.writeSent
    ensures
      var next := OnWrite(s, payload);
      if Disturbs(s, payload) then next.resyncPending
      else Follows(s, next, RecordsIn(payload), SequenceIn(s.sequence, payload))
  {
    var done := s.(writeSent := false, write := None);
    assert Following(done) && SameTable(s, done) && done.sequence == s.sequence;
    hide DecodeHeader, ReadUpdate, ProcessFrame, Follows, Following, SameTable, Ahead, NextSequence;
    FrameFollows(done, payload);
    FollowsNothing(s, s);
    FollowsNothing(s, done);
    var h := DecodeHeader(payload);
    if h.Some? && h.value.messageType == UPDATES_RESPONSE && !Disturbs(s, payload) {
      FollowsFrom(s, done, ProcessFrame(done, payload, h.value), RecordsIn(payload), SequenceIn(s.sequence, payload));
    }
  }

  lemma FollowingPollIs(s: State, in_: Input)
    requires Following(s)
    ensures Poll(s, in_).0 ==
      if in_.Bit5() then Taking(s, in_, if s.writeSent then OnWrite else OnUnsolicited).0
      else if s.write.Some? && !s.writeSent && in_.CanSend() && in_.writeOk then s.(writeSent := true)
      else s
  {
    hide Input.Bit5, Input.CanSend, Input.Received, SendCaps, SendDefs, SendStates, PollCaps, OnWrite, OnUnsolicited,
         Recover;
  }

  /** One poll of a client that follows, exactly: a resync starts if and only if what it hears disturbs the
      client; otherwise the records heard are in the cache and the client goes on. */
  lemma PollResyncsExactly(s: State, in_: Input)
    requires Following(s)
    ensures
      var next, action := Poll(s, in_).0, Polling(in_);
      && (next.resyncPending <==> Disturbed(s, action))
      && (!next.resyncPending ==> Follows(s, next, HeardRecords(action), HeardSequence(s.sequence, action)))
  {
    FollowingPollIs(s, in_);
    var sent := s.(writeSent := true);
    assert Following(sent) && SameTable(s, sent) && !s.resyncPending && !sent.resyncPending;
    hide Poll, SameTable, OnWrite, OnUnsolicited, RecordsIn, SequenceIn, Disturbs, Input.Bit5, Input.CanSend,
         Input.Received;
    FollowsNothing(s, s);
    FollowsNothing(s, sent);
    if in_.Bit5() && in_.Received().Some? {
      var payload := in_.Received().value;
      if s.writeSent {
        WriteFollows(s, payload);
      } else {
        UnsolicitedFollows(s, payload);
      }
      FollowingIsQuiet(s, RecordsIn(payload), SequenceIn(s.sequence, payload));
    }
    hide Follows, Following;
  }

  lemma FollowingIsQuiet(s: State, records: seq<Cached>, sequence: u32)
    requires forall i | 0 <= i < |records| :: records[i].Sized()
    ensures forall next :: Follows(s, next, records, sequence) ==> !next.resyncPending
  {
    hide LastRecord, StateAt;
  }

  lemma StepFollows(s: State, action: Action)
    requires Following(s) && !action.RefreshRequested?
    ensures
      var next := Do(s, action);
      && (next.resyncPending <==> Disturbed(s, action))
      && (!next.resyncPending ==> Follows(s, next, HeardRecords(action), HeardSequence(s.sequence, action)))
  {
    if action.Polling? {
      PollResyncsExactly(s, action.input);
      hide *;
      DoIsPoll(s, action.input);
    } else {
      var next := Do(s, action);
      assert Following(next) && SameTable(s, next) && !next.resyncPending;
      FollowsNothing(s, next);
      hide *;
      NothingHeard(s, action);
    }
  }

  lemma DoIsPoll(s: State, in_: Input)
    ensures Do(s, Polling(in_)) == Poll(s, in_).0
  {
    hide Poll;
  }

  lemma NothingHeard(s: State, action: Action)
    requires !action.Polling?
    ensures HeardRecords(action) == [] && HeardSequence(s.sequence, action) == s.sequence && !Disturbed(s, action)
  {
  }

  lemma {:induction false} LastOfRun(a: seq<Cached>, b: seq<Cached>, s: State, t: State, last: State, point: nat)
    requires (forall i | 0 <= i < |a| :: a[i].Sized()) && forall i | 0 <= i < |b| :: b[i].Sized()
    requires StateAt(t.states, point) == LastRecord(a, point, StateAt(s.states, point))
    requires StateAt(last.states, point) == LastRecord(b, point, StateAt(t.states, point))
    ensures forall i | 0 <= i < |a + b| :: (a + b)[i].Sized()
    ensures StateAt(last.states, point) == LastRecord(a + b, point, StateAt(s.states, point))
  {
    hide StateAt;
    LastOfTwo(a, b, point, StateAt(s.states, point));
  }

  /** Over any run of polls of a client that has everything, with any responses or none coming in, writes
      requested and updates handed out in between: a step starts a resync if and only if a response disturbs
      the client, and otherwise every point holds the last record heard for it, the client stands at the
      sequence of the last records heard, and still follows. */
  lemma {:induction false} PollsFollowExactly(s: State, actions: seq<Action>)
    requires Following(s) && Unrefreshed(actions)
    ensures NoResync(s, actions) <==> Undisturbed(s, actions)
    ensures Undisturbed(s, actions) ==>
              Follows(s, After(s, actions), AllHeard(actions), LastHeard(s.sequence, actions))
    decreases actions
  {
    hide Do, Following, HeardRecords, HeardSequence, LastRecord, StateAt, Disturbed;
    if actions == [] {
      FollowsNothing(s, s);
    } else {
      var next, heard, rest := Do(s, actions[0]), HeardRecords(actions[0]), AllHeard(actions[1..]);
      StepFollows(s, actions[0]);
      if !Disturbed(s, actions[0]) {
        PollsFollowExactly(next, actions[1..]);
        if Undisturbed(s, actions) {
          var last := After(s, actions);
          forall point: nat
            ensures StateAt(last.states, point) == LastRecord(heard + rest, point, StateAt(s.states, point))
          {
            LastOfRun(heard, rest, s, next, last, point);
          }
        }
      }
    }
  }

  // Updates handed out

  /** Every queued update is for a point of the cache. */
  predicate Held(s: State) {
    forall i | 0 <= i < |s.pending| :: s.pending[i].point < |s.states|
  }

  /** The queue stays, and the cache does not shrink. */
  predicate SameQueue(s: State, t: State) {
    t.pending == s.pending && |s.states| <= |t.states|
  }

  lemma SameHeld(s: State, t: State)
    requires Held(s) && SameQueue(s, t)
    ensures Held(t)
  {
  }

  lemma ResetHeld(s: State, points: u16)
    ensures Held(ResetStates(s, points)) && SameQueue(s, ResetDefs(s))
  {
    hide Blank;
  }

  lemma ResyncHeld(s: State, generation: u32)
    requires Held(s)
    ensures Held(Resync(s, generation))
  {
    hide Blank;
  }

  lemma NotedHeld(s: State, cached: Cached, sequence: u32)
    requires cached.Sized() && Held(s)
    ensures Held(Noted(s, cached, sequence))
  {
    hide Cached.Point;
  }

  lemma {:induction false} UpdatedHeld(s: State, records: seq<Cached>, sequence: u32)
    requires Held(s) && forall i | 0 <= i < |records| :: records[i].Sized()
    ensures Held(Updated(s, records, sequence))
    decreases records
  {
    hide Held, Noted;
    if records != [] {
      NotedHeld(s, records[0], sequence);
      UpdatedHeld(Noted(s, records[0], sequence), records[1..], sequence);
    }
  }

  lemma StoreUpdatesHeld(s: State, records: seq<Cached>, sequence: u32)
    requires Held(s) && forall i | 0 <= i < |records| :: records[i].Sized()
    ensures Held(StoreUpdates(s, records, sequence))
  {
    UpdatedHeld(s, records, sequence);
    hide Updated;
  }

  lemma FrameHeld(s: State, payload: seq<byte>, h: Header)
    requires Held(s)
    ensures Held(ProcessFrame(s, payload, h))
  {
    hide Held, Resync, StoreUpdates, ReadUpdate;
    ResyncHeld(s, h.generation);
    match ReadUpdate(payload, h)
    case None =>
    case Some(update) =>
      StoreUpdatesHeld(s, update.records, update.sequence);
      var stored := StoreUpdates(s, update.records, update.sequence);
      ResyncHeld(stored, stored.generation);
  }

  lemma CapsHeld(s: State, payload: seq<byte>)
    requires Held(s)
    ensures Held(OnCaps(s, payload))
  {
    hide DecodeHeader, ReadUpdate, StoreUpdates, TakeCaps, Held;
    if DecodeHeader(payload).Some? {
      var h := DecodeHeader(payload).value;
      if ReadUpdate(payload, h).Some? {
        var update := ReadUpdate(payload, h).value;
        StoreUpdatesHeld(s, update.records, update.sequence);
      }
      if HEADER_SIZE + CAPS_SIZE <= |payload| {
        TakeCapsHeld(s, payload);
      }
    }
  }

  lemma TakeCapsHeld(s: State, payload: seq<byte>)
    requires Held(s) && HEADER_SIZE + CAPS_SIZE <= |payload|
    ensures Held(TakeCaps(s, payload))
  {
    hide Fetch16, Fetch32, Blank;
  }

  lemma DefsHeld(s: State, payload: seq<byte>)
    requires Held(s)
    ensures Held(OnDefs(s, payload))
  {
    hide DecodeHeader, ProcessFrame, ReadDefs, TakeDefs, Held;
    if DecodeHeader(payload).Some? {
      var h := DecodeHeader(payload).value;
      FrameHeld(s, payload, h);
      if ReadDefs(payload, h).Some? {
        TakeDefsQueue(s, ReadDefs(payload, h).value);
        SameHeld(s, TakeDefs(s, ReadDefs(payload, h).value));
      }
    }
  }

  lemma TakeDefsQueue(s: State, c: DefsChunk)
    ensures SameQueue(s, TakeDefs(s, c))
  {
    var sent := s.(defsSent := false);
    SizedParts(sent, c);
    StoredParts(sent, c);
    hide NoDefinitions, Overlay, Definitions, StoreDefs, SizedDefs, LoadedEnd, Placeable;
  }

  lemma StatesHeld(s: State, payload: seq<byte>)
    requires Held(s)
    ensures Held(OnStates(s, payload))
  {
    hide DecodeHeader, ProcessFrame, ReadStates, TakeStates, Held;
    if DecodeHeader(payload).Some? {
      var h := DecodeHeader(payload).value;
      FrameHeld(s, payload, h);
      if ReadStates(payload, h).Some? {
        TakeStatesQueue(s, ReadStates(payload, h).value);
        SameHeld(s, TakeStates(s, ReadStates(payload, h).value));
      }
    }
  }

  lemma TakeStatesQueue(s: State, c: StatesChunk)
    requires forall i | 0 <= i < |c.records| :: c.records[i].Sized()
    ensures SameQueue(s, TakeStates(s, c))
  {
    StoreStatesQueue(s, c);
    hide StoreStates, Finished, Cached.Sized;
  }

  lemma StoreStatesQueue(s: State, c: StatesChunk)
    requires forall i | 0 <= i < |c.records| :: c.records[i].Sized()
    ensures SameQueue(s, StoreStates(s, c))
  {
    hide Placed, Grown, Cached.Sized;
  }

  lemma WriteHeld(s: State, payload: seq<byte>)
    requires Held(s)
    ensures Held(OnWrite(s, payload)) && Held(OnUnsolicited(s, payload))
  {
    var done := s.(writeSent := false, write := None);
    assert SameQueue(s, done);
    SameHeld(s, done);
    hide DecodeHeader, ProcessFrame, Resync, Held;
    if DecodeHeader(payload).Some? {
      var h := DecodeHeader(payload).value;
      FrameHeld(s, payload, h);
      FrameHeld(done, payload, h);
      ResyncHeld(s, h.generation);
    }
  }

  /** What a response can make of the client. */
  predicate Answers(s: State, payload: seq<byte>, t: State) {
    || t == OnWrite(s, payload) || t == OnUnsolicited(s, payload) || t == OnCaps(s, payload)
    || t == OnDefs(s, payload) || t == OnStates(s, payload)
  }

  /** What sending a request can. */
  predicate Sends(s: State, in_: Input, t: State) {
    || t == SendCaps(s, in_).0 || t == SendCaps(s.(resyncPending := false), in_).0 || t == SendDefs(s, in_).0
    || t == SendStates(s, s.nextStates, in_).0 || t == s.(writeSent := true)
    || t == SendStates(s.(refresh := false, statesSeen := false, nextStates := 0), 0, in_).0
  }

  /** All a poll can do. */
  predicate Forms(s: State, in_: Input, t: State) {
    || t == s || t == Resync(s, 0) || Sends(s, in_, t)
    || (in_.Received().Some? && Answers(s, in_.Received().value, t))
  }

  lemma TakingForms(s: State, in_: Input, on: (State, seq<byte>) -> State)
    requires forall payload :: Answers(s, payload, on(s, payload))
    ensures Forms(s, in_, Taking(s, in_, on).0)
  {
    hide Answers, Sends, Resync, Input.Received;
  }

  lemma AnsweringForms(s: State, in_: Input)
    ensures Forms(s, in_, Taking(s, in_, OnWrite).0) && Forms(s, in_, Taking(s, in_, OnUnsolicited).0)
    ensures Forms(s, in_, Taking(s, in_, OnCaps).0) && Forms(s, in_, Taking(s, in_, OnDefs).0)
    ensures Forms(s, in_, Taking(s, in_, OnStates).0)
  {
    hide OnWrite, OnUnsolicited, OnCaps, OnDefs, OnStates, Taking, Forms;
    TakingForms(s, in_, OnWrite);
    TakingForms(s, in_, OnUnsolicited);
    TakingForms(s, in_, OnCaps);
    TakingForms(s, in_, OnDefs);
    TakingForms(s, in_, OnStates);
  }

  lemma SendingForms(s: State, in_: Input)
    ensures Forms(s, in_, SendCaps(s, in_).0) && Forms(s, in_, SendCaps(s.(resyncPending := false), in_).0)
    ensures Forms(s, in_, SendDefs(s, in_).0) && Forms(s, in_, SendStates(s, s.nextStates, in_).0)
    ensures Forms(s, in_, SendStates(s.(refresh := false, statesSeen := false, nextStates := 0), 0, in_).0)
    ensures Forms(s, in_, s.(writeSent := true)) && Forms(s, in_, s) && Forms(s, in_, Resync(s, 0))
  {
    hide SendCaps, SendDefs, SendStates, Resync, Answers, Input.Received;
  }

  lemma PollForms(s: State, in_: Input)
    ensures Forms(s, in_, Poll(s, in_).0)
  {
    hide *;
    AnsweringForms(s, in_);
    SendingForms(s, in_);
    PollStatesForms(s, in_);
    PollSnapshotForms(s, in_);
    PollCapsForms(s, in_);
    PollFreshForms(s, in_);
    PollIs(s, in_);
  }

  lemma PollIs(s: State, in_: Input)
    ensures var t := Poll(s, in_).0; t == s || t == Resync(s, 0) || t == PollFresh(s, in_).0
  {
    hide PollFresh, Resync, Input.Bit0, Input.Bit4, Input.Bit5, Input.Bit6, Input.Received;
  }

  lemma PollFreshForms(s: State, in_: Input)
    requires Forms(s, in_, PollCaps(s, in_).0) && Forms(s, in_, PollSnapshot(s, in_).0)
    ensures Forms(s, in_, PollFresh(s, in_).0)
  {
    AnsweringForms(s, in_);
    SendingForms(s, in_);
    hide Forms, PollCaps, PollSnapshot, SendCaps, SendStates, Taking, IsIdle, Input.Bit5, Input.CanSend;
  }

  lemma PollCapsForms(s: State, in_: Input)
    requires Forms(s, in_, PollStates(s, in_).0)
    ensures Forms(s, in_, PollCaps(s, in_).0)
  {
    AnsweringForms(s, in_);
    SendingForms(s, in_);
    hide Forms, PollStates, SendCaps, Taking, Resync, Input.Bit0, Input.Bit4, Input.Bit5, Input.Bit6, Input.CanSend;
  }

  lemma PollSnapshotForms(s: State, in_: Input)
    requires Forms(s, in_, PollStates(s, in_).0)
    ensures Forms(s, in_, PollSnapshot(s, in_).0)
  {
    AnsweringForms(s, in_);
    SendingForms(s, in_);
    hide Forms, PollStates, SendDefs, Taking, Input.Bit5, Input.CanSend;
  }

  lemma PollStatesForms(s: State, in_: Input)
    ensures Forms(s, in_, PollStates(s, in_).0)
  {
    AnsweringForms(s, in_);
    SendingForms(s, in_);
    hide Forms, SendStates, Taking, Input.Bit5, Input.CanSend;
  }

  lemma SendStatesHeld(s: State, start: u16, in_: Input)
    requires Held(s)
    ensures Held(SendStates(s, start, in_).0)
  {
    var sent := s.(statesSent := true);
    assert SameQueue(s, sent);
    SameHeld(s, sent);
    ResetHeld(sent.(recordCount := 0), s.points);
    hide Held, SameQueue, ResetStates, StatesRoom;
  }

  lemma SendsHeld(s: State, in_: Input, t: State)
    requires Held(s) && Sends(s, in_, t)
    ensures Held(t)
  {
    var refreshed := s.(refresh := false, statesSeen := false, nextStates := 0);
    assert SameQueue(s, refreshed);
    SameHeld(s, refreshed);
    SendStatesHeld(s, s.nextStates, in_);
    SendStatesHeld(refreshed, 0, in_);
    SmallSends(s, in_);
    SameHeld(s, SendDefs(s, in_).0);
    SameHeld(s, SendCaps(s, in_).0);
    SameHeld(s, SendCaps(s.(resyncPending := false), in_).0);
    SameHeld(s, s.(writeSent := true));
    hide Held, SameQueue, SendCaps, SendDefs, SendStates;
  }

  lemma SmallSends(s: State, in_: Input)
    ensures SameQueue(s, SendDefs(s, in_).0) && SameQueue(s, SendCaps(s, in_).0)
    ensures SameQueue(s, SendCaps(s.(resyncPending := false), in_).0) && SameQueue(s, s.(writeSent := true))
  {
    hide DefsRoom;
  }

  lemma StepHeld(s: State, action: Action)
    requires Held(s)
    ensures Held(Do(s, action))
  {
    if action.Polling? {
      var in_ := action.input;
      hide *;
      DoIsPoll(s, in_);
      PollForms(s, in_);
      ResyncHeld(s, 0);
      FormsHeld(s, in_, Poll(s, in_).0);
    }
  }

  lemma FormsHeld(s: State, in_: Input, t: State)
    requires Held(s) && Forms(s, in_, t)
    ensures Held(t)
  {
    hide Held, Sends, Answers, Resync, Input.Received;
    ResyncHeld(s, 0);
    if Sends(s, in_, t) {
      SendsHeld(s, in_, t);
    } else if in_.Received().Some? && Answers(s, in_.Received().value, t) {
      AnswersHeld(s, in_.Received().value, t);
    }
  }

  lemma AnswersHeld(s: State, payload: seq<byte>, t: State)
    requires Held(s) && Answers(s, payload, t)
    ensures Held(t)
  {
    WriteHeld(s, payload);
    CapsHeld(s, payload);
    DefsHeld(s, payload);
    StatesHeld(s, payload);
    hide Held, OnWrite, OnUnsolicited, OnCaps, OnDefs, OnStates;
  }

  lemma {:induction false} AllHeld(s: State, actions: seq<Action>)
    requires Held(s)
    ensures Held(After(s, actions))
    decreases actions
  {
    hide Held, Do;
    if actions != [] {
      StepHeld(s, actions[0]);
      AllHeld(Do(s, actions[0]), actions[1..]);
    }
  }

  /** An update as it is handed out, with the state and the definition of its point. */
  datatype PointUpdate = PointUpdate(sequence: u32, state: Cached, definition: Option<Definition>)

  /** pop_point_update: nothing without a pending update, or if its point is not in the cache. */
  function Popped(s: State): Option<PointUpdate> {
    if s.pending == [] || |s.states| <= s.pending[0].point then None
    else
      var point := s.pending[0].point;
      Some(PointUpdate(s.pending[0].sequence, s.states[point],
                       if point < |s.defs| then Some(s.defs[point]) else None))
  }

  /** Over every run, a pending update is always handed out, with the current state of its point: none is
      dropped for want of a cached state. */
  lemma QueuedUpdatesAreHandedOut(actions: seq<Action>)
    ensures
      var s := After(INITIAL, actions);
      && (Popped(s).None? <==> s.pending == [])
      && (s.pending != [] ==>
            Popped(s).value.sequence == s.pending[0].sequence &&
            Popped(s).value.state == StateAt(s.states, s.pending[0].point))
  {
    AllHeld(INITIAL, actions);
    hide After;
  }
}
