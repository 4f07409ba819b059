/** What the client writes: each write it accepts goes out once, as it was asked for, and is over when it is answered
    or the client starts over. */
module LinkWrites {
  import opened Bytes
  import opened PlcLink
  import opened LinkState
  import opened LinkPoll
  import opened LinkRuns

  // What can be seen of writes

  /** A write is accepted, its request is sent, or it is over. */
  datatype Event = Accepted(request: WriteRequest) | Sent(request: WriteRequest) | Over

  /** The writes a step can be seen to accept, send and end. */
  function EventsOf(s: State, action: Action): seq<Event> {
    match action
    case WriteRequested(w) => if s.write.None? && Do(s, action).write.Some? then [Accepted(w)] else []
    case Polling(in_) =>
      (match Poll(s, in_).1
       case Some(WriteState(w)) => [Sent(w)]
       case _ => []) +
      (if s.write.Some? && Poll(s, in_).0.write.None? then [Over] else [])
    case _ => []
  }

  function Events(s: State, actions: seq<Action>): seq<Event>
    decreases actions
  {
    if actions == [] then [] else EventsOf(s, actions[0]) + Events(Do(s, actions[0]), actions[1..])
  }

  /** In order: after a write is accepted none is until it is over, and only that one is sent, once. */
  predicate InOrder(events: seq<Event>, waiting: Option<WriteRequest>, inFlight: bool)
    decreases events
  {
    if events == [] then true
    else
      match events[0]
      case Accepted(w) => waiting.None? && InOrder(events[1..], Some(w), false)
      case Sent(w) => waiting == Some(w) && !inFlight && InOrder(events[1..], waiting, true)
      case Over => waiting.Some? && InOrder(events[1..], None, false)
  }

  // Steps

  /** What is in flight waits for its answer, and a client that starts over has nothing to write. */
  predicate Consistent(s: State) {
    && (s.writeSent ==> s.write.Some?)
    && (s.write.Some? ==> s.capsSeen && !s.resyncPending)
    && Sane(s)
  }

  /** A client that starts over knows nothing yet. */
  predicate Sane(s: State) {
    s.resyncPending ==> !s.capsSeen
  }

  /** Nothing changes for the writes. */
  predicate Kept(s: State, t: State) {
    && t.write == s.write && t.writeSent == s.writeSent
    && (s.capsSeen && !s.resyncPending ==> t.capsSeen && !t.resyncPending)
    && (Sane(s) ==> Sane(t))
  }

  /** The client starts over, with nothing to write. */
  predicate Dropped(t: State) {
    t.write == None && !t.writeSent && t.resyncPending && !t.capsSeen
  }

  /** A response to a write was read. */
  predicate Answered(s: State, in_: Input) {
    s.writeSent && in_.Bit5() && in_.Received().Some? && DecodeHeader(in_.Received().value).Some?
  }

  lemma ResyncDrops(s: State, generation: u32)
    ensures Dropped(Resync(s, generation))
  {
    hide Blank;
  }

  lemma {:induction false} UpdatedKeeps(s: State, records: seq<Cached>, sequence: u32)
    requires forall i | 0 <= i < |records| :: records[i].Sized()
    ensures
      var t := Updated(s, records, sequence);
      t.write == s.write && t.writeSent == s.writeSent && t.capsSeen == s.capsSeen && t.resyncPending == s.resyncPending
    decreases records
  {
    hide Cached.Sized, Grown, Enqueue;
    if records != [] {
      UpdatedKeeps(Noted(s, records[0], sequence), records[1..], sequence);
    }
  }

  lemma StoredKeeps(s: State, records: seq<Cached>, sequence: u32)
    requires forall i | 0 <= i < |records| :: records[i].Sized()
    ensures Kept(s, StoreUpdates(s, records, sequence))
  {
    hide Updated, Cached.Sized;
    UpdatedKeeps(s, records, sequence);
  }

  lemma FrameWrites(s: State, payload: seq<byte>, h: Header)
    ensures Kept(s, ProcessFrame(s, payload, h)) || Dropped(ProcessFrame(s, payload, h))
  {
    hide StoreUpdates, Resync, Records, Cached.Sized;
    match ReadUpdate(payload, h)
    case None =>
    case Some(update) =>
      ResyncDrops(s, h.generation);
      var stored := StoreUpdates(s, update.records, update.sequence);
      StoredKeeps(s, update.records, update.sequence);
      ResyncDrops(stored, stored.generation);
  }

  lemma CapsKeep(s: State, payload: seq<byte>)
    ensures Kept(s, OnCaps(s, payload))
  {
    hide StoreUpdates, Records, Cached.Sized, Fetch16, Fetch32, DecodeHeader, Blank;
    match DecodeHeader(payload)
    case None =>
    case Some(h) =>
      if h.messageType == UPDATES_RESPONSE && ReadUpdate(payload, h).Some? {
        var update := ReadUpdate(payload, h).value;
        StoredKeeps(s, update.records, update.sequence);
      }
  }

  lemma SizedKeeps(s: State, c: DefsChunk)
    ensures Kept(s, SizedDefs(s, c))
  {
    hide NoDefinitions, Kept;
    KeptSelf(s);
    KeptWithDefs(s, NoDefinitions(c.points), c.total);
  }

  lemma KeptWithDefs(s: State, defs: seq<Definition>, total: u32)
    ensures Kept(s, s.(defs := defs, defsTotal := total, defsLoaded := 0))
  {
  }

  lemma KeptChain(s: State, m: State, t: State)
    requires Kept(s, m) && Kept(m, t)
    ensures Kept(s, t)
  {
  }

  lemma StoreDefsKeeps(s: State, c: DefsChunk)
    ensures Kept(s, StoreDefs(s, c))
  {
    SizedKeeps(s, c);
    hide SizedDefs, Overlay, Definitions;
  }

  lemma TakeDefsKeeps(s: State, c: DefsChunk)
    ensures Kept(s, TakeDefs(s, c))
  {
    StoreDefsKeeps(s.(defsSent := false), c);
    hide StoreDefs;
  }

  lemma DefsKeep(s: State, payload: seq<byte>)
    ensures Kept(s, OnDefs(s, payload)) || Dropped(OnDefs(s, payload))
  {
    hide DecodeHeader, ProcessFrame, ReadDefs, TakeDefs, Dropped;
    if DecodeHeader(payload).Some? {
      var h := DecodeHeader(payload).value;
      FrameWrites(s, payload, h);
      if ReadDefs(payload, h).Some? {
        TakeDefsKeeps(s, ReadDefs(payload, h).value);
      }
    }
  }

  lemma StoreStatesKeeps(s: State, c: StatesChunk)
    requires forall i | 0 <= i < |c.records| :: c.records[i].Sized()
    ensures Kept(s, StoreStates(s, c))
  {
    hide Placed, Grown, Cached.Sized;
  }

  lemma TakeStatesKeeps(s: State, c: StatesChunk)
    requires forall i | 0 <= i < |c.records| :: c.records[i].Sized()
    ensures Kept(s, TakeStates(s, c))
  {
    StoreStatesKeeps(s, c);
    hide StoreStates, Finished, Cached.Sized;
  }

  lemma StatesKeep(s: State, payload: seq<byte>)
    ensures Kept(s, OnStates(s, payload)) || Dropped(OnStates(s, payload))
  {
    hide DecodeHeader, ProcessFrame, ReadStates, TakeStates, Dropped, Cached.Sized;
    if DecodeHeader(payload).Some? {
      var h := DecodeHeader(payload).value;
      FrameWrites(s, payload, h);
      if ReadStates(payload, h).Some? {
        TakeStatesKeeps(s, ReadStates(payload, h).value);
      }
    }
  }

  lemma UnsolicitedWrites(s: State, payload: seq<byte>)
    ensures Kept(s, OnUnsolicited(s, payload)) || Dropped(OnUnsolicited(s, payload))
  {
    hide DecodeHeader, ProcessFrame, Resync;
    match DecodeHeader(payload)
    case None =>
    case Some(h) =>
      FrameWrites(s, payload, h);
      ResyncDrops(s, h.generation);
  }

  lemma WriteEnds(s: State, payload: seq<byte>)
    ensures
      var t := OnWrite(s, payload);
      if DecodeHeader(payload).Some? then t.write == None && !t.writeSent && (Sane(s) ==> Sane(t)) else t == s
  {
    hide DecodeHeader, ProcessFrame;
    match DecodeHeader(payload)
    case None =>
    case Some(h) => FrameWrites(s.(writeSent := false, write := None), payload, h);
  }

  lemma KeptWithCaps(s: State, tick: u32)
    ensures Kept(s, s.(capsSent := true, capsTick := tick))
  {
  }

  lemma KeptWithoutResync(s: State)
    ensures Kept(s, s.(resyncPending := false))
  {
  }

  lemma CapsSent(s: State, in_: Input)
    ensures Kept(s, SendCaps(s, in_).0)
    ensures SendCaps(s, in_).1 == None || SendCaps(s, in_).1 == Some(GetCaps)
  {
    hide Kept;
    KeptSelf(s);
    KeptWithCaps(s, in_.tick);
  }

  lemma CapsSentAgain(s: State, in_: Input)
    ensures Kept(s, SendCaps(s.(resyncPending := false), in_).0)
    ensures var sent := SendCaps(s.(resyncPending := false), in_).1; sent == None || sent == Some(GetCaps)
  {
    hide Kept, SendCaps;
    var begun := s.(resyncPending := false);
    KeptWithoutResync(s);
    CapsSent(begun, in_);
    KeptChain(s, begun, SendCaps(begun, in_).0);
  }

  lemma DefsSent(s: State, in_: Input)
    ensures Kept(s, SendDefs(s, in_).0)
    ensures SendDefs(s, in_).1.Some? ==> SendDefs(s, in_).1.value.GetDefs?
  {
    hide DefsRoom;
  }

  lemma ResetKeeps(s: State, points: u16)
    ensures Kept(s, ResetStates(s, points))
  {
    hide Blank;
  }

  lemma StatesSent(s: State, start: u16, in_: Input)
    ensures Kept(s, SendStates(s, start, in_).0)
    ensures SendStates(s, start, in_).1.Some? ==> SendStates(s, start, in_).1.value.GetStates?
  {
    ResetKeeps(s.(statesSent := true).(recordCount := 0), s.points);
    hide StatesRoom, ResetStates;
  }

  // One poll

  /** What a poll does for the writes. */
  predicate PollEffect(s: State, in_: Input, step: Step) {
    match step.1
    case Some(WriteState(w)) =>
      && s.write == Some(w) && !s.writeSent && step.0.write == s.write && step.0.writeSent
      && step.0.capsSeen && !step.0.resyncPending
    case _ =>
      || Kept(s, step.0) || Dropped(step.0)
      || (Answered(s, in_) && step.0.write == None && !step.0.writeSent && (Sane(s) ==> Sane(step.0)))
  }

  lemma TakingEffect(s: State, in_: Input, on: (State, seq<byte>) -> State)
    requires forall payload :: Kept(s, on(s, payload)) || Dropped(on(s, payload))
    ensures PollEffect(s, in_, Taking(s, in_, on))
  {
    hide Kept, Dropped, Answered, Input.Received;
    KeptSelf(s);
  }

  lemma KeptSelf(s: State)
    ensures Kept(s, s)
  {
  }

  lemma HandlersEffect(s: State, in_: Input)
    ensures PollEffect(s, in_, Taking(s, in_, OnUnsolicited)) && PollEffect(s, in_, Taking(s, in_, OnCaps))
    ensures PollEffect(s, in_, Taking(s, in_, OnDefs)) && PollEffect(s, in_, Taking(s, in_, OnStates))
  {
    hide *;
    forall payload
      ensures Kept(s, OnUnsolicited(s, payload)) || Dropped(OnUnsolicited(s, payload))
      ensures Kept(s, OnCaps(s, payload)) || Dropped(OnCaps(s, payload))
      ensures Kept(s, OnDefs(s, payload)) || Dropped(OnDefs(s, payload))
      ensures Kept(s, OnStates(s, payload)) || Dropped(OnStates(s, payload))
    {
      UnsolicitedWrites(s, payload);
      CapsKeep(s, payload);
      DefsKeep(s, payload);
      StatesKeep(s, payload);
    }
    TakingEffect(s, in_, OnUnsolicited);
    TakingEffect(s, in_, OnCaps);
    TakingEffect(s, in_, OnDefs);
    TakingEffect(s, in_, OnStates);
  }

  /** The answer to a write is read. */
  lemma AnswerEffect(s: State, in_: Input)
    requires s.writeSent && in_.Bit5()
    ensures PollEffect(s, in_, Taking(s, in_, OnWrite))
    ensures Answered(s, in_) ==> Taking(s, in_, OnWrite).0.write == None && !Taking(s, in_, OnWrite).0.writeSent
    ensures !Answered(s, in_) ==> Taking(s, in_, OnWrite).0 == s
  {
    hide OnWrite, Kept, Dropped, DecodeHeader, Input.Received;
    KeptSelf(s);
    if in_.Received().Some? {
      WriteEnds(s, in_.Received().value);
    }
  }

  lemma SendingEffect(s: State, start: u16, in_: Input)
    ensures PollEffect(s, in_, SendCaps(s, in_)) && PollEffect(s, in_, SendCaps(s.(resyncPending := false), in_))
    ensures PollEffect(s, in_, SendDefs(s, in_)) && PollEffect(s, in_, SendStates(s, start, in_))
    ensures PollEffect(s, in_, SendStates(s.(refresh := false, statesSeen := false, nextStates := 0), 0, in_))
    ensures PollEffect(s, in_, Quiet(s)) && PollEffect(s, in_, Quiet(Resync(s, 0)))
  {
    CapsSent(s, in_);
    CapsSentAgain(s, in_);
    DefsSent(s, in_);
    StatesSent(s, start, in_);
    var refreshed := s.(refresh := false, statesSeen := false, nextStates := 0);
    assert Kept(s, refreshed);
    StatesSent(refreshed, 0, in_);
    ResyncDrops(s, 0);
    KeptSelf(s);
    hide SendCaps, SendDefs, SendStates, Resync, Answered, Dropped;
  }

  lemma PollStatesEffect(s: State, in_: Input)
    ensures PollEffect(s, in_, PollStates(s, in_))
  {
    HandlersEffect(s, in_);
    SendingEffect(s, s.nextStates, in_);
    hide PollEffect, SendStates, Taking, Input.Bit5, Input.CanSend;
  }

  lemma PollSnapshotEffect(s: State, in_: Input)
    ensures PollEffect(s, in_, PollSnapshot(s, in_))
  {
    HandlersEffect(s, in_);
    SendingEffect(s, 0, in_);
    PollStatesEffect(s, in_);
    hide PollEffect, SendDefs, Taking, PollStates, Input.Bit5, Input.CanSend;
  }

  lemma PollCapsEffect(s: State, in_: Input)
    ensures PollEffect(s, in_, PollCaps(s, in_))
  {
    HandlersEffect(s, in_);
    SendingEffect(s, 0, in_);
    PollStatesEffect(s, in_);
    hide PollEffect, SendCaps, Taking, PollStates, Resync, Quiet, Input.Bit0, Input.Bit4, Input.Bit5, Input.Bit6,
         Input.CanSend;
  }

  lemma WriteSentEffect(s: State, in_: Input)
    requires Consistent(s) && s.write.Some? && !s.writeSent
    ensures PollEffect(s, in_, (s.(writeSent := true), Some(WriteState(s.write.value))))
  {
    hide Kept, Dropped, Answered;
  }

  lemma FreshEffect(s: State, in_: Input)
    requires Consistent(s)
    ensures PollEffect(s, in_, PollFresh(s, in_))
    ensures Answered(s, in_) ==> PollFresh(s, in_).0.write == None && !PollFresh(s, in_).0.writeSent
  {
    HandlersEffect(s, in_);
    SendingEffect(s, 0, in_);
    PollCapsEffect(s, in_);
    PollSnapshotEffect(s, in_);
    if s.writeSent && in_.Bit5() {
      AnswerEffect(s, in_);
    }
    if s.write.Some? && !s.writeSent {
      WriteSentEffect(s, in_);
    }
    hide PollEffect, SendCaps, SendStates, Taking, PollCaps, PollSnapshot, Quiet, Input.Bit5, Input.CanSend, Input.Received,
         DecodeHeader, IsIdle;
  }

  lemma PollWrites(s: State, in_: Input)
    requires Consistent(s)
    ensures PollEffect(s, in_, Poll(s, in_)) && Consistent(Poll(s, in_).0)
    ensures Answered(s, in_) ==> Poll(s, in_).0.write == None && !Poll(s, in_).0.writeSent
  {
    hide *;
    FreshEffect(s, in_);
    ResyncDrops(s, 0);
    QuietEffect(s, in_);
    PollIsFresh(s, in_);
    if Answered(s, in_) {
      AnsweredIsReady(s, in_);
    }
    EffectConsistent(s, in_, Poll(s, in_));
  }

  lemma QuietEffect(s: State, in_: Input)
    ensures PollEffect(s, in_, (s, None)) && PollEffect(s, in_, (Resync(s, 0), None))
  {
    KeptSelf(s);
    ResyncDrops(s, 0);
    hide Kept, Dropped, Resync, Answered;
  }

  /** Only a client that has asked for nothing looks at the mailbox first. */
  lemma PollIsFresh(s: State, in_: Input)
    ensures Poll(s, in_) == PollFresh(s, in_) || Poll(s, in_) == (s, None) || Poll(s, in_) == (Resync(s, 0), None)
    ensures s.capsSeen ==> Poll(s, in_) == PollFresh(s, in_)
  {
    RecoverIs(s, in_);
    hide PollFresh, Recover, Resync;
  }

  lemma AnsweredIsReady(s: State, in_: Input)
    requires Consistent(s) && Answered(s, in_)
    ensures s.capsSeen
  {
    hide Input.Bit5, Input.Received, DecodeHeader;
  }

  lemma EffectConsistent(s: State, in_: Input, step: Step)
    requires Consistent(s) && PollEffect(s, in_, step)
    ensures Consistent(step.0)
  {
    hide Input.Bit5, Input.Received, DecodeHeader;
  }

  lemma RecoverIs(s: State, in_: Input)
    ensures Recover(s, in_).0 == s || Recover(s, in_).0 == Resync(s, 0)
  {
    hide Resync, Input.Bit0, Input.Bit4, Input.Bit5, Input.Bit6, Input.Received;
  }

  /** A write is accepted if the client knows the states and has no other, and then it waits. */
  lemma AcceptedExactly(s: State, w: WriteRequest)
    ensures
      var t := Do(s, WriteRequested(w));
      if s.capsSeen && s.statesSeen && s.write.None? && !s.writeSent then t == s.(write := Some(w)) else t == s
  {
  }

  /** A write is over exactly if its answer is read or the client starts over. */
  lemma OverExactly(s: State, in_: Input)
    requires Consistent(s) && s.write.Some?
    ensures Poll(s, in_).0.write.None? <==> Answered(s, in_) || Poll(s, in_).0.resyncPending
  {
    PollWrites(s, in_);
    hide Poll, Answered;
  }

  /** A write that waits goes out with the next poll that may send, as it is. */
  lemma WaitingIsSent(s: State, in_: Input, w: WriteRequest)
    requires Consistent(s) && s.write == Some(w) && !s.writeSent
    requires IsIdle(s) && !s.refresh && !in_.Bit5() && in_.CanSend() && in_.writeOk
    ensures Poll(s, in_) == (s.(writeSent := true), Some(WriteState(w)))
  {
    PollIsFresh(s, in_);
    hide Poll, Taking, SendCaps, SendStates, PollCaps, PollSnapshot;
  }

  // Runs

  lemma AskedWrites(s: State, w: WriteRequest)
    requires Consistent(s)
    ensures
      var t, events := Do(s, WriteRequested(w)), EventsOf(s, WriteRequested(w));
      && Consistent(t)
      && ((events == [] && t.write == s.write && t.writeSent == s.writeSent) ||
          (s.write == None && events == [Accepted(w)] && t.write == Some(w) && !t.writeSent))
  {
    AcceptedExactly(s, w);
    hide Do;
    if s.capsSeen && s.statesSeen && s.write.None? && !s.writeSent {
      var t := s.(write := Some(w));
      assert t.write == Some(w) && t.writeSent == s.writeSent && t.capsSeen == s.capsSeen &&
             t.resyncPending == s.resyncPending;
    }
  }

  lemma RestKeeps(s: State)
    ensures Kept(s, RequestRefresh(s)) && Kept(s, TakeUpdate(s))
  {
    var pending := s.pending;
    KeptSelf(s);
    KeptRefresh(s);
    KeptPending(s, if pending == [] then [] else pending[1..]);
    hide Kept;
  }

  lemma KeptRefresh(s: State)
    ensures Kept(s, s.(refresh := true))
  {
  }

  lemma KeptPending(s: State, pending: seq<Update>)
    ensures Kept(s, s.(pending := pending))
  {
  }

  lemma OtherWrites(s: State, action: Action)
    requires Consistent(s) && (action.RefreshRequested? || action.UpdateTaken?)
    ensures
      var t := Do(s, action);
      Consistent(t) && EventsOf(s, action) == [] && t.write == s.write && t.writeSent == s.writeSent
  {
    RestKeeps(s);
    hide RequestRefresh, TakeUpdate;
  }

  lemma PollEvents(s: State, in_: Input)
    requires Consistent(s)
    ensures Consistent(Do(s, Polling(in_)))
    ensures
      var t := Do(s, Polling(in_));
      var events := EventsOf(s, Polling(in_));
      || (events == [] && t.write == s.write && t.writeSent == s.writeSent)
      || (s.write.Some? && !s.writeSent && events == [Sent(s.write.value)] && t.write == s.write && t.writeSent)
      || (s.write.Some? && events == [Over] && t.write == None && !t.writeSent)
  {
    PollWrites(s, in_);
    hide Poll, Answered;
    assert Do(s, Polling(in_)) == Poll(s, in_).0;
  }

  /** Over every run, whatever is asked for, answered and done in between: the writes accepted, sent and over come in
      order. Each write sent is the one accepted last, is sent once, and nothing else is accepted until it is over. */
  lemma {:induction false} WritesInOrder(s: State, actions: seq<Action>)
    requires Consistent(s)
    ensures InOrder(Events(s, actions), s.write, s.writeSent)
    decreases actions
  {
    hide Do, EventsOf, Consistent;
    if actions != [] {
      var action, t, rest := actions[0], Do(s, actions[0]), Events(Do(s, actions[0]), actions[1..]);
      match action {
        case Polling(in_) => PollEvents(s, in_);
        case WriteRequested(w) => AskedWrites(s, w);
        case _ => OtherWrites(s, action);
      }
      WritesInOrder(t, actions[1..]);
      FirstEvent(EventsOf(s, action), rest);
      NoSentWithout(s);
    }
  }

  lemma FirstEvent(events: seq<Event>, rest: seq<Event>)
    ensures |events| == 1 ==> (events + rest)[0] == events[0] && (events + rest)[1..] == rest
    ensures events == [] ==> events + rest == rest
  {
  }

  lemma NoSentWithout(s: State)
    requires Consistent(s)
    ensures s.write == None ==> !s.writeSent
  {
  }

  /** From the start, in particular. */
  lemma ClientWritesInOrder(actions: seq<Action>)
    ensures InOrder(Events(INITIAL, actions), None, false)
  {
    WritesInOrder(INITIAL, actions);
    hide Events;
  }
}
