/** The numbers of the plcLink client: what fits into a chunk, how long it waits, how many updates it keeps, and what
    becomes of a refresh. */
module LinkLimits {
  import opened Bytes
  import opened PlcLink
  import opened LinkState
  import opened LinkPoll
  import opened LinkUpdates

  /** The client asks for as much as a payload holds behind its prefix. */
  lemma RoomsAreFull(maxPayload: u16)
    ensures DefsRoom(maxPayload) == if maxPayload < 20 then 0 else maxPayload - 20
    ensures
      var n := StatesRoom(maxPayload);
      if maxPayload < 12 then n == 0 else 12 + 16 * n <= maxPayload < 12 + 16 * (n + 1)
  {
  }

  // Pending updates

  function Queued(pending: seq<Update>, updates: seq<Update>): (r: seq<Update>)
    decreases updates
  {
    if updates == [] then pending else Enqueue(Queued(pending, updates[..|updates| - 1]), updates[|updates| - 1])
  }

  /** Of all updates, the last 512 are kept. */
  lemma {:induction false} LastAreKept(updates: seq<Update>)
    ensures Queued([], updates) == if |updates| <= 512 then updates else updates[|updates| - 512..]
  {
    if updates != [] {
      var n := |updates| - 1;
      LastAreKept(updates[..n]);
      assert updates == updates[..n] + [updates[n]];
    }
  }

  // Waiting

  /** A client that waits for capabilities and hears nothing gives up exactly after 250 ticks, unless it cannot reset a
      mailbox that is not free. */
  lemma GivenUpExactly(s: State, in_: Input)
    requires s.capsSent && !s.capsSeen && !s.resyncPending && !in_.Bit5()
    ensures Poll(s, in_).0.resyncPending <==>
            250 <= (in_.tick - s.capsTick) % 0x1_0000_0000 &&
            (in_.controlOk || (!in_.Bit0() && !in_.Bit4() && !in_.Bit6()))
  {
    hide Blank;
  }

  /** A mailbox that is not free when the client starts is drained, or else reset, and the client starts over; if that
      fails, nothing changes. */
  lemma RecoversExactly(s: State, in_: Input)
    requires !s.resyncPending && !s.capsSent && !s.capsSeen && (in_.Bit0() || in_.Bit4() || in_.Bit6())
    ensures
      var free := if in_.Bit5() then in_.readOk && |in_.response| <= 256 && in_.clearOk else in_.controlOk;
      Poll(s, in_) == (if free then Resync(s, 0) else s, None)
  {
    hide Resync, PollFresh;
  }

  // Capabilities

  /** Capabilities keep the definitions exactly if they were to be kept, are complete, and are of this generation. */
  lemma CapsKeepExactly(s: State, payload: seq<byte>)
    requires DecodeHeader(payload).Some? && DecodeHeader(payload).value.messageType == 0x02 && 34 <= |payload|
    ensures
      var t := OnCaps(s, payload);
      var kept := s.preserveDefs && s.defsSeen && Fetch32(payload, 26) == s.generation;
      && t.capsSeen && !t.capsSent && t.defsSeen == kept
      && t.defs == (if kept then s.defs else []) && t.nextDefs == (if kept then s.nextDefs else 0)
      && t.maxPayload == Fetch16(payload, 22) && t.points == Fetch16(payload, 24)
      && t.generation == Fetch32(payload, 26) && t.sequence == (if s.runtimeView then Fetch32(payload, 30) else 0)
  {
    hide Fetch16, Fetch32, Blank, DecodeHeader;
  }

  // Snapshots

  /** A finished snapshot counts no more points than there are, and than there are states. */
  lemma FinishedCounts(s: State, c: StatesChunk)
    requires !c.more && forall i | 0 <= i < |c.records| :: c.records[i].Sized()
    ensures
      var t := TakeStates(s, c);
      && t.statesSeen && t.published.Some?
      && var shown := t.published.value;
         && shown.sequence == c.sequence && shown.points == s.points && shown.maxPayload == s.maxPayload
         && shown.loaded <= s.points && shown.loaded <= |t.states|
         && (shown.loaded == s.points || shown.loaded == |t.states|)
  {
    hide Placed, Grown, Cached.Sized;
  }

  // Refreshing

  /** A refresh asked for is served, as soon as the mailbox is free, by asking for the states from the first one on. */
  lemma RefreshAsks(s: State, in_: Input)
    requires s.refresh && s.capsSeen && s.statesSeen && !s.statesSent && !s.resyncPending
    requires in_.CanSend() && !(in_.Bit5() && (s.writeSent || IsIdle(s)))
    ensures
      var step := Poll(s, in_);
      && !step.0.refresh && !step.0.statesSeen && step.0.nextStates == 0
      && (in_.writeOk && 28 <= s.maxPayload ==> step.1 == Some(GetStates(0, StatesRoom(s.maxPayload))))
  {
    hide Blank;
  }

  // Updates

  /** An update, field by field. */
  lemma UpdateFieldByField(s: seq<byte>)
    requires UpdateIn(s).Some?
    ensures 26 <= |s| && Fetch16(s, 0) == 0x4C50 && s[2] == 1 && s[3] == 0x23 && 8 <= Fetch16(s, 8)
    ensures Fetch32(s, 18) == UpdateIn(s).value.sequence && Fetch16(s, 22) == |UpdateIn(s).value.records|
  {
    hide Fetch32, Fetch16, Records;
  }

  /** A chunk of definitions, and one of states, are those that say so. */
  lemma ChunksFieldByField(s: seq<byte>)
    requires DecodeHeader(s).Some?
    ensures ReadDefs(s, DecodeHeader(s).value).Some? <==>
            38 <= |s| && s[3] == 0x11 && 20 + Fetch16(s, 34) <= Fetch16(s, 8) && 38 + Fetch16(s, 34) <= |s|
    ensures ReadStates(s, DecodeHeader(s).value).Some? ==>
              30 <= |s| && s[3] == 0x21 && 12 <= Fetch16(s, 8) &&
              |ReadStates(s, DecodeHeader(s).value).value.records| == Fetch16(s, 26)
  {
    hide Fetch32, Fetch16, Records;
  }

  /** A record takes 16 bytes, and 64 more if it is of a string. */
  lemma RecordSizes(c: Cached)
    requires c.Sized()
    ensures |c.record| == 16 && |c.text| == 64
    ensures RecordBytes(c) == if c.record[2] == 7 then c.record + c.text else c.record
  {
  }
}
