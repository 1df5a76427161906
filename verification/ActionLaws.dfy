/** From the operator's action to what the server does about it, and what the device lets the operator do meanwhile. */
module ActionLaws {
  import opened Bytes
  import opened Frames
  import opened JournalRecord
  import opened JournalIndex
  import opened EventJournal
  import opened CompactionWindow
  import opened JournalProgress
  import opened KioskRuntime
  import opened KioskSystem
  import opened SystemFrames
  import opened SystemJournal
  import opened SystemLaws
  import B = BusinessEvent
  import N = NetworkWorker
  import P = StateProjection
  import S = MockBackend

  // --- What the server does ---

  lemma CreatedStays(e: Env, s: System, step: Step)
    requires Can(e, s, step)
    ensures var s' := Next(e, s, step); forall id | id in s.created :: id in s'.created && s'.created[id] == s.created[id]
  {
    hide S.Do;
    hide S.Recorded;
    hide S.DeviceOf;
    hide N.After;
    hide Sent;
    hide Polled;
    hide Made;
    hide EventAppended;
    hide TransitionAppended;
    hide Genuine;
    hide BeginStep;
    hide TickStep;
    hide ReplayTicked;
    hide ReplayStarted;
  }

  lemma {:induction false} CreatedFrom(e: Env, steps: seq<Step>, states: seq<System>, m: nat, n: nat, id: bytes)
    requires Run(e, steps, states) && m <= n <= |steps| && id in states[m].created
    ensures id in states[n].created && states[n].created[id] == states[m].created[id]
    decreases n
  {
    hide Can;
    hide Next;
    if m < n {
      assert Can(e, states[n - 1], steps[n - 1]) && states[n] == Next(e, states[n - 1], steps[n - 1]);
      CreatedFrom(e, steps, states, m, n - 1, id);
      CreatedStays(e, states[n - 1], steps[n - 1]);
    }
  }

  lemma SentIsCreated(e: Env, s: System, step: Step)
    requires Can(e, s, step) && step.SEND? && step.durable
    ensures var s', id := Next(e, s, step), step.record.eventId;
            && id in s'.created && s'.created[id] == step.record && id == step.event.eventId
            && e.parse(step.record.payload) == B.RequestMeant(step.event)
  {
    assert CanSend(e, s, step);
    MadeComposed(e, s.kiosk.projection, step.event, step.record);
    hide EventAppended;
    hide TransitionAppended;
    hide B.RequestMeant;
    hide Composed;
    hide Sent;
  }

  /** Whenever the server has answered an event that was made durable, over every run, what it acted on is what the operator
    * did, on the version of the state that was then shown. */
  lemma ServerActsAsMeant(e: Env, steps: seq<Step>, states: seq<System>, i: nat)
    requires e.block >= 1 && Run(e, steps, states) && i < |steps| && steps[i].SEND? && steps[i].durable
    ensures var cache, event := states[|steps|].server.cache, steps[i].event;
            KeyOf(e, event.eventId) in cache ==> cache[KeyOf(e, event.eventId)].request == B.RequestMeant(event)
    ensures steps[i].event.expectedStateVersion ==
            match states[i].kiosk.projection case None => 0 case Some(shown) => shown.version
  {
    assert Can(e, states[i], steps[i]) && states[i + 1] == Next(e, states[i], steps[i]);
    ClaimedThen(e, states[i], steps[i]);
    SentIsCreated(e, states[i], steps[i]);
    CreatedFrom(e, steps, states, i + 1, |steps|, steps[i].event.eventId);
    RunKeeps(e, steps, states);
    InvParts(e, states[|steps|]);
    hide Run;
    hide Inv;
    hide Can;
    hide Next;
    hide B.RequestMeant;
  }

  lemma ClaimedThen(e: Env, s: System, step: Step)
    requires Can(e, s, step) && step.SEND?
    ensures step.event.expectedStateVersion == match s.kiosk.projection case None => 0 case Some(shown) => shown.version
  {
    assert CanSend(e, s, step);
    hide EventAppended;
    hide TransitionAppended;
    hide ReadByHandler;
    hide B.RecordOf;
  }

  // --- Resynchronisation ---

  /** A snapshot that a device showing `current` takes over, or shows already. */
  predicate Welcome(current: Option<P.Snapshot>, snapshot: P.Snapshot) {
    && !snapshot.state.UNSUPPORTED?
    && (current.None? || snapshot.version > current.value.version || snapshot == current.value)
  }

  /** A snapshot that shows the device to be out of step. */
  predicate Unwelcome(current: Option<P.Snapshot>, snapshot: P.Snapshot) {
    && !snapshot.state.UNSUPPORTED? && current.Some? && snapshot != current.value
    && snapshot.version <= current.value.version
  }

  /** The device goes on resynchronising, and takes no key, until a poll brings the answer to a state fetch with a snapshot
    * that is newer than what it shows or the very same; only that, or a reboot, ends it. */
  lemma ResyncEndsExactly(e: Env, s: System, step: Step)
    requires Can(e, s, step) && s.kiosk.resyncing && !step.REBOOT?
    ensures var slot := s.kiosk.worker.slot;
            !Next(e, s, step).kiosk.resyncing <==>
              && step.POLL? && slot.Some? && slot.value.kind == N.STATE_FETCH && slot.value.outcome.ok
              && slot.value.response.StateReply? && Welcome(s.kiosk.projection, slot.value.response.snapshot)
    ensures step.SEND? ==> step.event.eventType.SCAN?
  {
    if step.POLL? {
      PolledResync(s.kiosk, step.t, step.written);
      hide Polled;
      hide CanPoll;
    } else if step.SEND? {
      assert Takes(s.kiosk, step.event.eventType);
      SentParts(s.kiosk, step.record, InFlight(step.record, step.uptimeMs), step.durable, step.written);
      hide CanSend;
      hide Sent;
    } else {
      FlagStays(e, s, step);
      hide Next;
      hide Can;
    }
  }

  /** It begins when a poll brings the answer to an event that is a conflict, or carries a snapshot that is older than what
    * the device shows or contradicts it; and then the state is asked for if the queue has room. */
  lemma ResyncBeginsExactly(e: Env, s: System, step: Step)
    requires Can(e, s, step) && !s.kiosk.resyncing && !step.REBOOT?
    ensures var slot, k' := s.kiosk.worker.slot, Next(e, s, step).kiosk;
            && (k'.resyncing <==>
                  && step.POLL? && slot.Some? && (slot.value.kind == N.BUSINESS_EVENT || slot.value.kind == N.OFFLINE_REPLAY)
                  && slot.value.outcome.ok && slot.value.response.EventReply? && OutOfStep(s.kiosk, slot.value.response.response))
            && (k'.resyncing && |s.kiosk.worker.high| < 3 ==> k'.worker.high == s.kiosk.worker.high + [STATE_FETCH])
  {
    if step.POLL? {
      PolledResync(s.kiosk, step.t, step.written);
      hide Polled;
      hide CanPoll;
    } else if step.SEND? {
      SentParts(s.kiosk, step.record, InFlight(step.record, step.uptimeMs), step.durable, step.written);
      hide CanSend;
      hide Sent;
    } else {
      FlagStays(e, s, step);
      hide Next;
      hide Can;
    }
  }

  predicate OutOfStep(k: Kiosk, response: S.Response) {
    match response
    case Conflict(_, _, _) => true
    case Accepted(_, snapshot, _) => Unwelcome(k.projection, snapshot)
    case Rejected(_, _, snapshot, _) => Unwelcome(k.projection, snapshot)
    case KeyReuseMismatch(_) => false
  }

  lemma FlagStays(e: Env, s: System, step: Step)
    requires Can(e, s, step) && !step.POLL? && !step.SEND? && !step.REBOOT?
    ensures Next(e, s, step).kiosk.resyncing == s.kiosk.resyncing
  {
    hide S.Do;
    hide S.Recorded;
    hide N.After;
    hide Genuine;
    hide Made;
    hide BeginStep;
    hide TickStep;
  }

  /** An answer that begins a resynchronisation. */
  predicate Begins(k: Kiosk, res: N.NetworkResult<Reply>) {
    res.outcome.ok && res.response.EventReply? && OutOfStep(k, res.response.response)
  }

  /** An answer that ends one. */
  predicate Ends(k: Kiosk, res: N.NetworkResult<Reply>) {
    res.outcome.ok && res.response.StateReply? && Welcome(k.projection, res.response.snapshot)
  }

  lemma AnswerResync(k: Kiosk, res: N.NetworkResult<Reply>)
    ensures var k' := Answered(k, res);
            && k'.resyncing == (k.resyncing || Begins(k, res))
            && (Begins(k, res) && |k.worker.high| < 3 ==> k'.worker.high == k.worker.high + [STATE_FETCH])
  {
  }

  lemma FetchResync(k: Kiosk, res: N.NetworkResult<Reply>)
    ensures Resynced(k, res).resyncing == (k.resyncing && !Ends(k, res))
  {
  }

  lemma NotedParts(k: Kiosk, t: Transition, written: bool)
    ensures var k' := Noted(CursorMoved(k), t, written);
            k'.resyncing == k.resyncing && k'.projection == k.projection && k'.worker == k.worker
  {
    hide AppendedTransition;
    hide TransitionSize;
  }

  lemma PolledResync(k: Kiosk, t: Transition, written: bool)
    ensures var slot, k' := k.worker.slot, Polled(k, t, written);
            var begins := slot.Some? && (slot.value.kind == N.BUSINESS_EVENT || slot.value.kind == N.OFFLINE_REPLAY)
                          && Begins(k, slot.value);
            var ends := slot.Some? && slot.value.kind == N.STATE_FETCH && Ends(k, slot.value);
            && k'.resyncing == ((k.resyncing && !ends) || begins)
            && (begins && |k.worker.high| < 3 ==> k'.worker.high == k.worker.high + [STATE_FETCH])
  {
    var k1 := k.(worker := N.After(k.worker, N.POLL));
    assert k1.projection == k.projection && k1.resyncing == k.resyncing && k1.worker.high == k.worker.high;
    if k.worker.slot.Some? {
      var res := k.worker.slot.value;
      var k2 := Noted(CursorMoved(k1), t, written);
      NotedParts(k1, t, written);
      AnswerResync(k2, res);
      FetchResync(k1, res);
      assert Begins(k2, res) == Begins(k, res) && Ends(k1, res) == Ends(k, res);
    }
    hide Noted;
    hide CursorMoved;
    hide Answered;
    hide Resynced;
    hide Begins;
    hide Ends;
  }

  // --- Notes and replay ---

  /** What a poll writes down of an event's result: where the event stands, how often it was repeated, when, and why. Nothing
    * else about it changes, and no other event does. */
  lemma PollNotes(e: Env, s: System, step: Step)
    requires Can(e, s, step) && step.POLL? && step.written && s.kiosk.worker.slot.Some?
    requires s.kiosk.worker.slot.value.kind == N.BUSINESS_EVENT || s.kiosk.worker.slot.value.kind == N.OFFLINE_REPLAY
    ensures var res, records, records' := s.kiosk.worker.slot.value, s.kiosk.index.records, Next(e, s, step).kiosk.index.records;
            && res.eventId in records && records'.Keys == records.Keys
            && (forall id | id in records && id != res.eventId :: records'[id] == records[id])
            && var r, r' := records[res.eventId], records'[res.eventId];
               && r'.syncStatus == StatusAfter(res) && r'.lastAttemptUptimeMs == step.t.lastAttemptUptimeMs
               && (res.outcome.ok || res.attempts == 0 ==> r'.retryCount == 0)
               && (!res.outcome.ok && 0 < res.attempts < U32_BOUND ==> r'.retryCount == res.attempts - 1)
               && r'.lastErrorCode == CodeOf(res)
               && r'.version == r.version && r'.eventId == r.eventId && r'.deviceSeq == r.deviceSeq && r'.bootId == r.bootId
               && r'.eventType == r.eventType && r'.payload == r.payload && r'.payloadHash == r.payloadHash
               && r'.expectedStateVersion == r.expectedStateVersion && r'.createdUptimeMs == r.createdUptimeMs
               && r'.timeSyncStatus == r.timeSyncStatus
  {
    NoteTaken(e, s, step);
    var res := s.kiosk.worker.slot.value;
    MergedNote(s.kiosk.index.records[res.eventId], res, step.t.lastAttemptUptimeMs);
    hide *;
  }

  lemma NoteTaken(e: Env, s: System, step: Step)
    requires Can(e, s, step) && step.POLL? && step.written && s.kiosk.worker.slot.Some?
    requires s.kiosk.worker.slot.value.kind == N.BUSINESS_EVENT || s.kiosk.worker.slot.value.kind == N.OFFLINE_REPLAY
    ensures var res, records := s.kiosk.worker.slot.value, s.kiosk.index.records;
            && res.eventId in records
            && Next(e, s, step).kiosk.index.records ==
               records[res.eventId := Merged(records[res.eventId], NoteFor(res, step.t.lastAttemptUptimeMs))]
  {
    assert CanPoll(s, step.t, true, step.end) && Next(e, s, step).kiosk.index == step.end.index;
    var res := s.kiosk.worker.slot.value;
    assert step.t == NoteFor(res, step.t.lastAttemptUptimeMs) && TransitionAppended(Journal(s), step.t, true, step.end);
    assert AppendTransitionStep(Journal(s), step.t, true, step.end) && step.t.eventId == res.eventId;
    hide *;
    TransitionRecorded(Journal(s), step.t, step.end);
    JournalRecords(s);
  }

  lemma JournalRecords(s: System)
    ensures Journal(s).index == s.kiosk.index
  {
  }

  lemma TransitionRecorded(j: JournalState, t: Transition, end: JournalState)
    requires AppendTransitionStep(j, t, true, end)
    ensures t.eventId in j.index.records && end.index.records == j.index.records[t.eventId := Merged(j.index.records[t.eventId], t)]
  {
    hide Frame;
    hide EncodeTransition;
    hide Merged;
  }

  lemma MergedNote(r: Record, res: N.NetworkResult<Reply>, uptimeMs: u32)
    ensures var r' := Merged(r, NoteFor(res, uptimeMs));
            && r'.syncStatus == StatusAfter(res) && r'.lastAttemptUptimeMs == uptimeMs && r'.lastErrorCode == CodeOf(res)
            && (res.outcome.ok || res.attempts == 0 ==> r'.retryCount == 0)
            && (!res.outcome.ok && 0 < res.attempts < U32_BOUND ==> r'.retryCount == res.attempts - 1)
            && r'.version == r.version && r'.eventId == r.eventId && r'.deviceSeq == r.deviceSeq && r'.bootId == r.bootId
            && r'.eventType == r.eventType && r'.payload == r.payload && r'.payloadHash == r.payloadHash
            && r'.expectedStateVersion == r.expectedStateVersion && r'.createdUptimeMs == r.createdUptimeMs
            && r'.timeSyncStatus == r.timeSyncStatus
  {
    hide CodeOf;
    hide StatusAfter;
  }

  /** The item a replay tick is to deal with. */
  predicate Due(k: Kiosk, allowed: bool) {
    allowed && k.replayNext < |k.replayIds| && !k.replaying && k.worker.high == [] && !k.worker.phase.RUNNING?
  }

  /** Within a pass the cursor moves on by one exactly when an event's result is polled while an item is out, or when the item
    * that is due has gone from the journal. */
  lemma CursorMovesExactly(e: Env, s: System, step: Step)
    requires Can(e, s, step) && !step.REBOOT? && !step.REPLAY_START?
    ensures var k, k' := s.kiosk, Next(e, s, step).kiosk;
            var slot := k.worker.slot;
            && k'.replayIds == k.replayIds
            && k'.replayNext == k.replayNext +
                 (if || (step.POLL? && k.replaying && slot.Some?
                         && (slot.value.kind == N.BUSINESS_EVENT || slot.value.kind == N.OFFLINE_REPLAY))
                     || (step.REPLAY_TICK? && Due(k, step.allowed) && k.replayIds[k.replayNext] !in k.index.records)
                  then 1 else 0)
  {
    if step.POLL? {
      PolledCursor(s.kiosk, step.t, step.written);
      hide Polled;
      hide CanPoll;
    } else if step.SEND? {
      SentParts(s.kiosk, step.record, InFlight(step.record, step.uptimeMs), step.durable, step.written);
      hide CanSend;
      hide Sent;
    } else {
      OthersLeaveCursor(e, s, step);
      hide Next;
      hide Can;
    }
  }

  lemma PolledCursor(k: Kiosk, t: Transition, written: bool)
    ensures var k', slot := Polled(k, t, written), k.worker.slot;
            && k'.replayIds == k.replayIds
            && k'.replayNext == k.replayNext +
                 (if k.replaying && slot.Some? && (slot.value.kind == N.BUSINESS_EVENT || slot.value.kind == N.OFFLINE_REPLAY)
                  then 1 else 0)
  {
    hide AppendedTransition;
    hide TransitionSize;
    var k1 := k.(worker := N.After(k.worker, N.POLL));
    if k.worker.slot.Some? {
      AnswerLeavesCursor(Noted(CursorMoved(k1), t, written), k.worker.slot.value);
    }
    hide Answered;
    hide N.After;
  }

  lemma OthersLeaveCursor(e: Env, s: System, step: Step)
    requires Can(e, s, step) && !step.REBOOT? && !step.REPLAY_START? && !step.POLL? && !step.SEND?
    ensures var k, k' := s.kiosk, Next(e, s, step).kiosk;
            && k'.replayIds == k.replayIds
            && k'.replayNext == k.replayNext +
                 (if step.REPLAY_TICK? && Due(k, step.allowed) && k.replayIds[k.replayNext] !in k.index.records then 1 else 0)
  {
    hide Can;
    hide N.After;
    if step.REPLAY_TICK? {
      TickMovesCursor(s.kiosk, step.allowed);
      hide ReplayTicked;
      hide Due;
    } else {
      hide S.Do;
      hide S.Recorded;
    }
  }

  lemma TickMovesCursor(k: Kiosk, allowed: bool)
    ensures var k' := ReplayTicked(k, allowed);
            && k'.replayIds == k.replayIds
            && k'.replayNext == k.replayNext + (if Due(k, allowed) && k.replayIds[k.replayNext] !in k.index.records then 1 else 0)
  {
    hide N.After;
    hide ReplayRequest;
  }

  /** A replay goes out exactly when an item is due, still in the journal, and the queue of replays has room: never ahead of
    * live traffic, never a second one at a time, and always with the body it was journaled with. */
  lemma ReplayGoesOutExactly(e: Env, s: System, allowed: bool)
    ensures var k, k' := s.kiosk, Next(e, s, REPLAY_TICK(allowed)).kiosk;
            var goes := Due(k, allowed) && k.replayIds[k.replayNext] in k.index.records && |k.worker.low| < 2;
            && (k'.worker != k.worker <==> goes) && (!k.replaying && k'.replaying <==> goes)
            && (goes ==>
                  var r := k.index.records[k.replayIds[k.replayNext]];
                  k'.worker == k.worker.(low := k.worker.low + [N.EventRequest(N.OFFLINE_REPLAY, r.eventId, r.deviceSeq, r.payload)]))
  {
    assert forall id: bytes, seqNo, body: bytes :: N.EventRequest(N.OFFLINE_REPLAY, id, seqNo, body).kind == N.OFFLINE_REPLAY;
    hide N.EventRequest;
  }

  // --- Compaction ---

  /** In every reachable state a tick of a healthy flash gets the open compaction on, and its last one swaps unless an old log
    * stands in the way. */
  lemma CompactionGoesOn(e: Env, s: System, outcome: TickOutcome)
    requires Inv(e, s) && s.active && s.keep != [] && s.next <= |s.keep|
    requires |TickLog(Journal(s))| < U32_BOUND && TickDone(Journal(s), outcome)
    ensures outcome ==
            if s.next + RECORDS_PER_TICK < |s.keep| then MORE else if SwapClear(s.disk) then SWAPPED else SWAP_FAILED
  {
    InvParts(e, s);
    WindowOpen(e, s);
    hide *;
    TickGoesOn(s.start, s.image, Journal(s), outcome);
    JournalFields(s);
  }

  lemma WindowOpen(e: Env, s: System)
    requires Window(e, s) && s.active
    ensures InWindow(s.start, s.image, Journal(s))
  {
    hide InWindow;
    hide Good;
  }

  lemma JournalFields(s: System)
    ensures Journal(s).keep == s.keep && Journal(s).next == s.next && Journal(s).disk == s.disk
  {
  }
}
