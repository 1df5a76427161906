/** Runs that end badly, whatever the event: a replay pass that stalls, and an acknowledged event that the journal opens
  * again. */
module SystemRuns {
  import opened Bytes
  import opened Frames
  import opened JournalFile
  import opened JournalRecord
  import opened JournalIndex
  import opened IndexLaws
  import opened EventJournal
  import opened JournalDurability
  import opened KioskRuntime
  import opened KioskSystem
  import opened SystemSteps
  import opened SystemJournal
  import opened SystemLaws
  import opened ReplayPass
  import N = NetworkWorker
  import Q = SequenceReservation
  import ProtocolCodec
  import S = MockBackend

  /** Some steps lead from `a` to `b`. */
  ghost predicate Leads(e: Env, a: System, b: System) {
    exists steps, states :: Stretch(e, steps, states) && states[0] == a && states[|steps|] == b
  }

  lemma Stays(e: Env, a: System)
    ensures Leads(e, a, a)
  {
    assert Stretch(e, [], [a]);
  }

  lemma Goes(e: Env, a: System, b: System, step: Step)
    requires Leads(e, a, b) && Can(e, b, step)
    ensures Leads(e, a, Next(e, b, step))
  {
    hide Can;
    hide Next;
    var steps, states :| Stretch(e, steps, states) && states[0] == a && states[|steps|] == b;
    StretchGrows(e, steps, states, step);
  }

  lemma StretchGrows(e: Env, steps: seq<Step>, states: seq<System>, step: Step)
    requires Stretch(e, steps, states) && Can(e, states[|steps|], step)
    ensures Stretch(e, steps + [step], states + [Next(e, states[|steps|], step)])
  {
    hide Can;
    hide Next;
    var steps', states' := steps + [step], states + [Next(e, states[|steps|], step)];
    forall i | 0 <= i < |steps'|
      ensures Can(e, states'[i], steps'[i]) && states'[i + 1] == Next(e, states'[i], steps'[i])
    {
      if i < |steps| {
        assert states'[i] == states[i] && steps'[i] == steps[i] && states'[i + 1] == states[i + 1];
      }
    }
  }

  // --- The stretches runs are made of ---

  /** The record of an event that a device that has just been set up can make durable. */
  ghost predicate First(e: Env, r: Record) {
    && e.block >= 1 && (exists event :: Made(e, None, event, r) && event.eventType.SCAN?) && r.deviceSeq == 1
    && FrameSize(r) <= e.capacity && |Frame(EncodeEvent(r))| < U32_BOUND
  }

  lemma FirstComposed(e: Env, r: Record)
    requires First(e, r)
    ensures Composed(e, r)
  {
    var event :| Made(e, None, event, r) && event.eventType.SCAN?;
    MadeComposed(e, None, event, r);
    hide *;
  }

  function Request(kind: N.Kind, r: Record): (q: N.NetworkRequest) {
    N.NetworkRequest(kind, r.eventId, r.deviceSeq, r.payload)
  }

  function Result(q: N.NetworkRequest, outcome: N.HttpOutcome, reply: Reply): (res: N.NetworkResult<Reply>) {
    N.NetworkResult(q.kind, q.eventId, q.deviceSeq, outcome, 0, reply)
  }

  /** The event is durable and queued. */
  ghost predicate Sent1(e: Env, r: Record, s: System) {
    && s.kiosk == BOOTED.(index := AppendedEvent(EMPTY, r, FrameSize(r)),
                            worker := N.Worker([Request(N.BUSINESS_EVENT, r)], [], N.CHECK_HIGH, None))
    && s.created == map[r.eventId := r] && s.server == S.FRESH_SERVER && s.sent == {}
    && s.disk == Grown(map[], DAT, Frame(EncodeEvent(r))) && !s.active
  }

  lemma SendFirst(e: Env, r: Record) returns (s: System)
    requires First(e, r)
    ensures Leads(e, Start(e), s) && Sent1(e, r, s)
  {
    var a := Start(e);
    hide Made;
    hide Frame;
    hide EncodeEvent;
    var event :| Made(e, None, event, r) && event.eventType.SCAN?;
    StartReady(e);
    hide Ready;
    hide LogBytes;
    StartCounter(e);
    hide Q.Next;
    Stays(e, a);
    hide Leads;
    s := SendNext(e, a, a, event, r);
  }

  lemma StartCounter(e: Env)
    requires e.block >= 1
    ensures Q.Safe(Start(e).counter) && Start(e).counter.current == 0 && Q.Next(Start(e).counter, e.block).current == 1
  {
  }

  /** One more event is made durable and queued; the note that it is in flight is not written. */
  lemma SendNext(e: Env, a: System, s: System, event: ProtocolCodec.KioskEvent, r: Record) returns (s': System)
    requires Takes(s.kiosk, event.eventType)
    requires Leads(e, a, s) && Made(e, s.kiosk.projection, event, r) && r.deviceSeq == Q.Next(s.counter, e.block).current
    requires r.eventId !in s.created && r.eventId !in s.kiosk.index.records && s.kiosk.index.used + FrameSize(r) <= e.capacity
    requires Ready(s.disk) && |LogBytes(s.disk)| + |Frame(EncodeEvent(r))| < U32_BOUND
    requires |s.kiosk.worker.high| < N.HIGH_DEPTH
    ensures Leads(e, a, s')
    ensures s' == s.(kiosk := s.kiosk.(index := AppendedEvent(s.kiosk.index, r, FrameSize(r)),
                                       worker := s.kiosk.worker.(high := s.kiosk.worker.high + [Request(N.BUSINESS_EVENT, r)])),
                     disk := Grown(s.disk, DAT, Frame(EncodeEvent(r))), counter := Q.Next(s.counter, e.block),
                     created := s.created[r.eventId := r], window := s.window + {r.eventId})
  {
    var mid := Journal(s).(disk := Grown(s.disk, DAT, Frame(EncodeEvent(r))), index := AppendedEvent(s.kiosk.index, r, FrameSize(r)));
    var step := SEND(event, r, 0, true, false, mid, mid);
    NextCan(e, s, step, mid);
    s' := Next(e, s, step);
    assert s' == AfterSend(e, s, step);
    MadeComposed(e, s.kiosk.projection, event, r);
    WholeRequest(N.BUSINESS_EVENT, r);
    hide *;
    Goes(e, a, s, step);
    NextSent(e, s, step, s');
  }

  lemma ReadyLands(d: Disk, d': Disk, body: bytes)
    requires Ready(d) && |LogBytes(d)| + |Frame(body)| < U32_BOUND
    ensures Lands(d, d', body)
  {
    hide Frame;
    hide Hidden;
  }

  lemma NextCan(e: Env, s: System, step: Step, mid: JournalState)
    requires step.SEND? && step.durable && !step.written && step.mid == mid == step.end && Takes(s.kiosk, step.event.eventType)
    requires var r := step.record;
             && Made(e, s.kiosk.projection, step.event, r) && r.deviceSeq == Q.Next(s.counter, e.block).current
             && r.eventId !in s.created && r.eventId !in s.kiosk.index.records && s.kiosk.index.used + FrameSize(r) <= e.capacity
             && Ready(s.disk) && |LogBytes(s.disk)| + |Frame(EncodeEvent(r))| < U32_BOUND
             && mid == Journal(s).(disk := Grown(s.disk, DAT, Frame(EncodeEvent(r))), index := AppendedEvent(s.kiosk.index, r, FrameSize(r)))
    ensures CanSend(e, s, step) && Can(e, s, step)
  {
    hide Made;
    hide Frame;
    hide EncodeEvent;
    hide Ready;
    hide LogBytes;
    hide Lands;
    hide AppendedEvent;
    hide Q.Next;
    hide TransitionAppended;
    ReadyLands(s.disk, mid.disk, EncodeEvent(step.record));
    NothingWritten(mid, InFlight(step.record, step.uptimeMs));
  }

  lemma NextSent(e: Env, s: System, step: Step, s': System)
    requires step.SEND? && step.durable && !step.written && s' == AfterSend(e, s, step) && Ready(s.disk)
    requires var r := step.record;
             && step.end == Journal(s).(disk := Grown(s.disk, DAT, Frame(EncodeEvent(r))), index := AppendedEvent(s.kiosk.index, r, FrameSize(r)))
             && N.EventRequest(N.BUSINESS_EVENT, r.eventId, r.deviceSeq, r.payload) == Request(N.BUSINESS_EVENT, r)
    requires |s.kiosk.worker.high| < N.HIGH_DEPTH
    ensures var r := step.record;
            s' == s.(kiosk := s.kiosk.(index := AppendedEvent(s.kiosk.index, r, FrameSize(r)),
                                       worker := s.kiosk.worker.(high := s.kiosk.worker.high + [Request(N.BUSINESS_EVENT, r)])),
                     disk := Grown(s.disk, DAT, Frame(EncodeEvent(r))), counter := Q.Next(s.counter, e.block),
                     created := s.created[r.eventId := r], window := s.window + {r.eventId})
  {
    hide Frame;
    hide EncodeEvent;
    hide Ready;
    hide AppendedEvent;
    hide Q.Next;
    hide InFlight;
    hide N.EventRequest;
    SentWorker(s.kiosk, step.record, InFlight(step.record, step.uptimeMs), false);
    SentParts(s.kiosk, step.record, InFlight(step.record, step.uptimeMs), true, false);
    hide Sent;
  }

  lemma StartReady(e: Env)
    ensures Ready(map[]) && LogBytes(map[]) == []
  {
    assert Recovered([]) == [];
  }

  /** The network task takes the only request there is. */
  lemma TakeHigh(e: Env, a: System, s: System, q: N.NetworkRequest) returns (s': System)
    requires Leads(e, a, s) && s.kiosk.worker.high == [q] && s.kiosk.worker.phase == N.CHECK_HIGH
    ensures Leads(e, a, s') && s' == s.(kiosk := s.kiosk.(worker := s.kiosk.worker.(high := [], phase := N.RUNNING(q))))
  {
    hide Leads;
    s' := Next(e, s, TASK(N.RECEIVE_HIGH));
    Goes(e, a, s, TASK(N.RECEIVE_HIGH));
  }

  lemma TakeLow(e: Env, a: System, s: System, q: N.NetworkRequest) returns (s': System)
    requires Leads(e, a, s) && s.kiosk.worker.high == [] && s.kiosk.worker.low == [q] && s.kiosk.worker.phase == N.CHECK_HIGH
    ensures Leads(e, a, s') && s' == s.(kiosk := s.kiosk.(worker := s.kiosk.worker.(low := [], phase := N.RUNNING(q))))
  {
    hide Leads;
    var mid := Next(e, s, TASK(N.RECEIVE_HIGH));
    Goes(e, a, s, TASK(N.RECEIVE_HIGH));
    s' := Next(e, mid, TASK(N.RECEIVE_LOW));
    Goes(e, a, mid, TASK(N.RECEIVE_LOW));
  }

  lemma Finish(e: Env, a: System, s: System, outcome: N.HttpOutcome, reply: Reply) returns (s': System)
    requires Leads(e, a, s) && s.kiosk.worker.phase.RUNNING?
    requires outcome.ok ==> Genuine(e, s, s.kiosk.worker.phase.request, reply)
    ensures Leads(e, a, s')
    ensures s' == s.(kiosk := s.kiosk.(worker :=
                       s.kiosk.worker.(phase := N.DEPOSITING(Result(s.kiosk.worker.phase.request, outcome, reply)))))
  {
    hide Leads;
    hide Genuine;
    var step := COMPLETE(Result(s.kiosk.worker.phase.request, outcome, reply));
    s' := Next(e, s, step);
    Goes(e, a, s, step);
  }

  lemma Deposit(e: Env, a: System, s: System) returns (s': System)
    requires Leads(e, a, s) && s.kiosk.worker.phase.DEPOSITING?
    ensures Leads(e, a, s')
    ensures s' == s.(kiosk := s.kiosk.(worker := s.kiosk.worker.(slot := Some(s.kiosk.worker.phase.result), phase := N.CHECK_HIGH)))
  {
    hide Leads;
    s' := Next(e, s, TASK(N.DEPOSIT));
    Goes(e, a, s, TASK(N.DEPOSIT));
  }

  /** A pass over one unanswered event begins, and its item goes out. */
  lemma ReplayOne(e: Env, a: System, s: System, r: Record) returns (s': System)
    requires Leads(e, a, s) && Composed(e, r)
    requires s.kiosk.index.records.Keys == {r.eventId} && s.kiosk.index.records[r.eventId] == r
    requires !s.kiosk.replaying && s.kiosk.replayIds == [] && s.kiosk.replayNext == 0
    requires !s.kiosk.worker.phase.RUNNING? && s.kiosk.worker.high == [] && s.kiosk.worker.low == []
    ensures Leads(e, a, s')
    ensures s' == s.(kiosk := s.kiosk.(replaying := true, replayIds := [r.eventId],
                                       worker := s.kiosk.worker.(low := [Request(N.OFFLINE_REPLAY, r)])), pass := [0])
  {
    hide Leads;
    hide Encodable;
    WholeRequest(N.OFFLINE_REPLAY, r);
    var ids := [r.eventId];
    OneToReplay(s.kiosk.index.records, r);
    hide ReplayList;
    hide Composed;
    var mid := Next(e, s, REPLAY_START(ids));
    Goes(e, a, s, REPLAY_START(ids));
    assert mid == s.(kiosk := s.kiosk.(replayIds := ids), pass := []);
    assert N.EventRequest(N.OFFLINE_REPLAY, r.eventId, r.deviceSeq, r.payload) == Request(N.OFFLINE_REPLAY, r);
    hide N.EventRequest;
    hide ReplayStarted;
    s' := Next(e, mid, REPLAY_TICK(true));
    Goes(e, a, mid, REPLAY_TICK(true));
  }

  lemma OneToReplay(records: map<bytes, Record>, r: Record)
    requires records.Keys == {r.eventId} && records[r.eventId] == r && r.syncStatus == PENDING
    ensures ReplayList(records, [r.eventId])
  {
  }

  // --- The pass that stalls ---

  /** Without Wi-Fi every request comes back at once. A state fetch that completes between a replay's deposit and the
    * next poll leaves the pass waiting for ever: whatever the device's first event is, this run stalls on it. */
  lemma StalledRun(e: Env, r: Record) returns (s: System)
    requires First(e, r)
    ensures Leads(e, Start(e), s) && Stalled(s.kiosk)
    ensures s.kiosk.replayIds == [r.eventId] && s.kiosk.replayNext == 0
    ensures r.eventId in s.kiosk.index.records && Unanswered(s.kiosk.index.records[r.eventId])
  {
    hide *;
    s := SendFirst(e, r);
    FirstComposed(e, r);
    s := FailedSend(e, Start(e), s, r);
    s := StalledFrom(e, Start(e), s, r);
  }

  lemma StalledFrom(e: Env, a: System, s0: System, r: Record) returns (s: System)
    requires Leads(e, a, s0) && Composed(e, r) && s0.kiosk == BOOTED.(index := AppendedEvent(EMPTY, r, FrameSize(r)))
    ensures Leads(e, a, s) && Stalled(s.kiosk)
    ensures s.kiosk.replayIds == [r.eventId] && s.kiosk.replayNext == 0
    ensures r.eventId in s.kiosk.index.records && Unanswered(s.kiosk.index.records[r.eventId])
  {
    assert r.syncStatus == PENDING;
    hide Composed;
    hide Leads;
    hide FrameSize;
    hide Stalled;
    s := ReplayOne(e, a, s0, r);
    s := Overwritten(e, a, s, r);
  }

  lemma FailedSend(e: Env, a: System, s0: System, r: Record) returns (s: System)
    requires Leads(e, a, s0) && Sent1(e, r, s0)
    ensures Leads(e, a, s) && s == s0.(kiosk := s0.kiosk.(worker := IDLE_WORKER))
    ensures s.kiosk == BOOTED.(index := AppendedEvent(EMPTY, r, FrameSize(r)))
  {
    hide Leads;
    hide FrameSize;
    s := TakeHigh(e, a, s0, Request(N.BUSINESS_EVENT, r));
    s := Finish(e, a, s, N.HttpOutcome(false, true, N.WIFI_DOWN), Garbled);
    s := Deposit(e, a, s);
    s := PollFailure(e, a, s);
  }

  /** The replay's result in the slot, and over it that of a state fetch. */
  lemma Overwritten(e: Env, a: System, s0: System, r: Record) returns (s: System)
    requires Leads(e, a, s0) && s0.kiosk.replaying
    requires s0.kiosk.worker == N.Worker([], [Request(N.OFFLINE_REPLAY, r)], N.CHECK_HIGH, None)
    ensures Leads(e, a, s) && Stalled(s.kiosk)
    ensures s.kiosk == s0.kiosk.(worker := s.kiosk.worker)
  {
    var down := N.HttpOutcome(false, true, N.WIFI_DOWN);
    s := s0;
    hide Leads;
    s := TakeLow(e, a, s, Request(N.OFFLINE_REPLAY, r));
    s := Finish(e, a, s, down, Garbled);
    s := AskState(e, a, s);
    s := Deposit(e, a, s);
    s := TakeHigh(e, a, s, STATE_FETCH);
    s := Finish(e, a, s, down, Garbled);
    s := Deposit(e, a, s);
  }

  /** A failure worth repeating, polled and not noted. */
  lemma PollFailure(e: Env, a: System, s: System) returns (s': System)
    requires Leads(e, a, s) && s.kiosk.worker.slot.Some? && N.Retried(s.kiosk.worker.slot.value.kind) && !s.kiosk.replaying
    requires !s.kiosk.worker.slot.value.outcome.ok && s.kiosk.worker.slot.value.outcome.retryable
    ensures Leads(e, a, s') && s' == s.(kiosk := s.kiosk.(worker := s.kiosk.worker.(slot := None)))
  {
    hide Leads;
    hide EncodeTransition;
    hide Frame;
    hide CodeOf;
    hide RetriesOf;
    var step := POLL(NoteFor(s.kiosk.worker.slot.value, 0), false, Journal(s));
    s' := Next(e, s, step);
    Goes(e, a, s, step);
  }

  lemma AskState(e: Env, a: System, s: System) returns (s': System)
    requires Leads(e, a, s) && s.kiosk.worker.high == []
    ensures Leads(e, a, s') && s' == s.(kiosk := s.kiosk.(worker := s.kiosk.worker.(high := [STATE_FETCH])))
  {
    hide Leads;
    s' := Next(e, s, REQUEST(N.STATE_FETCH));
    Goes(e, a, s, REQUEST(N.STATE_FETCH));
  }

  // --- The acknowledgement that is lost ---

  /** A server that has never seen this event accepts it. */
  ghost predicate Acceptable(e: Env, r: Record, seqText: bytes, now: bytes) {
    S.Handle(e.fixtures, S.FRESH_SERVER, e.parse(r.payload), seqText, now).1.Accepted?
  }

  function Answer(e: Env, r: Record, seqText: bytes, now: bytes): (response: S.Response) {
    S.Handle(e.fixtures, S.FRESH_SERVER, e.parse(r.payload), seqText, now).1
  }

  const SUCCESS := N.HttpOutcome(true, false, N.NO_ERROR)

  function Accepting(e: Env, r: Record, seqText: bytes, now: bytes): (res: N.NetworkResult<Reply>) {
    Result(Request(N.BUSINESS_EVENT, r), SUCCESS, EventReply(Answer(e, r, seqText, now)))
  }

  function Failing(r: Record, outcome: N.HttpOutcome): (res: N.NetworkResult<Reply>) {
    Result(Request(N.OFFLINE_REPLAY, r), outcome, Garbled)
  }

  function NoteOf(res: N.NetworkResult<Reply>): (t: Transition) {
    NoteFor(res, 0)
  }

  /** The flash has room for the event and for both notes. */
  ghost predicate Roomy(e: Env, r: Record, seqText: bytes, now: bytes, outcome: N.HttpOutcome) {
    |Frame(EncodeEvent(r))| + |Frame(EncodeTransition(NoteOf(Accepting(e, r, seqText, now))))|
    + |Frame(EncodeTransition(NoteOf(Failing(r, outcome))))| < U32_BOUND
  }

  /** The event has been sent, the server has accepted it, and the answer is on its way to the slot. */
  ghost predicate Accepted1(e: Env, r: Record, seqText: bytes, now: bytes, s: System) {
    && s.kiosk == BOOTED.(index := AppendedEvent(EMPTY, r, FrameSize(r)),
                            worker := N.Worker([], [], N.DEPOSITING(Accepting(e, r, seqText, now)), None))
    && s.disk == Grown(map[], DAT, Frame(EncodeEvent(r)))
    && KeyOf(e, r.eventId) in S.AcceptedEvents(s.server, e.deviceId)
  }

  lemma AcceptFirst(e: Env, r: Record, seqText: bytes, now: bytes) returns (s: System)
    requires First(e, r) && Acceptable(e, r, seqText, now)
    ensures Leads(e, Start(e), s) && Accepted1(e, r, seqText, now, s)
  {
    var a := Start(e);
    s := SendFirst(e, r);
    FirstComposed(e, r);
    assert e.parse(r.payload).deviceId == e.deviceId && e.parse(r.payload).eventId == r.eventId;
    hide Composed;
    hide Leads;
    hide First;
    s := TakeHigh(e, a, s, Request(N.BUSINESS_EVENT, r));
    s := Attempted(e, a, s);
    s := ServedFirst(e, a, s, r, seqText, now);
    hide Acceptable;
    hide Answer;
    s := Finish(e, a, s, SUCCESS, EventReply(Answer(e, r, seqText, now)));
  }

  lemma Attempted(e: Env, a: System, s: System) returns (s': System)
    requires Leads(e, a, s) && s.kiosk.worker.phase.RUNNING? && N.Retried(s.kiosk.worker.phase.request.kind)
    ensures Leads(e, a, s') && s' == s.(sent := s.sent + {s.kiosk.worker.phase.request.body})
  {
    hide Leads;
    s' := Next(e, s, ATTEMPT);
    Goes(e, a, s, ATTEMPT);
  }

  lemma ServedFirst(e: Env, a: System, s: System, r: Record, seqText: bytes, now: bytes) returns (s': System)
    requires Leads(e, a, s) && s.server == S.FRESH_SERVER && r.payload in s.sent && Acceptable(e, r, seqText, now)
    requires e.parse(r.payload).deviceId == e.deviceId && e.parse(r.payload).eventId == r.eventId
    ensures Leads(e, a, s') && s' == s.(server := s'.server, history := s'.history, ops := s'.ops)
    ensures var key := KeyOf(e, r.eventId);
            && key in S.AcceptedEvents(s'.server, e.deviceId)
            && s'.server.cache[key] == S.Entry(e.parse(r.payload), Answer(e, r, seqText, now))
  {
    hide Leads;
    var step := SERVE(r.payload, seqText, now);
    s' := Next(e, s, step);
    Goes(e, a, s, step);
    hide S.ApplyEvent;
    hide S.Recorded;
  }

  /** An event's result polled and noted. */
  lemma PollNoted(e: Env, a: System, s: System, res: N.NetworkResult<Reply>) returns (s': System)
    requires Leads(e, a, s) && s.kiosk.worker.slot == Some(res) && N.Retried(res.kind) && res.eventId in s.kiosk.index.records
    requires Ready(s.disk) && |LogBytes(s.disk)| + |Frame(EncodeTransition(NoteOf(res)))| < U32_BOUND
    requires StatusAfter(res) == PENDING || StatusAfter(res) == HUMAN_REVIEW || (StatusAfter(res) == ACKED && s.kiosk.projection.None?)
    ensures Leads(e, a, s')
    ensures s' == s.(kiosk := CursorMoved(s.kiosk).(worker := s.kiosk.worker.(slot := None), projection := s'.kiosk.projection,
                                                    index := AppendedTransition(s.kiosk.index, NoteOf(res),
                                                                                |Frame(EncodeTransition(NoteOf(res)))|)),
                     disk := Grown(s.disk, DAT, Frame(EncodeTransition(NoteOf(res)))),
                     answered := s.answered + (if Final(res) then {res.eventId} else {}))
    ensures StatusAfter(res) != ACKED ==> s'.kiosk.projection == s.kiosk.projection
  {
    var t := NoteOf(res);
    var end := NotedJournal(Journal(s), t);
    var step := POLL(t, true, end);
    CanNote(s, res, t, end);
    PolledNote(s.kiosk, res, t);
    PollOnly(e, s, step);
    hide *;
    s' := Next(e, s, step);
    Goes(e, a, s, step);
    NotedSame(s, s', Polled(s.kiosk, t, true), t, end);
    NotedAt(s, s', res, t, end);
  }

  lemma PollOnly(e: Env, s: System, step: Step)
    requires step.POLL? && CanPoll(s, step.t, step.written, step.end)
    ensures Can(e, s, step)
    ensures var s' := Next(e, s, step);
            s' == WithJournal(s.(kiosk := Polled(s.kiosk, step.t, step.written)), step.end).(answered := s.answered + SettledBy(s))
  {
    hide CanPoll;
    hide Polled;
  }

  lemma NotedAt(s: System, s': System, res: N.NetworkResult<Reply>, t: Transition, end: JournalState)
    requires end == NotedJournal(Journal(s), t) && s.kiosk.worker.slot == Some(res) && N.Retried(res.kind)
    requires var k' := s'.kiosk;
             k' == CursorMoved(s.kiosk).(worker := s.kiosk.worker.(slot := None), projection := k'.projection,
                                         index := AppendedTransition(s.kiosk.index, t, |Frame(EncodeTransition(t))|))
    requires s' == WithJournal(s.(kiosk := s'.kiosk), end).(answered := s.answered + SettledBy(s))
    ensures s' == s.(kiosk := s'.kiosk, disk := Grown(s.disk, DAT, Frame(EncodeTransition(t))),
                     answered := s.answered + (if Final(res) then {res.eventId} else {}))
  {
    hide Frame;
    hide EncodeTransition;
    hide AppendedTransition;
    hide Final;
  }

  lemma NotedSame(s: System, s': System, k: Kiosk, t: Transition, end: JournalState)
    requires end == NotedJournal(Journal(s), t) && s' == WithJournal(s.(kiosk := k), end).(answered := s'.answered)
    requires k.index == AppendedTransition(s.kiosk.index, t, |Frame(EncodeTransition(t))|)
    ensures s'.kiosk == k && s' == WithJournal(s.(kiosk := s'.kiosk), end).(answered := s'.answered)
  {
    hide Frame;
    hide EncodeTransition;
    hide AppendedTransition;
  }

  /** The journal after a transition that was written. */
  function NotedJournal(j: JournalState, t: Transition): (end: JournalState) {
    j.(disk := Grown(j.disk, DAT, Frame(EncodeTransition(t))), index := AppendedTransition(j.index, t, |Frame(EncodeTransition(t))|))
  }

  lemma CanNote(s: System, res: N.NetworkResult<Reply>, t: Transition, end: JournalState)
    requires s.kiosk.worker.slot == Some(res) && N.Retried(res.kind) && res.eventId in s.kiosk.index.records && t == NoteOf(res)
    requires Ready(s.disk) && |LogBytes(s.disk)| + |Frame(EncodeTransition(t))| < U32_BOUND
    requires end == NotedJournal(Journal(s), t)
    ensures CanPoll(s, t, true, end)
  {
    EmptyClean();
    ReadyLands(s.disk, end.disk, EncodeTransition(t));
    hide Lands;
    hide Frame;
    hide EncodeTransition;
    hide Ready;
    hide LogBytes;
    hide AppendedTransition;
    hide StatusAfter;
  }

  lemma PolledNote(k: Kiosk, res: N.NetworkResult<Reply>, t: Transition)
    requires k.worker.slot == Some(res) && N.Retried(res.kind) && res.eventId in k.index.records && t == NoteOf(res)
    requires StatusAfter(res) == PENDING || StatusAfter(res) == HUMAN_REVIEW || (StatusAfter(res) == ACKED && k.projection.None?)
    ensures var k' := Polled(k, t, true);
            k' == CursorMoved(k).(worker := k.worker.(slot := None), projection := k'.projection,
                                  index := AppendedTransition(k.index, t, |Frame(EncodeTransition(t))|))
            && (StatusAfter(res) != ACKED ==> k'.projection == k.projection)
  {
    NoteSize(t);
    hide TransitionSize;
    hide Frame;
    hide EncodeTransition;
    hide AppendedTransition;
  }

  lemma NoteSize(t: Transition)
    ensures TransitionSize(t) == |Frame(EncodeTransition(t))|
  {
    hide EncodeTransition;
  }

  /** ACKED is not the last word. The server accepts the event and the device notes it; but a replay of the same event
    * is under way, and its failure, for whatever reason, takes the status back to PENDING or to review. */
  lemma AckedIsReopened(e: Env, r: Record, seqText: bytes, now: bytes, outcome: N.HttpOutcome) returns (acked: System, s: System)
    requires First(e, r) && Acceptable(e, r, seqText, now) && Roomy(e, r, seqText, now, outcome) && !outcome.ok
    ensures Leads(e, Start(e), acked) && Leads(e, acked, s)
    ensures r.eventId in acked.kiosk.index.records && acked.kiosk.index.records[r.eventId].syncStatus == ACKED
    ensures r.eventId in s.kiosk.index.records
    ensures s.kiosk.index.records[r.eventId].syncStatus == if outcome.retryable then PENDING else HUMAN_REVIEW
    ensures KeyOf(e, r.eventId) in S.AcceptedEvents(s.server, e.deviceId)
  {
    acked := Acknowledged(e, r, seqText, now, outcome);
    Stays(e, acked);
    hide Leads;
    hide First;
    hide Acceptable;
    hide Roomy;
    hide Accepting;
    s := TakeLow(e, acked, acked, Request(N.OFFLINE_REPLAY, r));
    s := Finish(e, acked, s, outcome, Garbled);
    s := Deposit(e, acked, s);
    s := PollNoted(e, acked, s, Failing(r, outcome));
  }

  lemma Acknowledged(e: Env, r: Record, seqText: bytes, now: bytes, outcome: N.HttpOutcome) returns (s: System)
    requires First(e, r) && Acceptable(e, r, seqText, now) && Roomy(e, r, seqText, now, outcome)
    ensures Leads(e, Start(e), s) && s.kiosk.worker == N.Worker([], [Request(N.OFFLINE_REPLAY, r)], N.CHECK_HIGH, None)
    ensures s.kiosk.index.records.Keys == {r.eventId} && s.kiosk.index.records[r.eventId].syncStatus == ACKED
    ensures Ready(s.disk) && |LogBytes(s.disk)| + |Frame(EncodeTransition(NoteOf(Failing(r, outcome))))| < U32_BOUND
    ensures KeyOf(e, r.eventId) in S.AcceptedEvents(s.server, e.deviceId)
  {
    var a := Start(e);
    s := AcceptFirst(e, r, seqText, now);
    var res := Accepting(e, r, seqText, now);
    FlashGrows(e, r, seqText, now, outcome);
    FirstComposed(e, r);
    hide Composed;
    assert StatusAfter(res) == ACKED && res.eventId == r.eventId && N.Retried(res.kind);
    assert s.kiosk == BOOTED.(index := AppendedEvent(EMPTY, r, FrameSize(r)), worker := N.Worker([], [], N.DEPOSITING(res), None));
    hide First;
    hide Acceptable;
    hide Roomy;
    hide Accepting;
    hide Accepted1;
    s := AcknowledgedNote(e, a, s, r, res);
    hide *;
    hide Leads;
  }

  lemma AcknowledgedNote(e: Env, a: System, s0: System, r: Record, res: N.NetworkResult<Reply>) returns (s: System)
    requires Leads(e, a, s0) && Composed(e, r) && StatusAfter(res) == ACKED && res.eventId == r.eventId && N.Retried(res.kind)
    requires s0.kiosk == BOOTED.(index := AppendedEvent(EMPTY, r, FrameSize(r)), worker := N.Worker([], [], N.DEPOSITING(res), None))
    requires Ready(s0.disk) && |LogBytes(s0.disk)| + |Frame(EncodeTransition(NoteOf(res)))| < U32_BOUND
    ensures Leads(e, a, s) && s.kiosk.worker == N.Worker([], [Request(N.OFFLINE_REPLAY, r)], N.CHECK_HIGH, None)
    ensures s.kiosk.index.records.Keys == {r.eventId} && s.kiosk.index.records[r.eventId].syncStatus == ACKED
    ensures s.disk == Grown(s0.disk, DAT, Frame(EncodeTransition(NoteOf(res)))) && s.server == s0.server
  {
    hide Leads;
    hide Composed;
    hide Frame;
    hide FrameSize;
    hide EncodeTransition;
    hide Ready;
    hide LogBytes;
    hide StatusAfter;
    s := ReplayOne(e, a, s0, r);
    s := Deposit(e, a, s);
    s := PollNoted(e, a, s, res);
  }

  lemma FlashGrows(e: Env, r: Record, seqText: bytes, now: bytes, outcome: N.HttpOutcome)
    requires Roomy(e, r, seqText, now, outcome)
    ensures var d := Grown(map[], DAT, Frame(EncodeEvent(r)));
            var note := EncodeTransition(NoteOf(Accepting(e, r, seqText, now)));
            var d' := Grown(d, DAT, Frame(note));
            && Ready(d) && |LogBytes(d)| + |Frame(note)| < U32_BOUND && Ready(d')
            && |LogBytes(d')| + |Frame(EncodeTransition(NoteOf(Failing(r, outcome))))| < U32_BOUND
  {
    StartReady(e);
    var note := EncodeTransition(NoteOf(Accepting(e, r, seqText, now)));
    var d := Grown(map[], DAT, Frame(EncodeEvent(r)));
    hide EncodeEvent;
    hide EncodeTransition;
    hide Frame;
    hide Ready;
    hide LogBytes;
    hide Accepting;
    hide Failing;
    BootGrown(map[], EncodeEvent(r));
    BootGrown(d, note);
    hide Boot;
  }
}
