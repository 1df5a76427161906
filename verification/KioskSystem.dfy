/** Device, flash, network task, network and server together, as interleaved steps: any request ever sent may reach
  * the server at any later time and any number of times, any answer may be lost or late, the log is compacted a few
  * records at a time while events keep coming, and the power may go between any two steps. */
module KioskSystem {
  import opened Bytes
  import opened Frames
  import opened JournalFile
  import Json
  import opened JournalRecord
  import opened JournalIndex
  import opened IndexLaws
  import opened EventJournal
  import opened JournalDurability
  import opened CompactionWindow
  import opened KioskRuntime
  import P = StateProjection
  import N = NetworkWorker
  import S = MockBackend
  import Q = SequenceReservation
  import B = BusinessEvent
  import R = BodyReader
  import ProtocolCodec

  /** What a run takes place in. `parse` is the server's reading of a request body, `block` the size of a reservation
    * of sequence numbers. */
  datatype Env = Env(fixtures: S.Fixtures, deviceId: bytes, capacity: nat, block: nat, parse: bytes -> S.Request)

  /** `sent` and `fetched` are what is on the network. From `created` on the fields are the run's memory; no step reads
    * them but the theorems do: every event made durable, the events settled, those made durable since the open
    * compaction began, those made durable behind a torn tail that is still in the log, those lost, the state the
    * compaction began in and the records as it wrote them, the server's snapshots by version, what the server handled,
    * and the positions the current replay pass has sent. */
  datatype System = System(
    kiosk: Kiosk, disk: Disk, active: bool, keep: seq<bytes>, next: nat, counter: Q.Counter,
    server: S.Server, sent: set<bytes>, fetched: set<P.Snapshot>,
    created: map<bytes, Record>, answered: set<bytes>, window: set<bytes>, buried: set<bytes>, lost: set<bytes>,
    start: JournalState, image: Image, history: map<nat, P.Snapshot>, ops: seq<S.ServerOp>, pass: seq<nat>)

  datatype Step =
    | SEND(event: ProtocolCodec.KioskEvent, record: Record, uptimeMs: u32, durable: bool, written: bool, mid: JournalState,
           end: JournalState)
    | REQUEST(kind: N.Kind)
    | TASK(step: N.Step<Reply>)
    | ATTEMPT
    | SERVE(body: bytes, seqText: bytes, now: bytes)
    | FETCH
    | ADMINISTER(op: S.ServerOp)
    | COMPLETE(result: N.NetworkResult<Reply>)
    | POLL(t: Transition, written: bool, end: JournalState)
    | BOOTSTRAP(allowed: bool)
    | REPLAY_START(ids: seq<bytes>)
    | REPLAY_TICK(allowed: bool)
    | BEGIN(policy: CompactionPolicy, started: bool, end: JournalState)
    | TICK(outcome: TickOutcome, end: JournalState)
    | REBOOT(cuts: seq<LogFiles>, persisted: bool, disk: Disk)

  const IDLE_WORKER: N.Worker<Reply> := N.Worker([], [], N.CHECK_HIGH, None)
  const BOOTED := Kiosk(EMPTY, None, false, [], 0, false, None, IDLE_WORKER)
  const NO_JOURNAL := JournalState(map[], EMPTY, false, [], 0)

  function Start(e: Env): (s: System) {
    var server := S.FRESH_SERVER;
    var first := S.SnapshotOf(S.DeviceOf(server, e.deviceId));
    System(BOOTED, map[], false, [], 0, Q.BootAt(0, e.block), server, {}, {}, map[], {}, {}, {}, {}, NO_JOURNAL, map[],
           map[first.version := first], [], [])
  }

  /** The journal object of the device and the flash under it. */
  function Journal(s: System): (j: JournalState) {
    JournalState(s.disk, s.kiosk.index, s.active, s.keep, s.next)
  }

  function WithJournal(s: System, j: JournalState): (s': System) {
    s.(kiosk := s.kiosk.(index := j.index), disk := j.disk, active := j.active, keep := j.keep, next := j.next)
  }

  /** The server reads this body as its handler does. */
  ghost predicate ReadByHandler(e: Env, body: bytes) {
    e.parse(body) == R.RequestOf(body)
  }

  /** A scan is always taken; a key or a timeout only while a state is shown that the server vouches for. */
  predicate Takes(k: Kiosk, event: ProtocolCodec.EventType) {
    event.SCAN? || (k.projection.Some? && !k.resyncing)
  }

  /** A record made of an event of this device as send_business_event makes it. What is left to ask is that the event keeps
    * within the device's limits. */
  ghost predicate Made(e: Env, projection: Option<P.Snapshot>, event: ProtocolCodec.KioskEvent, r: Record) {
    && r == B.RecordOf(event) && B.Bounded(event) && event.expectedStateVersion == B.Claimed(projection)
    && event.deviceId == e.deviceId != [] && ReadByHandler(e, r.payload)
  }

  /** So it is pending, survives its encoding, goes into a queue slot whole, and is read by the server as what it is. */
  ghost predicate Composed(e: Env, r: Record) {
    && r.syncStatus == PENDING && Encodable(r)
    && |r.eventId| < N.MAX_EVENT_ID_BYTES && |r.payload| < N.MAX_BODY_BYTES
    && e.parse(r.payload).deviceId == e.deviceId && e.parse(r.payload).eventId == r.eventId
  }

  lemma MadeComposed(e: Env, projection: Option<P.Snapshot>, event: ProtocolCodec.KioskEvent, r: Record)
    requires Made(e, projection, event, r)
    ensures Composed(e, r)
    ensures e.parse(r.payload) == B.RequestMeant(event)
  {
    assert ReadByHandler(e, r.payload);
    B.RecordIsSound(event);
    B.RecordIsRead(event);
    hide R.RequestOf;
    hide Encodable;
    hide B.RecordOf;
  }

  function KeyOf(e: Env, id: bytes): (key: (bytes, bytes)) {
    (e.deviceId, id)
  }

  /** A 2xx answer comes from the server: for an event, what the server answered to that very body. */
  ghost predicate Genuine(e: Env, s: System, q: N.NetworkRequest, reply: Reply) {
    match reply
    case Garbled => true
    case StateReply(snapshot) => !N.Retried(q.kind) && snapshot in s.fetched
    case EventReply(response) =>
      var key := (e.parse(q.body).deviceId, e.parse(q.body).eventId);
      && N.Retried(q.kind) && q.body in s.sent && key in s.server.cache
      && s.server.cache[key].request == e.parse(q.body) && response == s.server.cache[key].response
  }

  /** What is asked of an append that writes: the log is in place, not set aside by a swap that stranded, and behind a
    * torn tail the bytes do not happen to complete that tail to a frame. It may fail at any byte. */
  ghost predicate Lands(d: Disk, d': Disk, body: bytes) {
    d' == d || (InPlace(d) && |LogBytes(d)| + |Frame(body)| < U32_BOUND && (Ready(d) || Hidden(d, d')))
  }

  function InFlight(r: Record, uptimeMs: u32): (t: Transition) {
    Transition(r.eventId, IN_FLIGHT, 0, uptimeMs, [])
  }

  ghost predicate EventAppended(e: Env, j: JournalState, r: Record, ok: bool, j': JournalState) {
    AppendEventStep(e.capacity, j, r, ok, j') && Lands(j.disk, j'.disk, EncodeEvent(r))
  }

  ghost predicate TransitionAppended(j: JournalState, t: Transition, ok: bool, j': JournalState) {
    AppendTransitionStep(j, t, ok, j') && Lands(j.disk, j'.disk, EncodeTransition(t))
  }

  ghost predicate CanSend(e: Env, s: System, step: Step)
    requires step.SEND?
  {
    var r := step.record;
    && Takes(s.kiosk, step.event.eventType) && Made(e, s.kiosk.projection, step.event, r)
    && r.eventId !in s.created && r.deviceSeq == Q.Next(s.counter, e.block).current
    && EventAppended(e, Journal(s), r, step.durable, step.mid)
    && if step.durable && N.Room(s.kiosk.worker, N.BUSINESS_EVENT)
       then TransitionAppended(step.mid, InFlight(r, step.uptimeMs), step.written, step.end)
       else !step.written && step.end == step.mid
  }

  ghost predicate CanPoll(s: System, t: Transition, written: bool, end: JournalState) {
    if s.kiosk.worker.slot.Some? && N.Retried(s.kiosk.worker.slot.value.kind) then
      && TransitionFor(s.kiosk.worker.slot.value, t)
      && TransitionAppended(Journal(s), t, written, end)
    else !written && end == Journal(s)
  }

  ghost predicate Can(e: Env, s: System, step: Step) {
    match step
    case SEND(_, _, _, _, _, _, _) => CanSend(e, s, step)
    case REQUEST(kind) => !N.Retried(kind)
    case TASK(task) => (task.RECEIVE_HIGH? || task.RECEIVE_LOW? || task.DEPOSIT?) && N.Enabled(s.kiosk.worker, task)
    case ATTEMPT => s.kiosk.worker.phase.RUNNING? && N.Retried(s.kiosk.worker.phase.request.kind)
    case SERVE(body, _, _) => body in s.sent
    case FETCH => true
    case ADMINISTER(op) => !op.POST?
    case COMPLETE(res) =>
      && N.Enabled(s.kiosk.worker, N.COMPLETE(res))
      && (res.outcome.ok ==> Genuine(e, s, s.kiosk.worker.phase.request, res.response))
    case POLL(t, written, end) => CanPoll(s, t, written, end)
    case BOOTSTRAP(_) => true
    case REPLAY_START(ids) => ReplayList(s.kiosk.index.records, ids)
    case REPLAY_TICK(_) => true
    case BEGIN(policy, started, end) => BeginStep(Journal(s), policy, started, end)
    case TICK(outcome, end) =>
      && (s.active ==> s.next <= |s.keep| && |TickLog(Journal(s))| < U32_BOUND)
      && TickStep(Journal(s), outcome, end)
    case REBOOT(cuts, _, disk) =>
      RecoveryRun(cuts) && cuts[0] == View(s.disk) && View(disk) == Restored(cuts[|cuts| - 1])
  }

  /** The server handles one operation. */
  ghost function Served(e: Env, s: System, op: S.ServerOp): (s': System) {
    var server := S.Do(e.fixtures, s.server, op);
    s.(server := server, history := S.Recorded(s.history, server, e.deviceId), ops := s.ops + [op])
  }

  function SettledBy(s: System): (ids: set<bytes>) {
    match s.kiosk.worker.slot
    case Some(res) => if N.Retried(res.kind) && Final(res) then {res.eventId} else {}
    case None => {}
  }

  ghost function AfterSend(e: Env, s: System, step: Step): (s': System)
    requires step.SEND?
  {
    var r := step.record;
    var kiosk := Sent(s.kiosk, r, InFlight(r, step.uptimeMs), step.durable, step.written);
    WithJournal(s.(kiosk := kiosk), step.end).(
      counter := Q.Next(s.counter, e.block),
      created := if step.durable then s.created[r.eventId := r] else s.created,
      window := if step.durable then s.window + {r.eventId} else s.window,
      buried := if step.durable && !Ready(s.disk) then s.buried + {r.eventId} else s.buried)
  }

  ghost function AfterReboot(e: Env, s: System, cuts: seq<LogFiles>, persisted: bool, disk: Disk): (s': System)
    requires cuts != []
  {
    s.(kiosk := BOOTED.(index := Boot(cuts[|cuts| - 1])), disk := disk, active := false, keep := [], next := 0,
       counter := Q.Happen(s.counter, if persisted then Q.CUT_AFTER_PERSIST else Q.REBOOT, e.block), pass := [],
       buried := {}, lost := s.lost + s.buried)
  }

  ghost function Next(e: Env, s: System, step: Step): (s': System)
    requires Can(e, s, step)
  {
    match step
    case SEND(_, _, _, _, _, _, _) => AfterSend(e, s, step)
    case REQUEST(kind) => s.(kiosk := Enqueued(s.kiosk, N.NetworkRequest(kind, [], 0, [])))
    case TASK(task) => s.(kiosk := s.kiosk.(worker := N.After(s.kiosk.worker, task)))
    case ATTEMPT => s.(sent := s.sent + {s.kiosk.worker.phase.request.body})
    case SERVE(body, seqText, now) => Served(e, s, S.POST(e.parse(body), seqText, now))
    case FETCH => s.(fetched := s.fetched + {S.SnapshotOf(S.DeviceOf(s.server, e.deviceId))})
    case ADMINISTER(op) => Served(e, s, op)
    case COMPLETE(res) => s.(kiosk := s.kiosk.(worker := N.After(s.kiosk.worker, N.COMPLETE(res))))
    case POLL(t, written, end) =>
      WithJournal(s.(kiosk := Polled(s.kiosk, t, written)), end).(answered := s.answered + SettledBy(s))
    case BOOTSTRAP(allowed) => s.(kiosk := BootstrapTaken(s.kiosk, allowed))
    case REPLAY_START(ids) =>
      var kiosk := ReplayStarted(s.kiosk, ids);
      s.(kiosk := kiosk, pass := if kiosk == s.kiosk then s.pass else [])
    case REPLAY_TICK(allowed) =>
      var kiosk := ReplayTicked(s.kiosk, allowed);
      s.(kiosk := kiosk, pass := if kiosk.replaying && !s.kiosk.replaying then s.pass + [s.kiosk.replayNext] else s.pass)
    case BEGIN(_, started, end) =>
      var s' := WithJournal(s, end);
      if started then s'.(start := end, image := map[], window := {}) else s'
    case TICK(outcome, end) =>
      WithJournal(s, end).(
        image := if outcome == MORE then AfterChunk(s.image, s.kiosk.index.records, Chunk(Journal(s))) else s.image,
        buried := if outcome == SWAPPED then {} else s.buried,
        lost := if outcome == SWAPPED then s.lost + s.window else s.lost)
    case REBOOT(cuts, persisted, disk) => AfterReboot(e, s, cuts, persisted, disk)
  }

  // --- What every step keeps ---

  /** A queued event request carries the body its event was journaled with. */
  ghost predicate Carried(s: System, q: N.NetworkRequest) {
    N.Retried(q.kind) ==> q.eventId in s.created && q.body == s.created[q.eventId].payload
  }

  ghost predicate Bodies(e: Env, s: System) {
    && (forall id | id in s.created :: s.created[id].eventId == id && Composed(e, s.created[id]))
    && (forall q | q in s.kiosk.worker.high :: Carried(s, q))
    && (forall q | q in s.kiosk.worker.low :: Carried(s, q))
    && (s.kiosk.worker.phase.RUNNING? ==> Carried(s, s.kiosk.worker.phase.request))
    && (forall b | b in s.sent :: exists id | id in s.created :: s.created[id].payload == b)
  }

  /** The server knows each event under one body: the one it was journaled with. */
  ghost predicate CacheMatches(e: Env, s: System) {
    forall id | KeyOf(e, id) in s.server.cache ::
      && id in s.created && s.server.cache[KeyOf(e, id)].request == e.parse(s.created[id].payload)
      && !s.server.cache[KeyOf(e, id)].response.KeyReuseMismatch?
  }

  /** A result on its way to the main loop says what the server said. */
  ghost predicate Truthful(e: Env, s: System, res: N.NetworkResult<Reply>) {
    && (N.Retried(res.kind) ==> res.eventId in s.created)
    && (res.outcome.ok && res.response.EventReply? ==>
          && N.Retried(res.kind) && KeyOf(e, res.eventId) in s.server.cache
          && res.response.response == s.server.cache[KeyOf(e, res.eventId)].response)
    && (res.outcome.ok && res.response.StateReply? ==> res.response.snapshot in s.fetched)
  }

  ghost predicate Results(e: Env, s: System) {
    && (s.kiosk.worker.phase.DEPOSITING? ==> Truthful(e, s, s.kiosk.worker.phase.result))
    && (s.kiosk.worker.slot.Some? ==> Truthful(e, s, s.kiosk.worker.slot.value))
    && (s.kiosk.bootstrap.Some? ==> Truthful(e, s, s.kiosk.bootstrap.value))
  }

  /** The server gave the answer this status stands for. */
  ghost predicate Justified(e: Env, s: System, id: bytes, status: SyncStatus) {
    match status
    case ACKED => KeyOf(e, id) in s.server.cache && s.server.cache[KeyOf(e, id)].response.Accepted?
    case REJECTED => KeyOf(e, id) in s.server.cache && s.server.cache[KeyOf(e, id)].response.Rejected?
    case CONFLICT => KeyOf(e, id) in s.server.cache && s.server.cache[KeyOf(e, id)].response.Conflict?
    case _ => true
  }

  /** A record of event `id`: what the event was created with, under a status the server justifies, and waiting as
    * long as the event has no final answer. */
  ghost predicate GoodRecord(e: Env, s: System, id: bytes, r: Record) {
    && id in s.created && id !in s.lost && r.eventId == id && Encodable(r)
    && r.payload == s.created[id].payload && r.deviceSeq == s.created[id].deviceSeq
    && Justified(e, s, id, r.syncStatus)
    && (id !in s.answered ==> Unanswered(r))
  }

  ghost predicate Good(e: Env, s: System, records: map<bytes, Record>) {
    forall id | id in records :: GoodRecord(e, s, id, records[id])
  }

  /** An event that must not be missing: durable, without a final answer, and not lost. */
  ghost predicate Awaited(s: System, id: bytes) {
    id in s.created && id !in s.answered && id !in s.lost
  }

  ghost predicate Open(s: System, records: map<bytes, Record>) {
    forall id | Awaited(s, id) :: id in records
  }

  /** The same on flash: there the buried ones are missing. */
  ghost predicate OpenOnFlash(s: System, records: map<bytes, Record>) {
    && (forall id | Awaited(s, id) && id !in s.buried :: id in records)
    && s.buried !! records.Keys
  }

  /** The journal in memory and the one a boot would read off the flash. */
  ghost predicate Durable(e: Env, s: System) {
    && Good(e, s, s.kiosk.index.records) && Open(s, s.kiosk.index.records)
    && Good(e, s, Boot(View(s.disk)).records) && OpenOnFlash(s, Boot(View(s.disk)).records)
  }

  /** An open compaction: what it has written is good, and what it will not keep came after it began. */
  ghost predicate Window(e: Env, s: System) {
    && s.window <= s.created.Keys && s.buried <= s.created.Keys && s.lost <= s.created.Keys
    && (s.active ==>
      && InWindow(s.start, s.image, Journal(s)) && Good(e, s, s.image)
      && s.window !! s.start.index.records.Keys
      && forall id | Awaited(s, id) :: id in s.keep || id in s.window)
  }

  /** Every snapshot outside the server is one the server has shown. */
  ghost predicate Past(s: System, snapshot: P.Snapshot) {
    snapshot.version in s.history && s.history[snapshot.version] == snapshot
  }

  ghost predicate Snapshots(e: Env, s: System) {
    && S.Chronicle(s.server, e.deviceId, s.history)
    && (forall snapshot | snapshot in s.fetched :: Past(s, snapshot))
    && (s.kiosk.projection.Some? ==> Past(s, s.kiosk.projection.value))
  }

  ghost predicate ServerRun(e: Env, s: System) {
    s.server == S.RunServer(e.fixtures, S.FRESH_SERVER, s.ops)
  }

  /** The replay queue and its cursor. */
  ghost predicate Replay(s: System) {
    && s.kiosk.replayNext <= |s.kiosk.replayIds|
    && (s.kiosk.replaying ==> s.kiosk.replayNext < |s.kiosk.replayIds|)
    && (forall id <- s.kiosk.replayIds :: id in s.created)
    && (forall i, j | 0 <= i < j < |s.kiosk.replayIds| ::
          s.created[s.kiosk.replayIds[i]].deviceSeq < s.created[s.kiosk.replayIds[j]].deviceSeq)
    && (forall i, j | 0 <= i < j < |s.pass| :: s.pass[i] < s.pass[j])
    && (forall n <- s.pass :: n < |s.kiosk.replayIds| && n < s.kiosk.replayNext + (if s.kiosk.replaying then 1 else 0))
  }

  /** The sequence numbers given out so far, one per event. */
  ghost predicate Numbered(e: Env, s: System) {
    && e.block >= 1 && Q.Safe(s.counter)
    && (forall id | id in s.created :: s.created[id].deviceSeq <= s.counter.current)
    && forall a, b | a in s.created && b in s.created && a != b :: s.created[a].deviceSeq != s.created[b].deviceSeq
  }

  ghost predicate Inv(e: Env, s: System) {
    && Bodies(e, s) && CacheMatches(e, s) && Results(e, s) && Durable(e, s) && Window(e, s) && Snapshots(e, s)
    && ServerRun(e, s) && Replay(s) && Numbered(e, s)
  }

  /** A run: `states[0]` is the start, each next state one step on. */
  ghost predicate Run(e: Env, steps: seq<Step>, states: seq<System>) {
    && |states| == |steps| + 1 && states[0] == Start(e)
    && forall i | 0 <= i < |steps| :: Can(e, states[i], steps[i]) && states[i + 1] == Next(e, states[i], steps[i])
  }
}
