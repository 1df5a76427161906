/** The device's event loop: an event is journaled, then queued; results are turned into journal transitions and
  * projection updates; the unanswered backlog is replayed one item at a time. */
module KioskRuntime {
  import opened Bytes
  import opened Frames
  import opened JournalFile
  import Json
  import opened JournalRecord
  import opened JournalIndex
  import opened P = StateProjection
  import EventJournal
  import MockBackend
  import N = NetworkWorker

  /** The parsed body of a 2xx answer. */
  datatype Reply = EventReply(response: MockBackend.Response) | StateReply(snapshot: Snapshot) | Garbled

  datatype Kiosk = Kiosk(
    index: IndexState, projection: Option<Snapshot>, replaying: bool, replayIds: seq<bytes>, replayNext: nat,
    resyncing: bool, bootstrap: Option<N.NetworkResult<Reply>>, worker: N.Worker<Reply>)

  function Enqueued(k: Kiosk, r: N.NetworkRequest): (k': Kiosk) {
    k.(worker := N.After(k.worker, N.ENQUEUE(r)))
  }

  function TransitionSize(t: Transition): (n: nat) {
    |EncodeTransition(t)| + FRAME_OVERHEAD
  }

  /** A transition that was written, or one the journal did not take. */
  function Noted(k: Kiosk, t: Transition, written: bool): (k': Kiosk) {
    if written && t.eventId in k.index.records then k.(index := AppendedTransition(k.index, t, TransitionSize(t))) else k
  }

  /** send_business_event, from the finished record on. */
  function Sent(k: Kiosk, r: Record, t: Transition, durable: bool, written: bool): (k': Kiosk) {
    if !durable then k
    else
      var k1 := k.(index := AppendedEvent(k.index, r, FrameSize(r)));
      var k2 := Enqueued(k1, N.EventRequest(N.BUSINESS_EVENT, r.eventId, r.deviceSeq, r.payload));
      if N.Room(k.worker, N.BUSINESS_EVENT) then Noted(k2, t, written) else k2
  }

  const STATE_FETCH := N.NetworkRequest(N.STATE_FETCH, [], 0, [])

  /** start_resync. */
  function Resync(k: Kiosk): (k': Kiosk) {
    Enqueued(k.(resyncing := true), STATE_FETCH)
  }

  /** start_offline_replay_if_needed: `ids` is the backlog in creation order. */
  function ReplayStarted(k: Kiosk, ids: seq<bytes>): (k': Kiosk) {
    if k.replaying || k.replayNext < |k.replayIds| || ids == [] then k else k.(replayIds := ids, replayNext := 0)
  }

  /** high_priority_busy. */
  function Busy(w: N.Worker<Reply>): (b: bool) {
    w.phase.RUNNING? || w.high != []
  }

  function ReplayRequest(r: Record): (q: N.NetworkRequest) {
    N.EventRequest(N.OFFLINE_REPLAY, r.eventId, r.deviceSeq, r.payload)
  }

  /** The item check_offline_replay would send now. */
  function ReplayDue(k: Kiosk, allowed: bool): (id: Option<bytes>) {
    if k.replayNext >= |k.replayIds| || k.replaying || Busy(k.worker) || !allowed then None else Some(k.replayIds[k.replayNext])
  }

  /** check_offline_replay. */
  function ReplayTicked(k: Kiosk, allowed: bool): (k': Kiosk) {
    match ReplayDue(k, allowed)
    case None => k
    case Some(id) =>
      if id !in k.index.records then k.(replayNext := k.replayNext + 1)
      else if !N.Room(k.worker, N.OFFLINE_REPLAY) then k
      else Enqueued(k, ReplayRequest(k.index.records[id])).(replaying := true)
  }

  /** The journal status a result leads to. */
  function StatusAfter(res: N.NetworkResult<Reply>): (s: SyncStatus) {
    if !res.outcome.ok then (if res.outcome.retryable then PENDING else HUMAN_REVIEW)
    else match res.response
      case EventReply(Accepted(_, _, _)) => ACKED
      case EventReply(Rejected(_, _, _, _)) => REJECTED
      case EventReply(Conflict(_, _, _)) => CONFLICT
      case _ => PENDING
  }

  /** Whether the result settles the event: a failure that is not worth repeating, or an answer that parses. */
  predicate Final(res: N.NetworkResult<Reply>) {
    || (!res.outcome.ok && !res.outcome.retryable)
    || (res.outcome.ok && res.response.EventReply? && !res.response.response.KeyReuseMismatch?)
  }

  /** An event is given up for review exactly when an HTTP answer came that no repetition would change: too large, or
    * a status other than success, 429 and the 5xx range. A device without Wi-Fi never gives one up. */
  lemma GivenUpExactly(res: N.NetworkResult<Reply>, status: int)
    ensures res.outcome == N.Classify(status) ==>
              (StatusAfter(res) == HUMAN_REVIEW <==>
               status == N.RESPONSE_TOO_LARGE_MARKER
               || (status > 0 && status / 100 != 2 && status / 100 != 5 && status != 429))
    ensures res.outcome == N.HttpOutcome(false, true, N.WIFI_DOWN) ==> StatusAfter(res) == PENDING
    ensures Final(res) <==> StatusAfter(res) != PENDING
  {
  }

  /** Where an event goes on the answer to its last attempt: acknowledged, rejected or in conflict exactly when a 2xx status
    * brought that answer, to review on a status that no repetition changes, and otherwise on waiting. */
  lemma StatusExactly(res: N.NetworkResult<Reply>, status: int)
    requires N.Tells(status, res.outcome)
    ensures var answered := 200 <= status <= 299 && res.response.EventReply?;
            && (StatusAfter(res) == ACKED <==> answered && res.response.response.Accepted?)
            && (StatusAfter(res) == REJECTED <==> answered && res.response.response.Rejected?)
            && (StatusAfter(res) == CONFLICT <==> answered && res.response.response.Conflict?)
            && (StatusAfter(res) == HUMAN_REVIEW <==> !(200 <= status <= 299) && !N.Transient(status))
    ensures StatusAfter(res) in {ACKED, REJECTED, CONFLICT, HUMAN_REVIEW, PENDING}
  {
  }

  /** What an event's result does beside its transition: the snapshot of an accepted or rejected event is offered to
    * the projection whatever the verdict on the event; a conflict or an older snapshot starts a resync. */
  function Answered(k: Kiosk, res: N.NetworkResult<Reply>): (k': Kiosk) {
    match StatusAfter(res)
    case CONFLICT => Resync(k)
    case ACKED => Shown(k, res.response.response.snapshot)
    case REJECTED => Shown(k, res.response.response.snapshot)
    case _ => k
  }

  function Shown(k: Kiosk, s: Snapshot): (k': Kiosk) {
    var verdict := Verdict(k.projection, s);
    var k1 := k.(projection := P.Applied(k.projection, s));
    if verdict == REJECTED_STALE || verdict == REJECTED_INCONSISTENT then Resync(k1) else k1
  }

  /** handle_resync_result. */
  function Resynced(k: Kiosk, res: N.NetworkResult<Reply>): (k': Kiosk) {
    if !res.outcome.ok || !res.response.StateReply? then k
    else
      var verdict := Verdict(k.projection, res.response.snapshot);
      k.(projection := P.Applied(k.projection, res.response.snapshot),
         resyncing := k.resyncing && verdict != APPLIED && verdict != APPLIED_IDENTICAL)
  }

  /** take_bootstrap_result and on_bootstrap_result: the snapshot of the bootstrap that poll has put aside is offered to
    * the projection, when the answer carries one and the environment check lets it through. */
  function BootstrapTaken(k: Kiosk, allowed: bool): (k': Kiosk) {
    match k.bootstrap
    case None => k
    case Some(res) =>
      var k1 := k.(bootstrap := None);
      if !allowed || !res.outcome.ok || !res.response.StateReply? then k1
      else k1.(projection := P.Applied(k.projection, res.response.snapshot))
  }

  /** The cursor moves on whatever event result arrives while an item is out. */
  function CursorMoved(k: Kiosk): (k': Kiosk) {
    if k.replaying then k.(replaying := false, replayNext := k.replayNext + 1) else k
  }

  /** The result dispatch of poll. */
  function Polled(k: Kiosk, t: Transition, written: bool): (k': Kiosk) {
    var k1 := k.(worker := N.After(k.worker, N.POLL));
    match k.worker.slot
    case None => k1
    case Some(res) =>
      match res.kind
      case STATE_FETCH => Resynced(k1, res)
      case BOOTSTRAP => k1.(bootstrap := Some(res))
      case BUSINESS_EVENT => Answered(Noted(CursorMoved(k1), t, written), res)
      case OFFLINE_REPLAY => Answered(Noted(CursorMoved(k1), t, written), res)
      case _ => k1
  }

  // --- The note poll makes of a result ---

  /** The codes a failure is journaled under. */
  function FailureText(error: N.ErrorCode): (code: bytes) {
    match error
    case NO_ERROR => ""
    case WIFI_DOWN => "WIFI_DOWN"
    case DNS_FAIL => "DNS_FAIL"
    case HTTP_TIMEOUT => "HTTP_TIMEOUT"
    case TCP_CONNECT_FAIL => "TCP_CONNECT_FAIL"
    case RESPONSE_TOO_LARGE => "RESPONSE_TOO_LARGE"
    case API_RATE_LIMITED => "API_RATE_LIMITED"
    case HTTP_5XX => "HTTP_5XX"
    case HTTP_4XX => "HTTP_4XX"
    case PROTOCOL_INVALID_RESPONSE => "PROTOCOL_INVALID_RESPONSE"
  }

  /** The codes a refusal comes with. */
  function RefusalText(error: MockBackend.ErrorCode): (code: bytes) {
    match error
    case DEVICE_IS_DISABLED => "DEVICE_DISABLED"
    case IN_MAINTENANCE => "MAINTENANCE"
    case STATE_INVALID_TRANSITION => "STATE_INVALID_TRANSITION"
    case EMPLOYEE_NOT_FOUND => "EMPLOYEE_NOT_FOUND"
    case EMPLOYEE_DISABLED => "EMPLOYEE_DISABLED"
    case OPERATION_NOT_FOUND => "OPERATION_NOT_FOUND"
    case OPERATION_CLOSED => "OPERATION_CLOSED"
    case QUANTITY_INVALID => "QUANTITY_INVALID"
    case PROTOCOL_DECODE_FAILED => "PROTOCOL_DECODE_FAILED"
  }

  const CONFLICT_CODE: bytes := "STATE_CONFLICT"
  const MALFORMED_CODE: bytes := "EVENT_RESPONSE_MALFORMED"

  /** Why the event is where it is: why it failed, or what the answer was, and for a refusal its reason. */
  function CodeOf(res: N.NetworkResult<Reply>): (code: bytes) {
    if !res.outcome.ok then FailureText(res.outcome.error)
    else match res.response
      case EventReply(Accepted(_, _, _)) => []
      case EventReply(Rejected(_, error, _, _)) => RefusalText(error)
      case EventReply(Conflict(_, _, _)) => CONFLICT_CODE
      case _ => MALFORMED_CODE
  }

  /** How often a failed request was repeated. */
  function RetriesOf(res: N.NetworkResult<Reply>): (n: u32) {
    if res.outcome.ok || res.attempts == 0 then 0 else (res.attempts - 1) % U32_BOUND
  }

  /** The note of a result. */
  function NoteFor(res: N.NetworkResult<Reply>, uptimeMs: u32): (t: Transition) {
    Transition(res.eventId, StatusAfter(res), RetriesOf(res), uptimeMs, CodeOf(res))
  }

  /** A failure by its code, and a refusal by its. */
  function FailureNamed(code: bytes): (error: Option<N.ErrorCode>) {
    if code == "WIFI_DOWN" then Some(N.WIFI_DOWN)
    else if code == "DNS_FAIL" then Some(N.DNS_FAIL)
    else if code == "HTTP_TIMEOUT" then Some(N.HTTP_TIMEOUT)
    else if code == "TCP_CONNECT_FAIL" then Some(N.TCP_CONNECT_FAIL)
    else if code == "RESPONSE_TOO_LARGE" then Some(N.RESPONSE_TOO_LARGE)
    else if code == "API_RATE_LIMITED" then Some(N.API_RATE_LIMITED)
    else if code == "HTTP_5XX" then Some(N.HTTP_5XX)
    else if code == "HTTP_4XX" then Some(N.HTTP_4XX)
    else if code == "PROTOCOL_INVALID_RESPONSE" then Some(N.PROTOCOL_INVALID_RESPONSE)
    else None
  }

  function RefusalNamed(code: bytes): (error: Option<MockBackend.ErrorCode>) {
    if code == "DEVICE_DISABLED" then Some(MockBackend.DEVICE_IS_DISABLED)
    else if code == "MAINTENANCE" then Some(MockBackend.IN_MAINTENANCE)
    else if code == "STATE_INVALID_TRANSITION" then Some(MockBackend.STATE_INVALID_TRANSITION)
    else if code == "EMPLOYEE_NOT_FOUND" then Some(MockBackend.EMPLOYEE_NOT_FOUND)
    else if code == "EMPLOYEE_DISABLED" then Some(MockBackend.EMPLOYEE_DISABLED)
    else if code == "OPERATION_NOT_FOUND" then Some(MockBackend.OPERATION_NOT_FOUND)
    else if code == "OPERATION_CLOSED" then Some(MockBackend.OPERATION_CLOSED)
    else if code == "QUANTITY_INVALID" then Some(MockBackend.QUANTITY_INVALID)
    else if code == "PROTOCOL_DECODE_FAILED" then Some(MockBackend.PROTOCOL_DECODE_FAILED)
    else None
  }

  /** The code in the journal tells what came of the last attempt. */
  lemma CodeTells(res: N.NetworkResult<Reply>)
    ensures var code, ok, event := CodeOf(res), res.outcome.ok, res.response.EventReply?;
            && (!ok && res.outcome.error != N.NO_ERROR ==> FailureNamed(code) == Some(res.outcome.error))
            && (ok && event && res.response.response.Rejected? ==> RefusalNamed(code) == Some(res.response.response.error))
            && (ok && event && res.response.response.Conflict? ==> code == "STATE_CONFLICT")
            && (ok && event && res.response.response.Accepted? ==> code == [])
            && (ok && (!event || res.response.response.KeyReuseMismatch?) ==> code == "EVENT_RESPONSE_MALFORMED")
  {
    FailureCodeNamed(res.outcome.error);
    if res.response.EventReply? && res.response.response.Rejected? {
      RefusalCodeNamed(res.response.response.error);
    }
    hide FailureText;
    hide FailureNamed;
    hide RefusalText;
    hide RefusalNamed;
  }

  lemma FailureCodeNamed(error: N.ErrorCode)
    ensures error != N.NO_ERROR ==> FailureNamed(FailureText(error)) == Some(error)
  {
  }

  lemma RefusalCodeNamed(error: MockBackend.ErrorCode)
    ensures RefusalNamed(RefusalText(error)) == Some(error)
  {
  }

  /** No code holds a control byte, so every note reads back as it was written. */
  lemma CodeClean(res: N.NetworkResult<Reply>)
    ensures Json.Clean(CodeOf(res))
  {
    FailureTextClean(res.outcome.error);
    OtherCodesClean();
    if res.response.EventReply? && res.response.response.Rejected? {
      RefusalTextClean(res.response.response.error);
    }
    hide FailureText;
    hide RefusalText;
    hide Json.Clean;
  }

  lemma OtherCodesClean()
    ensures Json.Clean([]) && Json.Clean(CONFLICT_CODE) && Json.Clean(MALFORMED_CODE)
  {
  }

  lemma FailureTextClean(error: N.ErrorCode)
    ensures Json.Clean(FailureText(error))
  {
  }

  lemma RefusalTextClean(error: MockBackend.ErrorCode)
    ensures Json.Clean(RefusalText(error))
  {
    match error {
      case DEVICE_IS_DISABLED =>
      case IN_MAINTENANCE =>
      case STATE_INVALID_TRANSITION =>
      case EMPLOYEE_NOT_FOUND =>
      case EMPLOYEE_DISABLED =>
      case OPERATION_NOT_FOUND =>
      case OPERATION_CLOSED =>
      case QUANTITY_INVALID =>
      case PROTOCOL_DECODE_FAILED =>
    }
  }

  /** The transition poll writes for a result; only the time is the clock's. */
  predicate TransitionFor(res: N.NetworkResult<Reply>, t: Transition) {
    t == NoteFor(res, t.lastAttemptUptimeMs)
  }

  class KioskRuntime {
    const journal: EventJournal.EventJournal
    const projection: P.StateProjection
    const worker: N.NetworkWorker<Reply>
    var replaying: bool
    var replayIds: seq<bytes>
    var replayNext: nat
    var resyncing: bool
    var bootstrap: Option<N.NetworkResult<Reply>>

    constructor (journal: EventJournal.EventJournal, projection: P.StateProjection, worker: N.NetworkWorker<Reply>)
      ensures this.journal == journal && this.projection == projection && this.worker == worker
      ensures State() == Kiosk(journal.index.State(), projection.current, false, [], 0, false, None, worker.State())
    {
      this.journal, this.projection, this.worker := journal, projection, worker;
      replaying, replayIds, replayNext, resyncing, bootstrap := false, [], 0, false, None;
    }

    ghost function State(): (k: Kiosk)
      reads this, journal, journal.index, projection, worker
    {
      Kiosk(journal.index.State(), projection.current, replaying, replayIds, replayNext, resyncing, bootstrap, worker.State())
    }

    /** append_transition as the runtime calls it: its result is ignored. */
    method Note(t: Transition) returns (ghost written: bool)
      modifies journal.flash, journal.index
      ensures State() == Noted(old(State()), t, written)
      ensures journal.flash.faults >= old(journal.flash.faults)
      ensures written <==>
                journal.initOk && t.eventId in old(State()).index.records && journal.flash.faults == old(journal.flash.faults)
    {
      hide EncodeTransition;
      var ok := journal.AppendTransition(t);
      written := ok;
    }

    /** send_business_event: journaled first; without a durable record nothing is sent. */
    method SendBusinessEvent(record: Record, uptimeMs: u32) returns (durable: bool, ghost written: bool)
      modifies journal.flash, journal.index, worker
      ensures State() == Sent(old(State()), record, Transition(record.eventId, IN_FLIGHT, 0, uptimeMs, []), durable, written)
      ensures durable ==> journal.initOk && record.eventId !in old(State()).index.records
      ensures !durable ==> State() == old(State())
      ensures journal.flash.faults == old(journal.flash.faults) ==>
                && (durable <==>
                     && journal.initOk && record.eventId !in old(State()).index.records
                     && old(State()).index.used + FrameSize(record) <= journal.index.capacity)
                && (written <==> durable && N.Room(old(State()).worker, N.BUSINESS_EVENT))
    {
      written := false;
      durable := journal.AppendEvent(record);
      if !durable {
        return;
      }
      var queued := worker.Enqueue(N.EventRequest(N.BUSINESS_EVENT, record.eventId, record.deviceSeq, record.payload));
      if queued {
        written := Note(Transition(record.eventId, IN_FLIGHT, 0, uptimeMs, []));
      }
    }

    /** start_resync. */
    method StartResync()
      modifies this`resyncing, worker
      ensures State() == Resync(old(State()))
    {
      resyncing := true;
      var queued := worker.Enqueue(STATE_FETCH);
    }

    /** start_offline_replay_if_needed. */
    method StartOfflineReplayIfNeeded() returns (ghost ids: seq<bytes>)
      modifies this`replayIds, this`replayNext
      ensures ReplayList(journal.index.records, ids)
      ensures State() == ReplayStarted(old(State()), ids)
    {
      var pending := journal.index.PendingInDeviceSeqOrder();
      ids := pending;
      if replaying || replayNext < |replayIds| || pending == [] {
        return;
      }
      replayIds, replayNext := pending, 0;
    }

    /** check_offline_replay. */
    method CheckOfflineReplay(allowed: bool)
      modifies this`replaying, this`replayNext, worker
      ensures State() == ReplayTicked(old(State()), allowed)
    {
      if replayNext >= |replayIds| || replaying || worker.phase.RUNNING? || worker.high != [] || !allowed {
        return;
      }
      var id := replayIds[replayNext];
      if id !in journal.index.records {
        replayNext := replayNext + 1;
        return;
      }
      var queued := worker.Enqueue(ReplayRequest(journal.index.records[id]));
      if queued {
        replaying := true;
      }
    }

    /** handle_resync_result. */
    method HandleResyncResult(res: N.NetworkResult<Reply>)
      modifies this`resyncing, projection
      ensures State() == Resynced(old(State()), res)
    {
      if !res.outcome.ok || !res.response.StateReply? {
        return;
      }
      var verdict := projection.Apply(res.response.snapshot);
      if verdict == APPLIED || verdict == APPLIED_IDENTICAL {
        resyncing := false;
      }
    }

    /** apply_event_response and the failure branch of poll, after the transition has been written. */
    method ApplyEventResponse(res: N.NetworkResult<Reply>)
      modifies this`resyncing, projection, worker
      ensures State() == Answered(old(State()), res)
    {
      match StatusAfter(res) {
        case CONFLICT =>
          StartResync();
        case ACKED =>
          ShowSnapshot(res.response.response.snapshot);
        case REJECTED =>
          ShowSnapshot(res.response.response.snapshot);
        case _ =>
      }
    }

    method ShowSnapshot(s: Snapshot)
      modifies this`resyncing, projection, worker
      ensures State() == Shown(old(State()), s)
    {
      var verdict := projection.Apply(s);
      if verdict == REJECTED_STALE || verdict == REJECTED_INCONSISTENT {
        StartResync();
      }
    }

    /** take_bootstrap_result, and on_bootstrap_result of what it gives. */
    method TakeBootstrap(allowed: bool)
      modifies this`bootstrap, projection
      ensures State() == BootstrapTaken(old(State()), allowed)
    {
      if bootstrap.None? {
        return;
      }
      var res := bootstrap.value;
      bootstrap := None;
      if allowed && res.outcome.ok && res.response.StateReply? {
        var verdict := projection.Apply(res.response.snapshot);
      }
    }

    /** The result dispatch of poll. `t` is the transition it writes for an event's result. */
    method Poll(uptimeMs: u32) returns (ghost t: Transition, ghost written: bool)
      modifies this`replaying, this`replayNext, this`resyncing, this`bootstrap, journal.flash, journal.index, projection, worker
      ensures State() == Polled(old(State()), t, written)
      ensures old(worker.slot).Some? && N.Retried(old(worker.slot).value.kind) ==>
                && t == NoteFor(old(worker.slot).value, uptimeMs)
                && (journal.flash.faults == old(journal.flash.faults) ==>
                      (written <==> journal.initOk && t.eventId in old(State()).index.records))
    {
      t, written := Transition([], PENDING, 0, 0, []), false;
      var slot := worker.Poll();
      if slot.None? {
        return;
      }
      var res := slot.value;
      match res.kind {
        case STATE_FETCH =>
          HandleResyncResult(res);
        case BOOTSTRAP =>
          bootstrap := Some(res);
        case HEARTBEAT =>
        case UI_BUNDLE_FETCH =>
        case BUSINESS_EVENT =>
          t, written := HandleEventResult(res, uptimeMs);
        case OFFLINE_REPLAY =>
          t, written := HandleEventResult(res, uptimeMs);
      }
    }

    /** The part of poll shared by live events and replays. */
    method HandleEventResult(res: N.NetworkResult<Reply>, uptimeMs: u32)
      returns (ghost t: Transition, ghost written: bool)
      modifies this`replaying, this`replayNext, this`resyncing, journal.flash, journal.index, projection, worker
      ensures State() == Answered(Noted(CursorMoved(old(State())), t, written), res)
      ensures t == NoteFor(res, uptimeMs)
      ensures journal.flash.faults == old(journal.flash.faults) ==>
                (written <==> journal.initOk && t.eventId in old(State()).index.records)
    {
      if replaying {
        replaying, replayNext := false, replayNext + 1;
      }
      var transition := NoteFor(res, uptimeMs);
      t := transition;
      hide NoteFor;
      hide Noted;
      hide StatusAfter;
      written := Note(transition);
      hide Answered;
      ApplyEventResponse(res);
    }
  }
}
