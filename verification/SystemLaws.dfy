/** What every run of the whole system guarantees, and where a guarantee ends. */
module SystemLaws {
  import opened Bytes
  import opened Frames
  import opened JournalFile
  import opened JournalRecord
  import opened JournalIndex
  import opened IndexLaws
  import opened EventJournal
  import opened JournalDurability
  import opened CompactionWindow
  import opened KioskRuntime
  import opened KioskSystem
  import opened SystemFrames
  import opened SystemSteps
  import opened SystemJournal
  import P = StateProjection
  import N = NetworkWorker
  import S = MockBackend
  import Q = SequenceReservation
  import ProtocolCodec

  // --- Runs ---

  lemma StepKeeps(e: Env, s: System, step: Step)
    requires Inv(e, s) && Can(e, s, step)
    ensures Inv(e, Next(e, s, step))
  {
    hide *;
    match step {
      case SEND(_, _, _, _, _, _, _) => SendKeeps(e, s, step);
      case REQUEST(kind) => RequestKeeps(e, s, kind);
      case TASK(task) => TaskKeeps(e, s, task);
      case ATTEMPT => AttemptKeeps(e, s);
      case SERVE(body, seqText, now) => ServeKeeps(e, s, body, seqText, now);
      case FETCH => FetchKeeps(e, s);
      case ADMINISTER(op) => AdministerKeeps(e, s, op);
      case COMPLETE(res) => CompleteKeeps(e, s, res);
      case POLL(t, written, end) => PollKeeps(e, s, t, written, end);
      case BOOTSTRAP(allowed) => BootstrapKeeps(e, s, allowed);
      case REPLAY_START(ids) => ReplayStartKeeps(e, s, ids);
      case REPLAY_TICK(allowed) => ReplayTickKeeps(e, s, allowed);
      case BEGIN(policy, started, end) => BeginKeeps(e, s, policy, started, end);
      case TICK(outcome, end) => TickKeeps(e, s, outcome, end);
      case REBOOT(cuts, persisted, disk) => SystemJournal.RebootKeeps(e, s, cuts, persisted, disk);
    }
  }

  lemma {:induction false} RunKeeps(e: Env, steps: seq<Step>, states: seq<System>)
    requires e.block >= 1 && Run(e, steps, states)
    ensures forall i | 0 <= i < |states| :: Inv(e, states[i])
    decreases |steps|
  {
    hide Inv;
    hide Can;
    hide Next;
    var n := |steps|;
    if n == 0 {
      StartInv(e);
    } else {
      assert Run(e, steps[..n - 1], states[..n]);
      RunKeeps(e, steps[..n - 1], states[..n]);
      assert forall i | 0 <= i < n :: states[..n][i] == states[i];
      StepKeeps(e, states[n - 1], steps[n - 1]);
    }
  }

  // --- The server ---

  /** Each event changes the server's device at most once, and its version counts exactly the accepted events and
    * the administrative changes. */
  lemma VersionCountsAcceptedEvents(e: Env, steps: seq<Step>, states: seq<System>)
    requires e.block >= 1 && Run(e, steps, states)
    ensures var s := states[|steps|];
            S.DeviceOf(s.server, e.deviceId).version ==
            1 + |S.AcceptedEvents(s.server, e.deviceId)| + S.AdminBumps(s.ops, e.deviceId)
    ensures var s := states[|steps|];
            forall key | key in S.AcceptedEvents(s.server, e.deviceId) :: key.1 in s.created
  {
    RunKeeps(e, steps, states);
    var s := states[|steps|];
    InvParts(e, s);
    hide Run;
    hide Inv;
    assert s.server == S.RunServer(e.fixtures, S.FRESH_SERVER, s.ops);
    S.VersionCounts(e.fixtures, s.ops, e.deviceId);
    forall key | key in S.AcceptedEvents(s.server, e.deviceId)
      ensures key.1 in s.created
    {
      assert key == KeyOf(e, key.1);
    }
  }

  /** Nothing is on the network that was not durable first, and always under the one body it was journaled with; so
    * the server's key-reuse mismatch cannot happen. */
  lemma NoKeyReuseMismatch(e: Env, steps: seq<Step>, states: seq<System>, body: bytes, seqText: bytes, now: bytes)
    requires e.block >= 1 && Run(e, steps, states) && body in states[|steps|].sent
    ensures var s := states[|steps|];
            && !S.Handle(e.fixtures, s.server, e.parse(body), seqText, now).1.KeyReuseMismatch?
            && exists id | id in s.created :: s.created[id].payload == body
  {
    RunKeeps(e, steps, states);
    var s := states[|steps|];
    hide *;
    InvParts(e, s);
    NoMismatchNow(e, s, body, seqText, now);
  }

  lemma NoMismatchNow(e: Env, s: System, body: bytes, seqText: bytes, now: bytes)
    requires Bodies(e, s) && CacheMatches(e, s) && body in s.sent
    ensures !S.Handle(e.fixtures, s.server, e.parse(body), seqText, now).1.KeyReuseMismatch?
    ensures exists id | id in s.created :: s.created[id].payload == body
  {
    var id := SentBody(e, s, body);
    hide Bodies;
    hide S.ApplyEvent;
    hide S.DeviceOf;
  }

  /** Durable before sent. */
  lemma QueuedIsDurable(e: Env, steps: seq<Step>, states: seq<System>, q: N.NetworkRequest)
    requires e.block >= 1 && Run(e, steps, states)
    requires var w := states[|steps|].kiosk.worker; q in w.high || q in w.low || w.phase == N.RUNNING(q)
    requires N.Retried(q.kind)
    ensures q.eventId in states[|steps|].created && q.body == states[|steps|].created[q.eventId].payload
  {
    RunKeeps(e, steps, states);
    InvParts(e, states[|steps|]);
    hide Run;
    hide Inv;
    assert Carried(states[|steps|], q);
  }

  // --- The journal, in memory and on flash ---

  /** The journal says ACKED only of events the server accepted; likewise REJECTED and CONFLICT. That goes for the
    * index and for what a boot would read off the flash. */
  lemma AckedMeansAccepted(e: Env, steps: seq<Step>, states: seq<System>, records: map<bytes, Record>, id: bytes)
    requires e.block >= 1 && Run(e, steps, states) && id in records
    requires records == states[|steps|].kiosk.index.records || records == OnFlash(states[|steps|].disk)
    ensures var s, status := states[|steps|], records[id].syncStatus;
            && (status == ACKED ==> KeyOf(e, id) in S.AcceptedEvents(s.server, e.deviceId))
            && (status == REJECTED ==> KeyOf(e, id) in s.server.cache && s.server.cache[KeyOf(e, id)].response.Rejected?)
            && (status == CONFLICT ==> KeyOf(e, id) in s.server.cache && s.server.cache[KeyOf(e, id)].response.Conflict?)
  {
    RunKeeps(e, steps, states);
    var s := states[|steps|];
    InvParts(e, s);
    hide Run;
    hide Inv;
    hide Good;
    assert Good(e, s, records);
    hide *;
    RecordJustified(e, s, records, id);
  }

  lemma RecordJustified(e: Env, s: System, records: map<bytes, Record>, id: bytes)
    requires Good(e, s, records) && id in records
    ensures var status := records[id].syncStatus;
            && (status == ACKED ==> KeyOf(e, id) in S.AcceptedEvents(s.server, e.deviceId))
            && (status == REJECTED ==> KeyOf(e, id) in s.server.cache && s.server.cache[KeyOf(e, id)].response.Rejected?)
            && (status == CONFLICT ==> KeyOf(e, id) in s.server.cache && s.server.cache[KeyOf(e, id)].response.Conflict?)
  {
    hide Encodable;
    assert GoodRecord(e, s, id, records[id]);
  }

  /** A durable event without a final answer, which was not lost, is in the journal, pending or in flight, and in every
    * replay pass that starts now. Unless it went behind a torn tail, so it will be after a power cut now. */
  lemma UnansweredIsReplayed(e: Env, steps: seq<Step>, states: seq<System>, id: bytes, ids: seq<bytes>, later: seq<bytes>)
    requires e.block >= 1 && Run(e, steps, states) && Awaited(states[|steps|], id)
    requires ReplayList(states[|steps|].kiosk.index.records, ids) && ReplayList(OnFlash(states[|steps|].disk), later)
    ensures var s := states[|steps|];
            && id in s.kiosk.index.records && Unanswered(s.kiosk.index.records[id]) && id in ids
            && (id in later <==> id !in s.buried)
            && (id !in s.buried ==> id in OnFlash(s.disk) && Unanswered(OnFlash(s.disk)[id]))
  {
    RunKeeps(e, steps, states);
    var s := states[|steps|];
    InvParts(e, s);
    hide Run;
    hide Inv;
    hide Boot;
    assert id in OnFlash(s.disk).Keys <==> id !in s.buried;
    assert GoodRecord(e, s, id, s.kiosk.index.records[id]);
    assert id !in s.buried ==> GoodRecord(e, s, id, OnFlash(s.disk)[id]);
    hide Encodable;
  }

  /** The events without a final answer that are missing from a copy of the journal. */
  ghost function Missing(s: System, records: map<bytes, Record>): (ids: set<bytes>) {
    set id | id in s.created && id !in s.answered && id !in records
  }

  /** Over every run, the unanswered events missing from memory are exactly the lost ones; on flash the buried ones are
    * missing as well, and nothing else is. */
  lemma MissingIsLost(e: Env, steps: seq<Step>, states: seq<System>)
    requires e.block >= 1 && Run(e, steps, states)
    ensures var s := states[|steps|];
            && Missing(s, s.kiosk.index.records) == s.lost - s.answered
            && Missing(s, OnFlash(s.disk)) == s.lost + s.buried - s.answered
  {
    RunKeeps(e, steps, states);
    InvParts(e, states[|steps|]);
    hide Run;
    hide Inv;
    MissingNow(e, states[|steps|]);
  }

  lemma MissingNow(e: Env, s: System)
    requires Durable(e, s) && Window(e, s)
    ensures Missing(s, s.kiosk.index.records) == s.lost - s.answered
    ensures Missing(s, OnFlash(s.disk)) == s.lost + s.buried - s.answered
  {
    hide Encodable;
    hide Boot;
    hide View;
    hide Justified;
    hide InWindow;
    MissingIn(e, s, s.kiosk.index.records, {});
    assert s.lost + {} == s.lost;
    MissingIn(e, s, OnFlash(s.disk), s.buried);
  }

  lemma MissingIn(e: Env, s: System, records: map<bytes, Record>, gone: set<bytes>)
    requires Good(e, s, records) && s.lost <= s.created.Keys && gone <= s.created.Keys && gone !! records.Keys
    requires forall id | Awaited(s, id) && id !in gone :: id in records
    ensures Missing(s, records) == s.lost + gone - s.answered
  {
    hide Encodable;
    hide Justified;
    forall id
      ensures id in Missing(s, records) <==> id in s.lost + gone - s.answered
    {
      assert id in records ==> GoodRecord(e, s, id, records[id]) && id in records.Keys;
      assert Awaited(s, id) && id !in gone ==> id in records;
    }
  }

  /** An event is lost in exactly two ways: it was made durable in the window of a compaction that swapped, or it was
    * made durable behind a torn tail and the device booted before a swap rewrote the log. */
  lemma LostExactly(e: Env, s: System, step: Step)
    requires Can(e, s, step)
    ensures var s' := Next(e, s, step);
            s'.lost == s.lost + (if step.TICK? && step.outcome == SWAPPED then s.window else if step.REBOOT? then s.buried else {})
  {
    hide Can;
    hide Sent;
    hide Polled;
    hide S.Do;
    hide S.Recorded;
    hide N.After;
    hide ReplayTicked;
    hide ReplayStarted;
    hide BootstrapTaken;
    hide Enqueued;
    hide Boot;
  }

  /** The step that empties `buried`: a swap, or a boot. */
  ghost predicate Clears(step: Step) {
    step.REBOOT? || (step.TICK? && step.outcome == SWAPPED)
  }

  ghost predicate SentBehindTear(s: System, step: Step) {
    step.SEND? && step.durable && !Ready(s.disk)
  }

  /** The events that steps `a` up to `b` made durable while the log had a torn tail. */
  ghost function BuriedIn(steps: seq<Step>, states: seq<System>, a: nat, b: nat): (ids: set<bytes>)
    requires a <= b <= |steps| < |states|
    decreases b
  {
    if a == b then {}
    else BuriedIn(steps, states, a, b - 1)
         + (if SentBehindTear(states[b - 1], steps[b - 1]) then {steps[b - 1].record.eventId} else {})
  }

  /** `buried` is what it says, over any part of a run without a swap and without a boot. */
  lemma {:induction false} BuriedHoldsSends(e: Env, steps: seq<Step>, states: seq<System>, a: nat, b: nat)
    requires Run(e, steps, states) && a <= b <= |steps| && forall i | a <= i < b :: !Clears(steps[i])
    ensures states[b].buried == states[a].buried + BuriedIn(steps, states, a, b)
    decreases b
  {
    hide Next;
    hide Can;
    hide SentBehindTear;
    if a < b {
      assert Can(e, states[b - 1], steps[b - 1]) && states[b] == Next(e, states[b - 1], steps[b - 1]);
      BuriedHoldsSends(e, steps, states, a, b - 1);
      BuriedStep(e, states[b - 1], steps[b - 1]);
    }
  }

  lemma BuriedStep(e: Env, s: System, step: Step)
    requires Can(e, s, step)
    ensures Next(e, s, step).buried ==
            if Clears(step) then {} else s.buried + (if SentBehindTear(s, step) then {step.record.eventId} else {})
  {
    hide Can;
    hide Sent;
    hide Polled;
    hide S.Do;
    hide S.Recorded;
    hide N.After;
    hide ReplayTicked;
    hide ReplayStarted;
    hide BootstrapTaken;
    hide Enqueued;
    hide Ready;
    hide Boot;
  }

  /** No unanswered event is missing. */
  ghost predicate OpenKept(s: System) {
    Missing(s, s.kiosk.index.records) == {} && Missing(s, OnFlash(s.disk)) == {}
  }

  /** The swap of a compaction adds to the missing events exactly the unanswered ones made durable since it began; so
    * it keeps every open event if and only if all of those, most simply none, were answered before it. On flash it
    * brings the buried ones back, and an append starts on a frame boundary again. */
  lemma SwapKeepsOpen(e: Env, s: System, end: JournalState)
    requires Inv(e, s) && Can(e, s, TICK(SWAPPED, end))
    ensures var s' := Next(e, s, TICK(SWAPPED, end));
            && Missing(s', s'.kiosk.index.records) == Missing(s, s.kiosk.index.records) + (s.window - s.answered)
            && Missing(s', OnFlash(s'.disk)) == Missing(s', s'.kiosk.index.records)
            && (OpenKept(s) ==> (OpenKept(s') <==> s.window <= s.answered))
            && Ready(s'.disk)
  {
    var s' := Next(e, s, TICK(SWAPPED, end));
    assert s'.lost == s.lost + s.window && s'.buried == {} && s'.answered == s.answered && s'.disk == end.disk;
    StepKeeps(e, s, TICK(SWAPPED, end));
    hide *;
    InvParts(e, s);
    InvParts(e, s');
    SwapReady(e, s, end);
    MissingNow(e, s);
    MissingNow(e, s');
    GrownMissing(s, s', s.window);
  }

  /** A reboot adds exactly the unanswered events that had gone behind a torn tail. */
  lemma RebootKeepsOpen(e: Env, s: System, cuts: seq<LogFiles>, persisted: bool, disk: Disk)
    requires Inv(e, s) && Can(e, s, REBOOT(cuts, persisted, disk))
    ensures var s' := Next(e, s, REBOOT(cuts, persisted, disk));
            && Missing(s', s'.kiosk.index.records) == Missing(s, s.kiosk.index.records) + (s.buried - s.answered)
            && Missing(s', OnFlash(s'.disk)) == Missing(s', s'.kiosk.index.records)
            && (Missing(s, s.kiosk.index.records) == {} ==> (OpenKept(s') <==> s.buried <= s.answered))
  {
    var step := REBOOT(cuts, persisted, disk);
    var s' := Next(e, s, step);
    assert s'.lost == s.lost + s.buried && s'.buried == {} && s'.answered == s.answered;
    StepKeeps(e, s, step);
    hide *;
    InvParts(e, s);
    InvParts(e, s');
    MissingNow(e, s);
    MissingNow(e, s');
    GrownMissing(s, s', s.buried);
  }

  lemma GrownMissing(s: System, s': System, more: set<bytes>)
    requires Missing(s, s.kiosk.index.records) == s.lost - s.answered
    requires Missing(s', s'.kiosk.index.records) == s'.lost - s'.answered
    requires Missing(s', OnFlash(s'.disk)) == s'.lost + s'.buried - s'.answered
    requires s'.lost == s.lost + more && s'.answered == s.answered && s'.buried == {}
    ensures Missing(s', s'.kiosk.index.records) == Missing(s, s.kiosk.index.records) + (more - s.answered)
    ensures Missing(s', OnFlash(s'.disk)) == Missing(s', s'.kiosk.index.records)
    ensures Missing(s, s.kiosk.index.records) == {} ==> (OpenKept(s') <==> more <= s.answered)
  {
    hide Missing;
    hide OnFlash;
    assert s'.lost + s'.buried - s'.answered == s'.lost - s'.answered;
    assert s'.lost - s'.answered == (s.lost - s.answered) + (more - s.answered);
    assert more - s.answered == {} <==> more <= s.answered by {
      assert forall id :: id in more - s.answered <==> id in more && id !in s.answered;
    }
    if Missing(s, s.kiosk.index.records) == {} {
      assert s'.lost - s'.answered == more - s.answered;
    }
  }

  /** A torn tail is gone with the log it was in: after a swap an append starts on a frame boundary again. */
  lemma SwapReady(e: Env, s: System, end: JournalState)
    requires Window(e, s) && Can(e, s, TICK(SWAPPED, end))
    ensures Ready(end.disk)
  {
    hide InWindow;
    assert InWindow(s.start, s.image, Journal(s)) && TickStep(Journal(s), SWAPPED, end) && |TickLog(Journal(s))| < U32_BOUND;
    hide Can;
    hide Window;
    SwappedLog(s.start, s.image, Journal(s), end);
  }

  lemma SwappedLog(start: JournalState, image: Image, j: JournalState, end: JournalState)
    requires InWindow(start, image, j) && TickStep(j, SWAPPED, end) && |TickLog(j)| < U32_BOUND
    ensures Ready(end.disk)
  {
    assert j.next <= |j.keep|;
    assert Holds(end.disk, TickLog(j));
    TickWrites(start, image, j);
    hide *;
    WholeLogReady(end.disk, KeptBodies(AfterChunk(image, j.index.records, Chunk(j)), j.keep[..Min(j.next + RECORDS_PER_TICK, |j.keep|)]));
  }

  lemma WholeLogReady(d: Disk, bodies: seq<bytes>)
    requires Holds(d, Log(bodies)) && |Log(bodies)| < U32_BOUND
    ensures Ready(d)
  {
    assert LogBytes(d) == Log(bodies) && InPlace(d);
    hide LogBytes;
    hide InPlace;
    hide Log;
    AllStorable(bodies);
    RecoverLog(bodies);
    hide Recovered;
  }

  /** The events a stretch of a run made durable. */
  function SentIn(steps: seq<Step>): (ids: set<bytes>) {
    set step | step in steps && step.SEND? && step.durable :: step.record.eventId
  }

  ghost predicate Starts(step: Step) {
    step.BEGIN? && step.started
  }

  /** `window` holds the events made durable since the last compaction began. */
  lemma {:induction false} WindowHoldsSends(e: Env, steps: seq<Step>, states: seq<System>, m: nat, n: nat)
    requires Run(e, steps, states) && m < n <= |steps| && Starts(steps[m])
    requires forall i | m < i < n :: !Starts(steps[i])
    ensures states[n].window == SentIn(steps[m + 1..n])
    decreases n
  {
    hide Next;
    hide Can;
    assert Can(e, states[n - 1], steps[n - 1]) && states[n] == Next(e, states[n - 1], steps[n - 1]);
    WindowStep(e, states[n - 1], steps[n - 1]);
    if n == m + 1 {
      assert steps[m + 1..n] == [];
    } else {
      WindowHoldsSends(e, steps, states, m, n - 1);
      assert steps[m + 1..n] == steps[m + 1..n - 1] + [steps[n - 1]];
      assert SentIn(steps[m + 1..n]) == SentIn(steps[m + 1..n - 1]) + SentIn([steps[n - 1]]);
    }
  }

  lemma WindowStep(e: Env, s: System, step: Step)
    requires Can(e, s, step)
    ensures Next(e, s, step).window == (if Starts(step) then {} else s.window + SentIn([step]))
  {
    hide Can;
    hide Sent;
    hide Polled;
    hide S.Do;
    hide S.Recorded;
    hide N.After;
    hide ReplayTicked;
    hide ReplayStarted;
    hide BootstrapTaken;
    hide Enqueued;
    hide Ready;
    assert step in [step];
  }

  // --- Power cuts inside a step ---

  /** Power lost inside the last tick of a compaction, anywhere in its swap, and in the recoveries after it: the device
    * comes up as if the tick had ended, with or without its swap, and the power had gone then. */
  lemma CutTick(e: Env, s: System, cuts: seq<LogFiles>, persisted: bool, disk: Disk)
    returns (outcome: TickOutcome, end: JournalState)
    requires s.active && s.next <= |s.keep| && |TickLog(Journal(s))| < U32_BOUND && LastTick(Journal(s))
    requires RecoveryRun(cuts) && CompactionState(View(s.disk), TickLog(Journal(s)), cuts[0])
    requires View(disk) == Restored(cuts[|cuts| - 1])
    ensures Can(e, s, TICK(outcome, end)) && (outcome == SWAPPED || outcome == SWAP_FAILED)
    ensures var mid := Next(e, s, TICK(outcome, end));
            && Can(e, mid, REBOOT([View(end.disk)], persisted, disk))
            && Next(e, mid, REBOOT([View(end.disk)], persisted, disk)) == AfterReboot(e, mid, cuts, persisted, disk)
            && mid.lost == (if outcome == SWAPPED then s.lost + s.window else s.lost)
  {
    assert cuts != [];
    hide *;
    outcome, end := EndOfTick(Journal(s), cuts[0]);
    RecoveryRestarts(cuts);
    TickHappens(e, s, outcome, end);
    RebootNow(e, Next(e, s, TICK(outcome, end)), cuts, persisted, disk);
  }

  lemma TickHappens(e: Env, s: System, outcome: TickOutcome, end: JournalState)
    requires s.next <= |s.keep| && |TickLog(Journal(s))| < U32_BOUND && TickStep(Journal(s), outcome, end)
    ensures Can(e, s, TICK(outcome, end))
    ensures var s' := Next(e, s, TICK(outcome, end));
            s'.disk == end.disk && s'.lost == (if outcome == SWAPPED then s.lost + s.window else s.lost)
  {
    hide TickStep;
    hide TickLog;
  }

  /** A reboot sees of the flash what its recovery makes of it. */
  lemma RebootNow(e: Env, s: System, cuts: seq<LogFiles>, persisted: bool, disk: Disk)
    requires cuts != [] && Restored(View(s.disk)) == Restored(cuts[|cuts| - 1]) == View(disk)
    ensures Can(e, s, REBOOT([View(s.disk)], persisted, disk))
    ensures Next(e, s, REBOOT([View(s.disk)], persisted, disk)) == AfterReboot(e, s, cuts, persisted, disk)
  {
    var now := [View(s.disk)];
    assert RecoveryRun(now);
    BootsAlike(now[0], cuts[|cuts| - 1]);
    hide Boot;
    hide View;
    hide Restored;
    hide RecoveryRun;
  }

  lemma BootsAlike(a: LogFiles, b: LogFiles)
    requires Restored(a) == Restored(b)
    ensures Boot(a) == Boot(b)
  {
    hide Folded;
    hide Recovered;
  }

  /** The tick that gets to its swap: everything is written and reads back. */
  ghost predicate LastTick(j: JournalState)
    requires j.next <= |j.keep|
  {
    && j.next + ChunkEnd(j.index.records, Chunk(j)) == |j.keep| && |Recovered(TickLog(j))| >= |j.keep|
    && TMP in TempWritten(j.disk, KeptBodies(j.index.records, Chunk(j)))
  }

  lemma EndOfTick(j: JournalState, v: LogFiles) returns (outcome: TickOutcome, end: JournalState)
    requires j.active && j.next <= |j.keep| && LastTick(j) && CompactionState(View(j.disk), TickLog(j), v)
    ensures TickStep(j, outcome, end) && Restored(View(end.disk)) == Restored(v)
    ensures outcome == SWAPPED || outcome == SWAP_FAILED
  {
    hide TickLog;
    hide KeptBodies;
    hide Recovered;
    hide Rebuilt;
    hide ChunkEnd;
    hide TempWritten;
    if SwapFailed(View(j.disk), v) {
      outcome, end := SWAP_FAILED, JournalState(OfView(v), j.index, false, [], 0);
    } else {
      outcome, end := SWAPPED, JournalState(OfView(LogFiles(v.dat, None)), Rebuilt(j.index, j.keep), false, [], 0);
    }
  }

  /** The least flash that shows these files. */
  function OfView(v: LogFiles): (d: Disk)
    ensures View(d) == v && TMP !in d
  {
    (if v.dat.Some? then map[DAT := v.dat.value] else map[]) + (if v.aside.Some? then map[OLD := v.aside.value] else map[])
  }

  /** Power lost inside the append of an event: the flash is as after a send that failed there, or, when all of the
    * frame got out, as after one that succeeded. */
  lemma CutSend(e: Env, s: System, event: ProtocolCodec.KioskEvent, r: Record, uptimeMs: u32, d: Disk) returns (step: Step)
    requires Takes(s.kiosk, event.eventType) && Made(e, s.kiosk.projection, event, r)
    requires r.eventId !in s.created && r.deviceSeq == Q.Next(s.counter, e.block).current
    requires r.eventId !in s.kiosk.index.records && s.kiosk.index.used + FrameSize(r) <= e.capacity
    requires Lands(s.disk, d, EncodeEvent(r)) && AppendState(s.disk, d, DAT, Frame(EncodeEvent(r)))
    ensures step.SEND? && step.record == r && Can(e, s, step) && step.end.disk == d
    ensures step.durable <==> d == Grown(s.disk, DAT, Frame(EncodeEvent(r)))
  {
    hide Made;
    hide Lands;
    var j := Journal(s);
    var whole := d == Grown(s.disk, DAT, Frame(EncodeEvent(r)));
    var mid := j.(disk := d, index := if whole then AppendedEvent(j.index, r, FrameSize(r)) else j.index);
    step := SEND(event, r, uptimeMs, whole, false, mid, mid);
    if !whole {
      CutFails(s.disk, d, Frame(EncodeEvent(r)));
    }
    NothingWritten(mid, InFlight(r, uptimeMs));
    hide Frame;
    hide EncodeEvent;
    hide EncodeTransition;
  }

  lemma CutFails(d: Disk, d': Disk, frame: bytes)
    requires AppendState(d, d', DAT, frame) && d' != Grown(d, DAT, frame)
    ensures AppendFailed(d, d', DAT, frame)
  {
    assert frame[..|frame|] == frame;
  }

  /** A transition that could not even open the file. */
  lemma NothingWritten(j: JournalState, t: Transition)
    ensures TransitionAppended(j, t, false, j)
  {
    hide EncodeTransition;
    hide Frame;
  }

  // --- The projection ---

  /** The snapshot a waiting result will offer to the projection when it is polled. */
  function Offered(res: N.NetworkResult<Reply>): (snapshot: Option<P.Snapshot>) {
    if !res.outcome.ok then None
    else match res.kind
      case BUSINESS_EVENT => AnswerSnapshot(res.response)
      case OFFLINE_REPLAY => AnswerSnapshot(res.response)
      case STATE_FETCH => if res.response.StateReply? then Some(res.response.snapshot) else None
      case _ => None
  }

  /** The snapshot of a bootstrap that was put aside. */
  function PutAside(k: Kiosk): (snapshot: Option<P.Snapshot>) {
    match k.bootstrap
    case Some(res) => if res.outcome.ok && res.response.StateReply? then Some(res.response.snapshot) else None
    case None => None
  }

  function AnswerSnapshot(reply: Reply): (snapshot: Option<P.Snapshot>) {
    match reply
    case EventReply(Accepted(_, snapshot, _)) => Some(snapshot)
    case EventReply(Rejected(_, _, snapshot, _)) => Some(snapshot)
    case _ => None
  }

  /** A poll shows exactly what its result offers. */
  lemma PollOffers(k: Kiosk, res: N.NetworkResult<Reply>, t: Transition, written: bool)
    requires k.worker.slot == Some(res)
    ensures Polled(k, t, written).projection ==
            match Offered(res) case Some(snapshot) => P.Applied(k.projection, snapshot) case None => k.projection
  {
    hide AppendedTransition;
    hide TransitionSize;
    hide P.Applied;
  }

  /** And taking up a bootstrap shows exactly what was put aside, if the environment check lets it. */
  lemma BootstrapOffers(k: Kiosk, allowed: bool)
    ensures BootstrapTaken(k, allowed).projection ==
            if allowed && PutAside(k).Some? then P.Applied(k.projection, PutAside(k).value) else k.projection
    ensures PutAside(BootstrapTaken(k, allowed)) == None
  {
    hide P.Applied;
  }

  /** The device never shows a state the server was not in: the projection is a past snapshot, no newer than the server;
    * and no poll and no bootstrap of any run finds two snapshots of one version that differ. */
  lemma ProjectionIsPast(e: Env, steps: seq<Step>, states: seq<System>)
    requires e.block >= 1 && Run(e, steps, states)
    ensures var s := states[|steps|];
            s.kiosk.projection.Some? ==>
              && Past(s, s.kiosk.projection.value)
              && s.kiosk.projection.value.version <= S.DeviceOf(s.server, e.deviceId).version
    ensures var k := states[|steps|].kiosk;
            k.worker.slot.Some? && Offered(k.worker.slot.value).Some? ==>
              P.Verdict(k.projection, Offered(k.worker.slot.value).value) != P.REJECTED_INCONSISTENT
    ensures var k := states[|steps|].kiosk;
            PutAside(k).Some? ==> P.Verdict(k.projection, PutAside(k).value) != P.REJECTED_INCONSISTENT
  {
    RunKeeps(e, steps, states);
    var s := states[|steps|];
    hide *;
    InvParts(e, s);
    PastNow(e, s);
  }

  lemma PastNow(e: Env, s: System)
    requires Results(e, s) && Snapshots(e, s)
    ensures s.kiosk.projection.Some? ==>
              && Past(s, s.kiosk.projection.value)
              && s.kiosk.projection.value.version <= S.DeviceOf(s.server, e.deviceId).version
    ensures var k := s.kiosk;
            k.worker.slot.Some? && Offered(k.worker.slot.value).Some? ==>
              P.Verdict(k.projection, Offered(k.worker.slot.value).value) != P.REJECTED_INCONSISTENT
    ensures PutAside(s.kiosk).Some? ==> P.Verdict(s.kiosk.projection, PutAside(s.kiosk).value) != P.REJECTED_INCONSISTENT
  {
    if s.kiosk.worker.slot.Some? && Offered(s.kiosk.worker.slot.value).Some? {
      OfferIsPast(e, s, s.kiosk.worker.slot.value);
    }
    if PutAside(s.kiosk).Some? {
      assert Past(s, PutAside(s.kiosk).value);
    }
    hide PutAside;
    hide Offered;
    hide Results;
  }

  lemma OfferIsPast(e: Env, s: System, res: N.NetworkResult<Reply>)
    requires Results(e, s) && Snapshots(e, s) && s.kiosk.worker.slot == Some(res) && Offered(res).Some?
    ensures Past(s, Offered(res).value)
  {
    assert Truthful(e, s, res);
    if N.Retried(res.kind) {
      AnswerPast(e, s, res);
    }
  }

  // --- Order ---

  /** One replay pass sends each item at most once, in the order the events were created. */
  lemma PassFollowsCreation(e: Env, steps: seq<Step>, states: seq<System>)
    requires e.block >= 1 && Run(e, steps, states)
    ensures var s := states[|steps|];
            forall i, j | 0 <= i < j < |s.pass| ::
              && s.pass[i] < |s.kiosk.replayIds| && s.pass[j] < |s.kiosk.replayIds|
              && s.kiosk.replayIds[s.pass[i]] in s.created && s.kiosk.replayIds[s.pass[j]] in s.created
              && s.created[s.kiosk.replayIds[s.pass[i]]].deviceSeq < s.created[s.kiosk.replayIds[s.pass[j]]].deviceSeq
  {
    hide *;
    RunLength(e, steps, states);
    RunKeeps(e, steps, states);
    var s := states[|steps|];
    InvParts(e, s);
    PassWithin(s);
    forall i, j | 0 <= i < j < |s.pass|
      ensures s.created[s.kiosk.replayIds[s.pass[i]]].deviceSeq < s.created[s.kiosk.replayIds[s.pass[j]]].deviceSeq
    {
      PassInOrder(s, i, j);
    }
  }

  lemma RunLength(e: Env, steps: seq<Step>, states: seq<System>)
    requires Run(e, steps, states)
    ensures |states| == |steps| + 1
  {
    hide Can;
    hide Next;
  }

  lemma PassWithin(s: System)
    requires Replay(s)
    ensures forall n | 0 <= n < |s.pass| :: s.pass[n] < |s.kiosk.replayIds| && s.kiosk.replayIds[s.pass[n]] in s.created
  {
    forall n | 0 <= n < |s.pass|
      ensures s.pass[n] < |s.kiosk.replayIds| && s.kiosk.replayIds[s.pass[n]] in s.created
    {
      assert s.pass[n] in s.pass;
      assert s.kiosk.replayIds[s.pass[n]] in s.kiosk.replayIds;
    }
  }

  lemma PassInOrder(s: System, i: nat, j: nat)
    requires Replay(s) && i < j < |s.pass|
    ensures s.pass[i] < |s.kiosk.replayIds| && s.pass[j] < |s.kiosk.replayIds|
    ensures s.kiosk.replayIds[s.pass[i]] in s.created && s.kiosk.replayIds[s.pass[j]] in s.created
    ensures s.created[s.kiosk.replayIds[s.pass[i]]].deviceSeq < s.created[s.kiosk.replayIds[s.pass[j]]].deviceSeq
  {
    PassWithin(s);
  }

  /** Over every run of sends, power cuts and reboots no two events share a sequence number, and a later one has the
    * higher. */
  lemma SequenceFollowsCreation(e: Env, steps: seq<Step>, states: seq<System>, i: nat)
    requires e.block >= 1 && Run(e, steps, states) && i < |steps| && steps[i].SEND?
    ensures forall id | id in states[i].created :: states[i].created[id].deviceSeq < steps[i].record.deviceSeq
  {
    RunKeeps(e, steps, states);
    var s, step := states[i], steps[i];
    assert Can(e, s, step);
    InvParts(e, s);
    hide Run;
    hide Inv;
    hide EventAppended;
    hide TransitionAppended;
    hide Composed;
    NextNumber(e, s.counter);
  }

  lemma AnswerLeavesCursor(k: Kiosk, res: N.NetworkResult<Reply>)
    ensures var k' := Answered(k, res);
            k'.replaying == k.replaying && k'.replayIds == k.replayIds && k'.replayNext == k.replayNext
  {
  }

  lemma PollCursor(k: Kiosk, t: Transition, written: bool)
    ensures Polled(k, t, written).replayIds == k.replayIds && Polled(k, t, written).replayNext >= k.replayNext
  {
    hide EncodeTransition;
    var k1 := k.(worker := N.After(k.worker, N.POLL));
    if k.worker.slot.Some? && N.Retried(k.worker.slot.value.kind) {
      AnswerLeavesCursor(Noted(CursorMoved(k1), t, written), k.worker.slot.value);
      hide Answered;
    }
  }

  /** Within a pass the cursor does not go back. */
  lemma CursorNeverReturns(e: Env, s: System, step: Step)
    requires Can(e, s, step)
    ensures var s' := Next(e, s, step);
            step.REBOOT? || step.REPLAY_START?
            || (s'.kiosk.replayIds == s.kiosk.replayIds && s'.kiosk.replayNext >= s.kiosk.replayNext)
  {
    hide Can;
    hide S.Do;
    hide N.After;
    hide Noted;
    hide S.Recorded;
    hide S.DeviceOf;
    hide AfterChunk;
    hide Merged;
    hide LogBytes;
    if step.POLL? {
      PollCursor(s.kiosk, step.t, step.written);
      hide Polled;
    } else if step.SEND? {
      SentParts(s.kiosk, step.record, InFlight(step.record, step.uptimeMs), step.durable, step.written);
      hide Sent;
    }
  }
}
