/** How a replay pass ends, and the one way in which it does not: the result of the item that is out is overwritten in
  * the slot before the main loop has taken it. */
module ReplayPass {
  import opened Bytes
  import opened JournalRecord
  import opened JournalIndex
  import opened EventJournal
  import opened CompactionWindow
  import opened KioskRuntime
  import opened KioskSystem
  import opened SystemJournal
  import opened SystemLaws
  import N = NetworkWorker
  import S = MockBackend

  /** A stretch of a run, from any state. */
  ghost predicate Stretch(e: Env, steps: seq<Step>, states: seq<System>) {
    && |states| == |steps| + 1
    && forall i | 0 <= i < |steps| :: Can(e, states[i], steps[i]) && states[i + 1] == Next(e, states[i], steps[i])
  }

  ghost predicate EventIn(queue: seq<N.NetworkRequest>) {
    exists q :: q in queue && N.Retried(q.kind)
  }

  /** An event's request or result is somewhere between the queues and the main loop. */
  ghost predicate Outstanding(w: N.Worker<Reply>) {
    || EventIn(w.high) || EventIn(w.low)
    || (w.phase.RUNNING? && N.Retried(w.phase.request.kind))
    || (w.phase.DEPOSITING? && N.Retried(w.phase.result.kind))
    || (w.slot.Some? && N.Retried(w.slot.value.kind))
  }

  /** An item is marked as out, but no result will ever come to move the cursor. */
  ghost predicate Stalled(k: Kiosk) {
    k.replaying && !Outstanding(k.worker)
  }

  /** The deposit that loses the last event result: the slot still holds it, and no event is queued behind it. */
  ghost predicate Overwrites(w: N.Worker<Reply>, step: N.Step<Reply>) {
    && step.DEPOSIT? && w.phase.DEPOSITING? && !N.Retried(w.phase.result.kind)
    && w.slot.Some? && N.Retried(w.slot.value.kind) && !EventIn(w.high) && !EventIn(w.low)
  }

  /** The steps that end a stall: a reboot, and a new event for which the queue has room. */
  ghost predicate Revives(k: Kiosk, step: Step) {
    step.REBOOT? || (step.SEND? && step.durable && N.Room(k.worker, N.BUSINESS_EVENT))
  }

  // --- What a step does to the pass ---

  lemma Queued(w: N.Worker<Reply>, q: N.NetworkRequest)
    ensures Outstanding(N.After(w, N.ENQUEUE(q))) <==> Outstanding(w) || (N.Retried(q.kind) && N.Room(w, q.kind))
  {
    var w' := N.After(w, N.ENQUEUE(q));
    assert N.Room(w, q.kind) ==> q in (if N.TierOf(q.kind) == N.PRIORITY_HIGH then w'.high else w'.low);
    assert forall x :: x in w'.high <==> x in w.high || (x == q && N.Room(w, q.kind) && N.TierOf(q.kind) == N.PRIORITY_HIGH);
    assert forall x :: x in w'.low <==> x in w.low || (x == q && N.Room(w, q.kind) && N.TierOf(q.kind) == N.PRIORITY_LOW);
    assert w'.phase == w.phase && w'.slot == w.slot;
  }

  lemma HeadAndRest(queue: seq<N.NetworkRequest>)
    requires queue != []
    ensures EventIn(queue) <==> N.Retried(queue[0].kind) || EventIn(queue[1..])
  {
    assert forall q :: q in queue <==> q == queue[0] || q in queue[1..];
  }

  /** The network task keeps what is outstanding, but for a deposit onto an event result that waits. */
  lemma TaskOutstanding(w: N.Worker<Reply>, step: N.Step<Reply>)
    requires N.Enabled(w, step) && (step.RECEIVE_HIGH? || step.RECEIVE_LOW? || step.COMPLETE? || step.DEPOSIT?)
    ensures Outstanding(N.After(w, step)) <==> Outstanding(w) && !Overwrites(w, step)
  {
    if step.RECEIVE_HIGH? && w.high != [] {
      HeadAndRest(w.high);
    }
    if step.RECEIVE_LOW? && w.low != [] {
      HeadAndRest(w.low);
    }
    hide EventIn;
  }

  lemma SendPass(k: Kiosk, r: Record, t: Transition, durable: bool, written: bool)
    ensures var k' := Sent(k, r, t, durable, written);
            && k'.replaying == k.replaying && k'.replayIds == k.replayIds && k'.replayNext == k.replayNext
            && (Outstanding(k'.worker) <==> Outstanding(k.worker) || (durable && N.Room(k.worker, N.BUSINESS_EVENT)))
  {
    Queued(k.worker, N.EventRequest(N.BUSINESS_EVENT, r.eventId, r.deviceSeq, r.payload));
    SentParts(k, r, t, durable, written);
    if durable {
      SentWorker(k, r, t, written);
    }
    hide Outstanding;
    hide N.After;
    hide Noted;
    hide AppendedEvent;
  }

  /** A poll moves the cursor when it takes an event's result while an item is out, and else leaves pass and outstanding
    * events alone; a resync queues nothing that would count. */
  lemma PollPass(k: Kiosk, t: Transition, written: bool)
    ensures var k' := Polled(k, t, written);
            var moved := k.replaying && k.worker.slot.Some? && N.Retried(k.worker.slot.value.kind);
            && k'.replaying == (k.replaying && !moved) && k'.replayIds == k.replayIds
            && k'.replayNext == k.replayNext + (if moved then 1 else 0)
            && (k.worker.slot.None? || !N.Retried(k.worker.slot.value.kind) ==> (Outstanding(k'.worker) <==> Outstanding(k.worker)))
  {
    var k1 := k.(worker := N.After(k.worker, N.POLL));
    if k.worker.slot.Some? && N.Retried(k.worker.slot.value.kind) {
      AnswerLeavesCursor(Noted(CursorMoved(k1), t, written), k.worker.slot.value);
      hide Answered;
      hide Outstanding;
      hide AppendedTransition;
    } else {
      hide Answered;
      hide EventIn;
    }
  }

  lemma TickPass(k: Kiosk, allowed: bool)
    ensures var k' := ReplayTicked(k, allowed);
            && k'.replayIds == k.replayIds && k'.replayNext >= k.replayNext
            && (k.replaying ==> k' == k)
            && (k'.replaying && !k.replaying ==> Outstanding(k'.worker))
  {
    var due := ReplayDue(k, allowed);
    hide ReplayDue;
    if due.Some? && due.value in k.index.records {
      Queued(k.worker, ReplayRequest(k.index.records[due.value]));
    }
    hide N.After;
    hide Outstanding;
    assert ReplayDue(k, allowed).Some? ==> !k.replaying by {
      ReplayDueIdle(k, allowed);
    }
  }

  lemma ReplayDueIdle(k: Kiosk, allowed: bool)
    ensures ReplayDue(k, allowed).Some? ==> !k.replaying && k.replayNext < |k.replayIds| && !Busy(k.worker) && allowed
  {
  }

  /** The pass and the network of a kiosk. */
  ghost predicate SamePass(s: System, s': System) {
    && s'.kiosk.replaying == s.kiosk.replaying && s'.kiosk.replayIds == s.kiosk.replayIds
    && s'.kiosk.replayNext == s.kiosk.replayNext && s'.pass == s.pass && s'.sent == s.sent
  }

  lemma SendStep(e: Env, s: System, step: Step)
    requires Can(e, s, step) && step.SEND?
    ensures var s' := Next(e, s, step);
            && SamePass(s, s')
            && (Outstanding(s'.kiosk.worker) <==>
                Outstanding(s.kiosk.worker) || (step.durable && N.Room(s.kiosk.worker, N.BUSINESS_EVENT)))
  {
    hide CanSend;
    SendPass(s.kiosk, step.record, InFlight(step.record, step.uptimeMs), step.durable, step.written);
    hide Sent;
    hide Outstanding;
  }

  lemma TaskStep(e: Env, s: System, step: Step)
    requires Can(e, s, step) && (step.TASK? || step.COMPLETE?)
    ensures var s', w := Next(e, s, step), s.kiosk.worker;
            && SamePass(s, s')
            && (Outstanding(s'.kiosk.worker) <==> Outstanding(w) && !(step.TASK? && Overwrites(w, step.step)))
  {
    TaskOutstanding(s.kiosk.worker, if step.TASK? then step.step else N.COMPLETE(step.result));
    hide Outstanding;
    hide N.After;
    hide EventIn;
    hide Genuine;
  }

  /** The steps that leave the device's network alone, or only ask for more of it. */
  lemma OtherStep(e: Env, s: System, step: Step)
    requires Can(e, s, step)
    requires step.REQUEST? || step.ATTEMPT? || step.SERVE? || step.FETCH? || step.ADMINISTER? || step.BEGIN? || step.TICK?
             || step.BOOTSTRAP?
    ensures var s' := Next(e, s, step);
            && s'.kiosk.replaying == s.kiosk.replaying && s'.kiosk.replayIds == s.kiosk.replayIds
            && s'.kiosk.replayNext == s.kiosk.replayNext && s'.pass == s.pass
            && (s'.sent == s.sent || (step.ATTEMPT? && Outstanding(s.kiosk.worker)))
            && (Outstanding(s'.kiosk.worker) <==> Outstanding(s.kiosk.worker))
  {
    hide S.Do;
    hide S.Recorded;
    hide BeginStep;
    hide TickStep;
    hide AfterChunk;
    if step.REQUEST? {
      Queued(s.kiosk.worker, N.NetworkRequest(step.kind, [], 0, []));
      hide Outstanding;
      hide N.After;
    } else {
      hide EventIn;
      if step.ATTEMPT? {
        assert Outstanding(s.kiosk.worker);
      } else {
        WorkerIdle(e, s, step);
        hide Next;
        hide Can;
      }
    }
  }

  lemma WorkerIdle(e: Env, s: System, step: Step)
    requires Can(e, s, step)
    requires step.SERVE? || step.FETCH? || step.ADMINISTER? || step.BEGIN? || step.TICK?
             || step.BOOTSTRAP?
    ensures var s' := Next(e, s, step);
            && s'.kiosk == s.kiosk.(index := s'.kiosk.index, projection := s'.kiosk.projection, bootstrap := s'.kiosk.bootstrap)
            && s'.pass == s.pass && s'.sent == s.sent
  {
    if step.BEGIN? || step.TICK? {
      JournalIdle(e, s, step);
      hide *;
    } else {
      hide Can;
      hide S.Do;
      hide S.Recorded;
      hide S.DeviceOf;
      hide N.After;
    }
  }

  lemma JournalIdle(e: Env, s: System, step: Step)
    requires Can(e, s, step) && (step.BEGIN? || step.TICK?)
    ensures var s' := Next(e, s, step);
            && s'.kiosk == s.kiosk.(index := s'.kiosk.index, projection := s'.kiosk.projection, bootstrap := s'.kiosk.bootstrap)
            && s'.pass == s.pass && s'.sent == s.sent
  {
    hide Can;
    hide AfterChunk;
    hide TickLog;
    hide N.After;
  }

  lemma PollStep(e: Env, s: System, step: Step)
    requires Can(e, s, step) && step.POLL?
    ensures var s', slot := Next(e, s, step), s.kiosk.worker.slot;
            && (s.kiosk.replaying && slot.Some? && N.Retried(slot.value.kind) ==> !s'.kiosk.replaying)
            && (slot.None? || !N.Retried(slot.value.kind) ==>
                  SamePass(s, s') && (Outstanding(s'.kiosk.worker) <==> Outstanding(s.kiosk.worker)))
            && (!s.kiosk.replaying ==> !s'.kiosk.replaying)
  {
    hide Polled;
    hide CanPoll;
    var s' := Next(e, s, step);
    assert s'.kiosk == Polled(s.kiosk, step.t, step.written).(index := step.end.index) && s'.pass == s.pass && s'.sent == s.sent;
    hide Next;
    hide Can;
    PollPass(s.kiosk, step.t, step.written);
    hide Outstanding;
  }

  lemma ReplayStep(e: Env, s: System, step: Step)
    requires Can(e, s, step) && (step.REPLAY_START? || step.REPLAY_TICK?)
    ensures var s' := Next(e, s, step);
            && (s.kiosk.replaying ==> SamePass(s, s') && s'.kiosk.worker == s.kiosk.worker)
            && (s'.kiosk.replaying && !s.kiosk.replaying ==> Outstanding(s'.kiosk.worker))
  {
    hide ReplayList;
    if step.REPLAY_TICK? {
      TickPass(s.kiosk, step.allowed);
      hide ReplayTicked;
    }
    hide Outstanding;
  }

  lemma RebootIdles(e: Env, s: System, step: Step)
    requires Can(e, s, step) && step.REBOOT?
    ensures !Next(e, s, step).kiosk.replaying
  {
    hide Boot;
  }

  // --- When a pass stalls ---

  /** A pass that goes on stalls in exactly one way: a result that is not an event's is deposited over the event result
    * the pass waits for, with no other event behind it. */
  lemma StallExactly(e: Env, s: System, step: Step)
    requires Can(e, s, step) && !Stalled(s.kiosk)
    ensures Stalled(Next(e, s, step).kiosk) <==> s.kiosk.replaying && step.TASK? && Overwrites(s.kiosk.worker, step.step)
  {
    hide Next;
    hide Can;
    hide Outstanding;
    hide Overwrites;
    match step {
      case SEND(_, _, _, _, _, _, _) => SendStep(e, s, step);
      case TASK(_) => TaskStep(e, s, step);
      case COMPLETE(_) => TaskStep(e, s, step);
      case POLL(_, _, _) => PollStep(e, s, step);
      case REPLAY_START(_) => ReplayStep(e, s, step);
      case REPLAY_TICK(_) => ReplayStep(e, s, step);
      case REBOOT(_, _, _) => RebootIdles(e, s, step);
      case _ => OtherStep(e, s, step);
    }
  }

  /** A stalled pass goes on exactly when the device reboots or a new event gets into the queue; until then nothing is
    * sent and the cursor stands, whatever else happens. */
  lemma StallEnds(e: Env, s: System, step: Step)
    requires Can(e, s, step) && Stalled(s.kiosk)
    ensures var s' := Next(e, s, step);
            && (Stalled(s'.kiosk) <==> !Revives(s.kiosk, step))
            && (!step.REBOOT? ==> SamePass(s, s'))
  {
    hide Next;
    hide Can;
    assert s.kiosk.worker.slot.Some? ==> !N.Retried(s.kiosk.worker.slot.value.kind);
    hide Outstanding;
    hide Overwrites;
    match step {
      case SEND(_, _, _, _, _, _, _) => SendStep(e, s, step);
      case TASK(_) => TaskStep(e, s, step);
      case COMPLETE(_) => TaskStep(e, s, step);
      case POLL(_, _, _) => PollStep(e, s, step);
      case REPLAY_START(_) => ReplayStep(e, s, step);
      case REPLAY_TICK(_) => ReplayStep(e, s, step);
      case REBOOT(_, _, _) => RebootIdles(e, s, step);
      case _ => OtherStep(e, s, step);
    }
  }

  /** Over any stretch without a reboot and without a new event that is queued, a stalled pass stays where it is: no
    * replay is sent, and no new pass starts. */
  lemma {:induction false} StalledStays(e: Env, steps: seq<Step>, states: seq<System>)
    requires Stretch(e, steps, states) && Stalled(states[0].kiosk)
    requires forall i | 0 <= i < |steps| :: !Revives(states[i].kiosk, steps[i])
    ensures Stalled(states[|steps|].kiosk) && SamePass(states[0], states[|steps|])
    decreases |steps|
  {
    hide Stalled;
    hide Can;
    hide Next;
    var n := |steps|;
    if n > 0 {
      assert states[..n][n - 1] == states[n - 1];
      StalledStays(e, steps[..n - 1], states[..n]);
      StallEnds(e, states[n - 1], steps[n - 1]);
    }
  }

  /** A main loop that polls between any two deposits never stalls. */
  lemma {:induction false} NeverStalls(e: Env, steps: seq<Step>, states: seq<System>)
    requires Run(e, steps, states)
    requires forall i | 0 <= i < |steps| && steps[i] == TASK(N.DEPOSIT) :: states[i].kiosk.worker.slot.None?
    ensures forall i | 0 <= i < |states| :: !Stalled(states[i].kiosk)
    decreases |steps|
  {
    hide Can;
    hide Next;
    hide Outstanding;
    var n := |steps|;
    if n > 0 {
      assert forall i | 0 <= i < n :: states[..n][i] == states[i];
      assert forall i | 0 <= i < n - 1 :: steps[..n - 1][i] == steps[i];
      NeverStalls(e, steps[..n - 1], states[..n]);
      assert !Stalled(states[n - 1].kiosk);
      hide Stalled;
      StallExactly(e, states[n - 1], steps[n - 1]);
    }
  }

  // --- How a pass ends ---

  /** What taking on a request adds to the work of the device, at most. */
  function ItemWeight(kind: N.Kind): (n: nat) {
    if N.Retried(kind) then 24 else 8
  }

  function QueueWeight(queue: seq<N.NetworkRequest>): (n: nat) {
    if queue == [] then 0 else ItemWeight(queue[0].kind) - 1 + QueueWeight(queue[1..])
  }

  lemma {:induction false} WeightAppend(queue: seq<N.NetworkRequest>, q: N.NetworkRequest)
    ensures QueueWeight(queue + [q]) == QueueWeight(queue) + ItemWeight(q.kind) - 1
    decreases |queue|
  {
    if queue == [] {
      assert [q][1..] == [];
    } else {
      assert (queue + [q])[1..] == queue[1..] + [q];
      WeightAppend(queue[1..], q);
    }
  }

  function PhaseWeight(w: N.Worker<Reply>): (n: nat) {
    match w.phase
    case CHECK_HIGH => 1
    case WAIT_LOW => if w.low != [] then 0 else if w.high != [] then 2 else 1
    case RUNNING(q) => ItemWeight(q.kind) - 3
    case DEPOSITING(res) => ItemWeight(res.kind) - 4
  }

  function WorkerWeight(w: N.Worker<Reply>): (n: nat) {
    QueueWeight(w.high) + QueueWeight(w.low) + PhaseWeight(w) + (if w.slot.Some? then ItemWeight(w.slot.value.kind) - 6 else 0)
  }

  /** How many steps of work are left of a pass, at most, when no request is added. */
  function Remaining(k: Kiosk): (n: nat)
    requires k.replayNext <= |k.replayIds|
  {
    64 * (|k.replayIds| - k.replayNext) + (if k.replaying then 0 else 32) + WorkerWeight(k.worker)
  }

  /** A step that gets on with the work: a poll that finds a result, a tick that sends or skips the next item of the pass,
    * a step of the network task other than looking into two empty queues. */
  ghost predicate Productive(k: Kiosk, step: Step) {
    match step
    case POLL(_, _, _) => k.worker.slot.Some?
    case REPLAY_TICK(allowed) => ReplayTicked(k, allowed) != k
    case TASK(task) => (task.RECEIVE_HIGH? || task.RECEIVE_LOW?) ==> k.worker.high != [] || k.worker.low != []
    case COMPLETE(_) => true
    case _ => false
  }

  /** The work a step adds: a new event or another request, if there is room for it. */
  function Added(step: Step): (n: nat) {
    if step.SEND? then (if step.durable then ItemWeight(N.BUSINESS_EVENT) else 0)
    else if step.REQUEST? then ItemWeight(step.kind)
    else 0
  }

  lemma QueuedWeight(w: N.Worker<Reply>, q: N.NetworkRequest)
    ensures WorkerWeight(N.After(w, N.ENQUEUE(q))) <= WorkerWeight(w) + ItemWeight(q.kind)
  {
    WeightAppend(w.high, q);
    WeightAppend(w.low, q);
    hide QueueWeight;
  }

  /** The network task only works off: whatever waits in the slot, and whatever it puts there. */
  lemma TaskWeight(w: N.Worker<Reply>, step: N.Step<Reply>)
    requires N.Enabled(w, step) && (step.RECEIVE_HIGH? || step.RECEIVE_LOW? || step.COMPLETE? || step.DEPOSIT?)
    ensures WorkerWeight(N.After(w, step)) <= WorkerWeight(w)
    ensures w.high != [] || w.low != [] || step.COMPLETE? || step.DEPOSIT? ==> WorkerWeight(N.After(w, step)) < WorkerWeight(w)
  {
  }

  lemma AnswerWeight(k: Kiosk, res: N.NetworkResult<Reply>)
    ensures WorkerWeight(Answered(k, res).worker) <= WorkerWeight(k.worker) + 8
  {
    QueuedWeight(k.worker, STATE_FETCH);
    hide N.After;
    hide WorkerWeight;
  }

  lemma PollWeight(k: Kiosk, t: Transition, written: bool)
    ensures WorkerWeight(Polled(k, t, written).worker) <= WorkerWeight(k.worker)
    ensures k.worker.slot.Some? ==> WorkerWeight(Polled(k, t, written).worker) < WorkerWeight(k.worker)
  {
    if k.worker.slot.Some? {
      var k1 := k.(worker := N.After(k.worker, N.POLL));
      var kind := k.worker.slot.value.kind;
      assert WorkerWeight(k1.worker) == WorkerWeight(k.worker) - (ItemWeight(kind) - 6);
      hide WorkerWeight;
      hide N.After;
      if N.Retried(kind) {
        AnswerWeight(Noted(CursorMoved(k1), t, written), k.worker.slot.value);
        assert Noted(CursorMoved(k1), t, written).worker == k1.worker;
        hide Answered;
        hide Noted;
      }
    }
  }

  /** What each step does to the work left of an unfinished pass: a productive one takes at least one off, an input adds
    * what it adds, no other step, on the device, the network or the server, adds anything. */
  ghost predicate Accounted(k: Kiosk, step: Step, k': Kiosk)
    requires k.replayNext <= |k.replayIds|
  {
    && k'.replayIds == k.replayIds && k'.replayNext <= |k'.replayIds|
    && Remaining(k') + (if Productive(k, step) then 1 else 0) <= Remaining(k) + Added(step)
  }

  lemma WorkAccounted(e: Env, s: System, step: Step)
    requires Can(e, s, step) && !step.REBOOT? && s.kiosk.replayNext < |s.kiosk.replayIds|
    ensures Accounted(s.kiosk, step, Next(e, s, step).kiosk)
  {
    hide *;
    match step {
      case SEND(_, _, _, _, _, _, _) => SendWork(e, s, step);
      case REQUEST(_) => RequestWork(e, s, step);
      case TASK(_) => TaskWork(e, s, step);
      case COMPLETE(_) => TaskWork(e, s, step);
      case POLL(_, _, _) => PollWork(e, s, step);
      case REPLAY_START(_) => StartWork(e, s, step);
      case REPLAY_TICK(_) => TickWork(e, s, step);
      case ATTEMPT => BackgroundWork(e, s, step);
      case _ => BackgroundWork(e, s, step);
    }
  }

  lemma SendWork(e: Env, s: System, step: Step)
    requires Can(e, s, step) && step.SEND? && s.kiosk.replayNext < |s.kiosk.replayIds|
    ensures Accounted(s.kiosk, step, Next(e, s, step).kiosk)
  {
    hide CanSend;
    hide AfterSend;
    var r, t := step.record, InFlight(step.record, step.uptimeMs);
    var s' := Next(e, s, step);
    assert s' == AfterSend(e, s, step);
    hide Can;
    hide Next;
    SendMemory(e, s, step, s');
    if step.durable {
      SentWorker(s.kiosk, r, t, step.written);
      QueuedWeight(s.kiosk.worker, N.EventRequest(N.BUSINESS_EVENT, r.eventId, r.deviceSeq, r.payload));
    } else {
      assert Sent(s.kiosk, r, t, false, step.written) == s.kiosk;
    }
    hide Sent;
    hide N.After;
    hide WorkerWeight;
  }

  lemma RequestWork(e: Env, s: System, step: Step)
    requires Can(e, s, step) && step.REQUEST? && s.kiosk.replayNext < |s.kiosk.replayIds|
    ensures Accounted(s.kiosk, step, Next(e, s, step).kiosk)
  {
    var q := N.NetworkRequest(step.kind, [], 0, []);
    assert Next(e, s, step).kiosk == s.kiosk.(worker := N.After(s.kiosk.worker, N.ENQUEUE(q)));
    QueuedWeight(s.kiosk.worker, q);
    hide Next;
    hide Can;
    hide N.After;
    hide WorkerWeight;
  }

  lemma TaskWork(e: Env, s: System, step: Step)
    requires Can(e, s, step) && (step.TASK? || step.COMPLETE?) && s.kiosk.replayNext < |s.kiosk.replayIds|
    ensures Accounted(s.kiosk, step, Next(e, s, step).kiosk)
  {
    hide Genuine;
    var task := if step.TASK? then step.step else N.COMPLETE(step.result);
    assert Next(e, s, step).kiosk == s.kiosk.(worker := N.After(s.kiosk.worker, task));
    TaskWeight(s.kiosk.worker, task);
    hide Next;
    hide Can;
    hide N.After;
    hide WorkerWeight;
  }

  lemma PollWork(e: Env, s: System, step: Step)
    requires Can(e, s, step) && step.POLL? && s.kiosk.replayNext < |s.kiosk.replayIds|
    ensures Accounted(s.kiosk, step, Next(e, s, step).kiosk)
  {
    hide Polled;
    hide CanPoll;
    var k, k' := s.kiosk, Next(e, s, step).kiosk;
    assert k' == Polled(k, step.t, step.written).(index := step.end.index);
    hide Next;
    hide Can;
    PollPass(k, step.t, step.written);
    PollWeight(k, step.t, step.written);
    hide WorkerWeight;
    hide Outstanding;
  }

  lemma StartWork(e: Env, s: System, step: Step)
    requires Can(e, s, step) && step.REPLAY_START? && s.kiosk.replayNext < |s.kiosk.replayIds|
    ensures Accounted(s.kiosk, step, Next(e, s, step).kiosk)
  {
    hide ReplayList;
    hide WorkerWeight;
    assert Next(e, s, step).kiosk == s.kiosk;
  }

  lemma TickWork(e: Env, s: System, step: Step)
    requires Can(e, s, step) && step.REPLAY_TICK? && s.kiosk.replayNext < |s.kiosk.replayIds|
    ensures Accounted(s.kiosk, step, Next(e, s, step).kiosk)
  {
    assert Next(e, s, step).kiosk == ReplayTicked(s.kiosk, step.allowed);
    hide Next;
    hide Can;
    TickRemaining(s.kiosk, step.allowed);
    hide ReplayTicked;
    hide WorkerWeight;
  }

  lemma TickRemaining(k: Kiosk, allowed: bool)
    requires k.replayNext < |k.replayIds|
    ensures var k' := ReplayTicked(k, allowed);
            k'.replayIds == k.replayIds && k'.replayNext <= |k'.replayIds| && (k' == k || Remaining(k') < Remaining(k))
  {
    ReplayDueIdle(k, allowed);
    var due := ReplayDue(k, allowed);
    hide ReplayDue;
    if due.Some? && due.value in k.index.records {
      LowWeight(k.worker, ReplayRequest(k.index.records[due.value]));
    }
    hide N.After;
    hide WorkerWeight;
  }

  lemma LowWeight(w: N.Worker<Reply>, q: N.NetworkRequest)
    ensures WorkerWeight(N.After(w, N.ENQUEUE(q))) <= WorkerWeight(w) + ItemWeight(q.kind)
  {
    QueuedWeight(w, q);
  }

  lemma BackgroundWork(e: Env, s: System, step: Step)
    requires Can(e, s, step) && s.kiosk.replayNext < |s.kiosk.replayIds|
    requires step.ATTEMPT? || step.SERVE? || step.FETCH? || step.ADMINISTER? || step.BEGIN? || step.TICK? || step.BOOTSTRAP?
    ensures Accounted(s.kiosk, step, Next(e, s, step).kiosk)
  {
    hide WorkerWeight;
    if step.ATTEMPT? {
      assert Next(e, s, step).kiosk == s.kiosk;
    } else {
      hide Can;
      WorkerIdle(e, s, step);
      hide Next;
    }
  }

  /** How many of the steps were productive, and how much work was added. */
  ghost function Work(steps: seq<Step>, states: seq<System>): (n: nat)
    requires |states| == |steps| + 1
  {
    if steps == [] then 0 else (if Productive(states[0].kiosk, steps[0]) then 1 else 0) + Work(steps[1..], states[1..])
  }

  function AddedBy(steps: seq<Step>): (n: nat) {
    if steps == [] then 0 else Added(steps[0]) + AddedBy(steps[1..])
  }

  /** The pass that `k` was in is over. */
  ghost predicate Finished(k: Kiosk, k': Kiosk) {
    k'.replayIds == k.replayIds && k'.replayNext == |k.replayIds|
  }

  /** A pass ends. Whatever else happens, on the network, at the server, in the journal and at the keypad, whatever the
    * answers are and however many items fail: no stretch without a reboot holds more productive steps than the work that
    * was left, and that the operator and the main loop added, unless the pass has come to its end on the way. */
  lemma {:induction false} PassEnds(e: Env, steps: seq<Step>, states: seq<System>)
    requires Stretch(e, steps, states) && states[0].kiosk.replayNext <= |states[0].kiosk.replayIds|
    requires forall i | 0 <= i < |steps| :: !steps[i].REBOOT?
    requires Work(steps, states) >= Remaining(states[0].kiosk) + AddedBy(steps)
    ensures exists i :: 0 <= i < |states| && Finished(states[0].kiosk, states[i].kiosk)
    decreases |steps|
  {
    hide Can;
    hide Next;
    hide Remaining;
    hide Productive;
    hide Added;
    var k := states[0].kiosk;
    if k.replayNext == |k.replayIds| {
      assert Finished(k, states[0].kiosk);
    } else {
      RemainingPositive(k);
      WorkAccounted(e, states[0], steps[0]);
      PassEnds(e, steps[1..], states[1..]);
      var i :| 0 <= i < |states[1..]| && Finished(states[1].kiosk, states[1..][i].kiosk);
      assert Finished(k, states[i + 1].kiosk);
    }
  }

  lemma RemainingPositive(k: Kiosk)
    requires k.replayNext < |k.replayIds|
    ensures Remaining(k) > 0
  {
    hide WorkerWeight;
  }

  /** And work can always go on: in a pass that is neither finished nor stalled some productive step is possible, whatever
    * the network does. */
  lemma WorkPossible(e: Env, s: System) returns (step: Step)
    requires s.kiosk.replayNext < |s.kiosk.replayIds| && !Stalled(s.kiosk)
    ensures Can(e, s, step) && Productive(s.kiosk, step) && !step.REBOOT?
    ensures !step.POLL? ==> s.kiosk.worker.slot.None?
  {
    var w := s.kiosk.worker;
    if w.slot.Some? {
      var t := NoteFor(w.slot.value, 0);
      step := POLL(t, false, Journal(s));
      PollPossible(s, t);
    } else if w.high == [] && w.low == [] && !w.phase.RUNNING? && !w.phase.DEPOSITING? {
      step := REPLAY_TICK(true);
      IdleTick(s.kiosk);
    } else {
      match w.phase {
        case RUNNING(q) =>
          step := COMPLETE(N.NetworkResult(q.kind, q.eventId, q.deviceSeq, N.HttpOutcome(false, true, N.WIFI_DOWN), 0, Garbled));
        case DEPOSITING(_) => step := TASK(N.DEPOSIT);
        case CHECK_HIGH => step := TASK(N.RECEIVE_HIGH);
        case WAIT_LOW => step := TASK(N.RECEIVE_LOW);
      }
    }
    hide Stalled;
    hide ReplayTicked;
    hide CanPoll;
  }

  lemma PollPossible(s: System, t: Transition)
    requires s.kiosk.worker.slot.Some? && TransitionFor(s.kiosk.worker.slot.value, t)
    ensures CanPoll(s, t, false, Journal(s))
  {
    NothingWritten(Journal(s), t);
    hide TransitionAppended;
  }

  /** With nothing to do anywhere, the next item of the pass goes out. */
  lemma IdleTick(k: Kiosk)
    requires k.replayNext < |k.replayIds| && !Stalled(k)
    requires k.worker.slot.None? && k.worker.high == [] && k.worker.low == [] && !k.worker.phase.RUNNING? && !k.worker.phase.DEPOSITING?
    ensures ReplayTicked(k, true) != k
  {
    assert !Outstanding(k.worker);
  }
}
