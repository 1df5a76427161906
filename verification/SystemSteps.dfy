/** Every step of the system keeps its invariant. */
module SystemSteps {
  import opened Bytes
  import opened Frames
  import opened JournalRecord
  import opened JournalIndex
  import opened IndexLaws
  import opened EventJournal
  import opened CompactionWindow
  import opened KioskRuntime
  import opened KioskSystem
  import opened SystemFrames
  import N = NetworkWorker
  import S = MockBackend

  lemma StartInv(e: Env)
    requires e.block >= 1
    ensures Inv(e, Start(e))
  {
    assert Recovered([]) == [];
  }

  // --- The network task ---

  lemma RequestKeeps(e: Env, s: System, kind: N.Kind)
    requires Inv(e, s) && Can(e, s, REQUEST(kind))
    ensures Inv(e, Next(e, s, REQUEST(kind)))
  {
    var s' := Next(e, s, REQUEST(kind));
    var q := N.NetworkRequest(kind, [], 0, []);
    assert Quiet(s, s') && s'.kiosk == s.kiosk.(worker := N.After(s.kiosk.worker, N.ENQUEUE(q))) && s'.sent == s.sent;
    assert Carried(s, q) && s'.pass == s.pass;
    InvParts(e, s);
    hide *;
    QuietFrame(e, s, s');
    QueuedKeeps(e, s, q, s');
    ReplayFrame(s, s');
    InvMade(e, s');
  }

  /** A request that belongs in the queue, queued. */
  lemma QueuedKeeps(e: Env, s: System, q: N.NetworkRequest, s': System)
    requires Bodies(e, s) && Results(e, s) && Carried(s, q)
    requires s' == s.(kiosk := s'.kiosk, sent := s'.sent, pass := s'.pass) && s'.sent == s.sent
    requires s'.kiosk.worker == N.After(s.kiosk.worker, N.ENQUEUE(q)) && s'.kiosk.bootstrap == s.kiosk.bootstrap
    ensures Bodies(e, s') && Results(e, s')
  {
    CarriedFrame(s, s');
    hide Carried;
    hide Composed;
    var w, w' := s.kiosk.worker, s'.kiosk.worker;
    assert w'.phase == w.phase && w'.slot == w.slot;
    assert forall x :: x in w'.high ==> x in w.high || x == q;
    assert forall x :: x in w'.low ==> x in w.low || x == q;
    hide N.After;
  }

  lemma TaskKeeps(e: Env, s: System, task: N.Step<Reply>)
    requires Inv(e, s) && Can(e, s, TASK(task))
    ensures Inv(e, Next(e, s, TASK(task)))
  {
    var s' := Next(e, s, TASK(task));
    assert Quiet(s, s') && s'.kiosk == s.kiosk.(worker := s'.kiosk.worker) && s'.pass == s.pass;
    InvParts(e, s);
    hide *;
    QuietFrame(e, s, s');
    TaskBodies(e, s, task, s');
    TaskResults(e, s, task, s');
    ReplayFrame(s, s');
    InvMade(e, s');
  }

  lemma TaskBodies(e: Env, s: System, task: N.Step<Reply>, s': System)
    requires Bodies(e, s) && Can(e, s, TASK(task)) && s' == Next(e, s, TASK(task))
    ensures Bodies(e, s')
  {
    hide Carried;
    hide Composed;
    var w, w' := s.kiosk.worker, s'.kiosk.worker;
    CarriedFrame(s, s');
    assert forall q :: q in w'.high ==> q in w.high;
    assert forall q :: q in w'.low ==> q in w.low;
    assert task.RECEIVE_HIGH? && w.high != [] ==> w.high[0] in w.high;
    assert task.RECEIVE_LOW? && w.low != [] ==> w.low[0] in w.low;
  }

  lemma TaskResults(e: Env, s: System, task: N.Step<Reply>, s': System)
    requires Results(e, s) && Can(e, s, TASK(task)) && s' == Next(e, s, TASK(task))
    ensures Results(e, s')
  {
    assert forall res :: Truthful(e, s, res) ==> Truthful(e, s', res);
  }

  lemma AttemptKeeps(e: Env, s: System)
    requires Inv(e, s) && Can(e, s, ATTEMPT)
    ensures Inv(e, Next(e, s, ATTEMPT))
  {
    var s' := Next(e, s, ATTEMPT);
    assert Quiet(s, s') && s'.kiosk == s.kiosk && s'.pass == s.pass;
    InvParts(e, s);
    hide *;
    QuietFrame(e, s, s');
    ResultsFrame(e, s, s');
    ReplayFrame(s, s');
    AttemptBodies(e, s, s');
    InvMade(e, s');
  }

  lemma AttemptBodies(e: Env, s: System, s': System)
    requires Bodies(e, s) && Can(e, s, ATTEMPT) && s' == Next(e, s, ATTEMPT)
    ensures Bodies(e, s')
  {
    hide Composed;
    var q := s.kiosk.worker.phase.request;
    assert s.created[q.eventId].payload == q.body;
    CarriedFrame(s, s');
    hide Carried;
  }

  lemma CompleteKeeps(e: Env, s: System, res: N.NetworkResult<Reply>)
    requires Inv(e, s) && Can(e, s, COMPLETE(res))
    ensures Inv(e, Next(e, s, COMPLETE(res)))
  {
    var s' := Next(e, s, COMPLETE(res));
    assert Quiet(s, s') && s'.kiosk == s.kiosk.(worker := s'.kiosk.worker) && s'.pass == s.pass;
    InvParts(e, s);
    hide *;
    QuietFrame(e, s, s');
    ReplayFrame(s, s');
    CompleteResults(e, s, res, s');
    InvMade(e, s');
  }

  lemma CompleteResults(e: Env, s: System, res: N.NetworkResult<Reply>, s': System)
    requires Bodies(e, s) && CacheMatches(e, s) && Results(e, s)
    requires Can(e, s, COMPLETE(res)) && s' == Next(e, s, COMPLETE(res))
    ensures Bodies(e, s') && Results(e, s')
  {
    CompleteTruthful(e, s, res, s');
    hide Truthful;
    hide Genuine;
    hide Composed;
    CarriedFrame(s, s');
    hide Carried;
  }

  lemma CompleteTruthful(e: Env, s: System, res: N.NetworkResult<Reply>, s': System)
    requires Bodies(e, s) && CacheMatches(e, s)
    requires Can(e, s, COMPLETE(res)) && s' == Next(e, s, COMPLETE(res))
    ensures Truthful(e, s', res) && forall r :: Truthful(e, s, r) ==> Truthful(e, s', r)
  {
    var q := s.kiosk.worker.phase.request;
    if N.Retried(q.kind) {
      assert Carried(s, q);
      assert Composed(e, s.created[q.eventId]);
    }
    hide Encodable;
  }

  lemma FetchKeeps(e: Env, s: System)
    requires Inv(e, s)
    ensures Inv(e, Next(e, s, FETCH))
  {
    var s' := Next(e, s, FETCH);
    assert s' == s.(fetched := s'.fetched) && s.fetched <= s'.fetched;
    assert Remembered(s, s') && Journal(s') == Journal(s);
    FetchPast(e, s, s');
    InvParts(e, s);
    hide *;
    BodiesFrame(e, s, s');
    CacheFrame(e, s, s');
    ResultsFrame(e, s, s');
    DurableFrame(e, s, s');
    WindowFrame(e, s, s');
    ServerRunFrame(e, s, s');
    ReplayFrame(s, s');
    NumberedFrame(e, s, s');
    InvMade(e, s');
  }

  lemma FetchPast(e: Env, s: System, s': System)
    requires Inv(e, s) && s' == Next(e, s, FETCH)
    ensures Snapshots(e, s')
  {
    InvParts(e, s);
    hide Inv;
    hide S.DeviceOf;
    assert Past(s', S.SnapshotOf(S.DeviceOf(s.server, e.deviceId)));
  }

  // --- Replay ---

  /** An event's id and body are copied into the request whole. */
  lemma WholeRequest(kind: N.Kind, r: Record)
    requires Encodable(r) && |r.eventId| < N.MAX_EVENT_ID_BYTES && |r.payload| < N.MAX_BODY_BYTES
    ensures N.EventRequest(kind, r.eventId, r.deviceSeq, r.payload) == N.NetworkRequest(kind, r.eventId, r.deviceSeq, r.payload)
  {
    N.WholeSlot(kind, r.eventId, r.deviceSeq, r.payload);
    hide N.EventRequest;
  }

  lemma ReplayTickKeeps(e: Env, s: System, allowed: bool)
    requires Inv(e, s)
    ensures Inv(e, Next(e, s, REPLAY_TICK(allowed)))
  {
    var s' := Next(e, s, REPLAY_TICK(allowed));
    TickQuiet(e, s, allowed, s');
    InvParts(e, s);
    ReplayTickWhole(e, s);
    hide *;
    QuietFrame(e, s, s');
    ReplayTickBodies(e, s, allowed, s');
    ReplayTickCursor(s, allowed, s');
    InvMade(e, s');
  }

  lemma TickQuiet(e: Env, s: System, allowed: bool, s': System)
    requires s' == Next(e, s, REPLAY_TICK(allowed))
    ensures Quiet(s, s') && s'.kiosk == ReplayTicked(s.kiosk, allowed) && s'.created == s.created
    ensures s'.sent == s.sent
    ensures s'.pass == if s'.kiosk.replaying && !s.kiosk.replaying then s.pass + [s.kiosk.replayNext] else s.pass
  {
    hide N.After;
  }

  /** What is queued for a record is the body its event was journaled with, whole. */
  ghost predicate Replayable(s: System, records: map<bytes, Record>) {
    forall id | id in records :: Carried(s, ReplayRequest(records[id]))
  }

  lemma ReplayTickWhole(e: Env, s: System)
    requires Bodies(e, s) && Good(e, s, s.kiosk.index.records)
    ensures Replayable(s, s.kiosk.index.records)
  {
    hide Encodable;
    forall id | id in s.kiosk.index.records
      ensures Carried(s, ReplayRequest(s.kiosk.index.records[id]))
    {
      var r := s.kiosk.index.records[id];
      assert GoodRecord(e, s, id, r);
      assert Composed(e, s.created[id]);
      WholeRequest(N.OFFLINE_REPLAY, r);
    }
  }

  lemma ReplayTickBodies(e: Env, s: System, allowed: bool, s': System)
    requires Bodies(e, s) && Results(e, s) && Replayable(s, s.kiosk.index.records)
    requires s' == s.(kiosk := ReplayTicked(s.kiosk, allowed), pass := s'.pass)
    ensures Bodies(e, s') && Results(e, s')
  {
    var due := ReplayDue(s.kiosk, allowed);
    hide ReplayDue;
    hide N.EventRequest;
    hide Carried;
    if due.Some? && due.value in s.kiosk.index.records && N.Room(s.kiosk.worker, N.OFFLINE_REPLAY) {
      hide N.After;
      hide Bodies;
      hide Results;
      QueuedKeeps(e, s, ReplayRequest(s.kiosk.index.records[due.value]), s');
    } else {
      hide Bodies;
      hide Results;
      BodiesFrame(e, s, s');
      ResultsFrame(e, s, s');
    }
  }

  lemma ReplayTickCursor(s: System, allowed: bool, s': System)
    requires Replay(s) && s'.kiosk == ReplayTicked(s.kiosk, allowed) && s'.created == s.created
    requires s'.pass == if s'.kiosk.replaying && !s.kiosk.replaying then s.pass + [s.kiosk.replayNext] else s.pass
    ensures Replay(s')
  {
    hide N.After;
    assert s'.kiosk.replayIds == s.kiosk.replayIds;
    forall n | n in s'.pass
      ensures n < |s'.kiosk.replayIds| && n < s'.kiosk.replayNext + (if s'.kiosk.replaying then 1 else 0)
    {
      assert n in s.pass || n == s.kiosk.replayNext;
    }
    forall i, j | 0 <= i < j < |s'.pass|
      ensures s'.pass[i] < s'.pass[j]
    {
      if j == |s.pass| {
        assert s.pass[i] in s.pass;
      }
    }
  }

  lemma ReplayStartKeeps(e: Env, s: System, ids: seq<bytes>)
    requires Inv(e, s) && Can(e, s, REPLAY_START(ids))
    ensures Inv(e, Next(e, s, REPLAY_START(ids)))
  {
    var s' := Next(e, s, REPLAY_START(ids));
    StartQuiet(e, s, ids, s');
    InvParts(e, s);
    hide *;
    ReplayStartOrder(e, s, ids, s');
    QuietFrame(e, s, s');
    BodiesFrame(e, s, s');
    ResultsFrame(e, s, s');
    InvMade(e, s');
  }

  lemma StartQuiet(e: Env, s: System, ids: seq<bytes>, s': System)
    requires Can(e, s, REPLAY_START(ids)) && s' == Next(e, s, REPLAY_START(ids))
    ensures Quiet(s, s') && s'.kiosk.worker == s.kiosk.worker && s'.sent == s.sent && ReplayList(s.kiosk.index.records, ids)
    ensures s' == s.(kiosk := ReplayStarted(s.kiosk, ids), pass := if s'.kiosk == s.kiosk then s.pass else [])
  {
    hide ReplayList;
  }

  /** A pass starts from the backlog in creation order. */
  lemma ReplayStartOrder(e: Env, s: System, ids: seq<bytes>, s': System)
    requires Replay(s) && Numbered(e, s) && Good(e, s, s.kiosk.index.records) && ReplayList(s.kiosk.index.records, ids)
    requires s' == s.(kiosk := ReplayStarted(s.kiosk, ids), pass := if s'.kiosk == s.kiosk then s.pass else [])
    ensures Replay(s')
  {
    if s'.kiosk != s.kiosk {
      BacklogOrder(e, s, ids);
      hide Numbered;
      hide Good;
      hide ReplayList;
    } else {
      ReplayFrame(s, s');
    }
  }

  lemma BacklogOrder(e: Env, s: System, ids: seq<bytes>)
    requires Numbered(e, s) && Good(e, s, s.kiosk.index.records) && ReplayList(s.kiosk.index.records, ids)
    ensures forall id <- ids :: id in s.created
    ensures forall i, j | 0 <= i < j < |ids| :: s.created[ids[i]].deviceSeq < s.created[ids[j]].deviceSeq
  {
    hide Encodable;
    forall id <- ids
      ensures id in s.created && s.created[id].deviceSeq == s.kiosk.index.records[id].deviceSeq
    {
      assert GoodRecord(e, s, id, s.kiosk.index.records[id]);
    }
    hide Good;
    forall i, j | 0 <= i < j < |ids|
      ensures s.created[ids[i]].deviceSeq < s.created[ids[j]].deviceSeq
    {
      assert ids[i] in ids && ids[j] in ids && ids[i] != ids[j];
    }
  }

  // --- The server ---

  /** Serving a sent body: it is the journaled body of exactly one event. */
  lemma SentBody(e: Env, s: System, body: bytes) returns (id: bytes)
    requires Bodies(e, s) && body in s.sent
    ensures id in s.created && s.created[id].payload == body
    ensures e.parse(body).deviceId == e.deviceId && e.parse(body).eventId == id
  {
    id :| id in s.created && s.created[id].payload == body;
    assert Composed(e, s.created[id]);
  }

  ghost predicate NewEntry(f: S.Fixtures, s: S.Server, op: S.ServerOp, key: (bytes, bytes))
    requires op.POST? && key in S.Do(f, s, op).cache
  {
    var entry := S.Do(f, s, op).cache[key];
    key == (op.request.deviceId, op.request.eventId) && entry.request == op.request && !entry.response.KeyReuseMismatch?
  }

  lemma DoKeepsCache(f: S.Fixtures, s: S.Server, op: S.ServerOp)
    ensures forall key | key in s.cache :: key in S.Do(f, s, op).cache && S.Do(f, s, op).cache[key] == s.cache[key]
    ensures !op.POST? ==> S.Do(f, s, op).cache == s.cache
    ensures op.POST? ==> forall key | key in S.Do(f, s, op).cache :: (key in s.cache || NewEntry(f, s, op, key))
  {
    hide S.ApplyEvent;
    hide S.DeviceOf;
  }

  lemma ServerKeeps(e: Env, s: System, op: S.ServerOp)
    requires Inv(e, s)
    requires op.POST? ==> exists id | id in s.created :: op.request == e.parse(s.created[id].payload)
    ensures Inv(e, Served(e, s, op))
  {
    var s' := Served(e, s, op);
    InvParts(e, s);
    hide Inv;
    DoKeepsCache(e.fixtures, s.server, op);
    ServerCache(e, s, op);
    ServerSnapshots(e, s, op);
    RunExtends(e.fixtures, s.ops, op);
    assert ServerRun(e, s');
    assert s' == s.(server := s'.server, history := s'.history, ops := s'.ops);
    assert forall key | key in s.server.cache :: key in s'.server.cache && s'.server.cache[key] == s.server.cache[key];
    hide *;
    ServerFrame(e, s, s');
    ServerResults(e, s, s');
    InvMade(e, s');
  }

  lemma ServerSnapshots(e: Env, s: System, op: S.ServerOp)
    requires Snapshots(e, s)
    ensures Snapshots(e, Served(e, s, op))
  {
    S.ChronicleStep(e.fixtures, s.server, op, e.deviceId, s.history);
    hide S.Do;
    hide S.Chronicle;
    hide S.Recorded;
  }

  lemma ServerFrame(e: Env, s: System, s': System)
    requires Bodies(e, s) && Durable(e, s) && Window(e, s) && Replay(s) && Numbered(e, s)
    requires s' == s.(server := s'.server, history := s'.history, ops := s'.ops)
    requires forall key | key in s.server.cache :: key in s'.server.cache && s'.server.cache[key] == s.server.cache[key]
    ensures Bodies(e, s') && Durable(e, s') && Window(e, s') && Replay(s') && Numbered(e, s')
  {
    ServerDurable(e, s, s');
    assert Journal(s') == Journal(s);
    hide *;
    BodiesFrame(e, s, s');
    ReplayFrame(s, s');
    NumberedFrame(e, s, s');
  }

  lemma ServerDurable(e: Env, s: System, s': System)
    requires Durable(e, s) && Window(e, s)
    requires s' == s.(server := s'.server, history := s'.history, ops := s'.ops)
    requires forall key | key in s.server.cache :: key in s'.server.cache && s'.server.cache[key] == s.server.cache[key]
    ensures Durable(e, s') && Window(e, s')
  {
    hide Good;
    hide Open;
    hide OpenOnFlash;
    hide Boot;
    hide InWindow;
    GoodFrame(e, s, s', s.kiosk.index.records);
    GoodFrame(e, s, s', Boot(View(s.disk)).records);
    OpenFrame(s, s', s.kiosk.index.records);
    OpenOnFlashFrame(s, s', Boot(View(s.disk)).records);
    if s.active {
      GoodFrame(e, s, s', s.image);
      assert forall id :: Awaited(s, id) <==> Awaited(s', id);
    }
    hide Awaited;
  }

  lemma RunExtends(f: S.Fixtures, ops: seq<S.ServerOp>, op: S.ServerOp)
    ensures S.RunServer(f, S.FRESH_SERVER, ops + [op]) == S.Do(f, S.RunServer(f, S.FRESH_SERVER, ops), op)
  {
    hide S.Do;
    assert (ops + [op])[..|ops|] == ops;
  }

  lemma ServerCache(e: Env, s: System, op: S.ServerOp)
    requires Bodies(e, s) && CacheMatches(e, s)
    requires op.POST? ==> exists id | id in s.created :: op.request == e.parse(s.created[id].payload)
    ensures CacheMatches(e, Served(e, s, op))
  {
    DoKeepsCache(e.fixtures, s.server, op);
    hide S.Do;
    hide Carried;
    hide Encodable;
    if op.POST? {
      var id :| id in s.created && op.request == e.parse(s.created[id].payload);
      assert Composed(e, s.created[id]);
    }
  }

  lemma ServerResults(e: Env, s: System, s': System)
    requires Results(e, s) && s' == s.(server := s'.server, history := s'.history, ops := s'.ops)
    requires forall key | key in s.server.cache :: key in s'.server.cache && s'.server.cache[key] == s.server.cache[key]
    ensures Results(e, s')
  {
  }

  lemma ServeKeeps(e: Env, s: System, body: bytes, seqText: bytes, now: bytes)
    requires Inv(e, s) && Can(e, s, SERVE(body, seqText, now))
    ensures Inv(e, Next(e, s, SERVE(body, seqText, now)))
  {
    hide S.Do;
    var id := SentBody(e, s, body);
    ServerKeeps(e, s, S.POST(e.parse(body), seqText, now));
    hide Inv;
  }

  lemma AdministerKeeps(e: Env, s: System, op: S.ServerOp)
    requires Inv(e, s) && Can(e, s, ADMINISTER(op))
    ensures Inv(e, Next(e, s, ADMINISTER(op)))
  {
    hide Inv;
    hide S.Do;
    hide S.Recorded;
    assert Next(e, s, ADMINISTER(op)) == Served(e, s, op) && !op.POST?;
    hide *;
    ServerKeeps(e, s, op);
  }
}
