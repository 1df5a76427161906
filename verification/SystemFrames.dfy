/** What a step that leaves a part of the state alone cannot break. */
module SystemFrames {
  import opened Bytes
  import opened JournalRecord
  import opened JournalIndex
  import opened EventJournal
  import opened CompactionWindow
  import opened KioskRuntime
  import opened KioskSystem
  import S = MockBackend

  lemma InvParts(e: Env, s: System)
    requires Inv(e, s)
    ensures Bodies(e, s) && CacheMatches(e, s) && Results(e, s) && Durable(e, s) && Window(e, s) && Snapshots(e, s)
    ensures ServerRun(e, s) && Replay(s) && Numbered(e, s)
  {
    hide Bodies;
    hide CacheMatches;
    hide Results;
    hide Durable;
    hide Window;
    hide Snapshots;
    hide ServerRun;
    hide Replay;
    hide Numbered;
  }

  lemma InvMade(e: Env, s: System)
    requires Bodies(e, s) && CacheMatches(e, s) && Results(e, s) && Durable(e, s) && Window(e, s) && Snapshots(e, s)
    requires ServerRun(e, s) && Replay(s) && Numbered(e, s)
    ensures Inv(e, s)
  {
    hide Bodies;
    hide CacheMatches;
    hide Results;
    hide Durable;
    hide Window;
    hide Snapshots;
    hide ServerRun;
    hide Replay;
    hide Numbered;
  }

  /** The events, what became of them and what the server knows are the same. */
  ghost predicate Remembered(s: System, s': System) {
    && s'.created == s.created && s'.answered == s.answered && s'.buried == s.buried && s'.lost == s.lost
    && s'.server == s.server
  }

  lemma CarriedFrame(s: System, s': System)
    requires s'.created == s.created
    ensures forall q :: Carried(s, q) <==> Carried(s', q)
  {
  }

  lemma TruthfulFrame(e: Env, s: System, s': System)
    requires forall id | id in s.created :: id in s'.created
    requires s.fetched <= s'.fetched && s'.server == s.server
    ensures forall res :: Truthful(e, s, res) ==> Truthful(e, s', res)
  {
  }

  lemma BodiesFrame(e: Env, s: System, s': System)
    requires Bodies(e, s) && s'.created == s.created && s'.sent == s.sent
    requires s'.kiosk.worker.(slot := s.kiosk.worker.slot) == s.kiosk.worker
    ensures Bodies(e, s')
  {
    CarriedFrame(s, s');
    hide Carried;
    hide Composed;
    assert s'.kiosk.worker.high == s.kiosk.worker.high && s'.kiosk.worker.low == s.kiosk.worker.low;
    assert s'.kiosk.worker.phase == s.kiosk.worker.phase;
  }

  lemma CacheFrame(e: Env, s: System, s': System)
    requires CacheMatches(e, s) && s'.created == s.created && s'.server == s.server
    ensures CacheMatches(e, s')
  {
  }

  lemma ResultsFrame(e: Env, s: System, s': System)
    requires Results(e, s) && s'.created == s.created && s.fetched <= s'.fetched && s'.server == s.server
    requires s'.kiosk.worker.phase == s.kiosk.worker.phase
    requires s'.kiosk.worker.slot == s.kiosk.worker.slot || s'.kiosk.worker.slot == None
    requires s'.kiosk.bootstrap == s.kiosk.bootstrap || s'.kiosk.bootstrap == None
    ensures Results(e, s')
  {
    TruthfulFrame(e, s, s');
    hide Truthful;
  }

  lemma JustifiedFrame(e: Env, s: System, s': System)
    requires forall key | key in s.server.cache :: key in s'.server.cache && s'.server.cache[key] == s.server.cache[key]
    ensures forall id, status :: Justified(e, s, id, status) ==> Justified(e, s', id, status)
  {
  }

  /** Good records stay good while events, answers and cached entries are only added. */
  lemma GoodFrame(e: Env, s: System, s': System, records: map<bytes, Record>)
    requires Good(e, s, records) && s'.lost == s.lost && s.answered <= s'.answered
    requires forall id | id in s.created :: id in s'.created && s'.created[id] == s.created[id]
    requires forall key | key in s.server.cache :: key in s'.server.cache && s'.server.cache[key] == s.server.cache[key]
    ensures Good(e, s', records)
  {
    JustifiedFrame(e, s, s');
    hide Justified;
    hide Encodable;
    forall id | id in records
      ensures GoodRecord(e, s', id, records[id])
    {
      assert GoodRecord(e, s, id, records[id]);
    }
  }

  lemma OpenFrame(s: System, s': System, records: map<bytes, Record>)
    requires Open(s, records) && s'.created == s.created && s'.answered >= s.answered && s'.lost == s.lost
    ensures Open(s', records)
  {
    assert forall id :: Awaited(s', id) ==> Awaited(s, id);
    hide Awaited;
  }

  lemma OpenOnFlashFrame(s: System, s': System, records: map<bytes, Record>)
    requires OpenOnFlash(s, records)
    requires s'.created == s.created && s'.answered >= s.answered && s'.lost == s.lost && s'.buried == s.buried
    ensures OpenOnFlash(s', records)
  {
    assert forall id :: Awaited(s', id) ==> Awaited(s, id);
    hide Awaited;
  }

  lemma DurableFrame(e: Env, s: System, s': System)
    requires Durable(e, s) && Remembered(s, s')
    requires s'.kiosk.index.records == s.kiosk.index.records && Boot(View(s'.disk)).records == Boot(View(s.disk)).records
    ensures Durable(e, s')
  {
    hide Good;
    hide Open;
    hide OpenOnFlash;
    hide Boot;
    hide View;
    GoodFrame(e, s, s', s.kiosk.index.records);
    GoodFrame(e, s, s', Boot(View(s.disk)).records);
    OpenFrame(s, s', s.kiosk.index.records);
    OpenOnFlashFrame(s, s', Boot(View(s.disk)).records);
  }

  lemma WindowMade(e: Env, s: System)
    requires s.window <= s.created.Keys && s.buried <= s.created.Keys && s.lost <= s.created.Keys
    requires s.active ==> InWindow(s.start, s.image, Journal(s)) && Good(e, s, s.image)
    requires s.active ==> s.window !! s.start.index.records.Keys
    requires s.active ==> forall id | Awaited(s, id) :: id in s.keep || id in s.window
    ensures Window(e, s)
  {
    hide InWindow;
    hide Good;
    hide Awaited;
    hide Journal;
  }

  lemma WindowFrame(e: Env, s: System, s': System)
    requires Window(e, s) && Remembered(s, s')
    requires Journal(s') == Journal(s) && s'.window == s.window && s'.start == s.start && s'.image == s.image
    ensures Window(e, s')
  {
    hide InWindow;
    hide Good;
    if s.active {
      GoodFrame(e, s, s', s.image);
      assert forall id :: Awaited(s', id) ==> Awaited(s, id);
    }
    hide Awaited;
  }

  /** A compaction that is not open asks for nothing. */
  lemma WindowClosed(e: Env, s: System, s': System)
    requires Window(e, s) && s'.created == s.created && s'.window == s.window && !s'.active
    requires s'.buried == s.buried || s'.buried == {}
    requires s'.lost == s.lost || s'.lost == s.lost + s.window || s'.lost == s.lost + s.buried
    ensures Window(e, s')
  {
    hide InWindow;
    hide Good;
  }

  lemma SnapshotsFrame(e: Env, s: System, s': System)
    requires Snapshots(e, s) && s'.server == s.server && s'.history == s.history && s'.fetched == s.fetched
    requires s'.kiosk.projection == s.kiosk.projection || s'.kiosk.projection.None? || Past(s, s'.kiosk.projection.value)
    ensures Snapshots(e, s')
  {
    hide S.Chronicle;
  }

  lemma ServerRunFrame(e: Env, s: System, s': System)
    requires ServerRun(e, s) && s'.server == s.server && s'.ops == s.ops
    ensures ServerRun(e, s')
  {
    hide S.RunServer;
  }

  lemma ReplayFrame(s: System, s': System)
    requires Replay(s) && s'.pass == s.pass
    requires forall id | id in s.created :: id in s'.created && s'.created[id] == s.created[id]
    requires s'.kiosk.replaying == s.kiosk.replaying && s'.kiosk.replayIds == s.kiosk.replayIds
    requires s'.kiosk.replayNext == s.kiosk.replayNext
    ensures Replay(s')
  {
  }

  lemma NumberedFrame(e: Env, s: System, s': System)
    requires Numbered(e, s) && s'.created == s.created && s'.counter == s.counter
    ensures Numbered(e, s')
  {
  }

  /** The parts that look neither at the journal nor at the device's view of the network. */
  lemma BackgroundFrame(e: Env, s: System, s': System)
    requires Inv(e, s) && s'.created == s.created && s'.server == s.server && s'.history == s.history && s'.ops == s.ops
    requires s'.fetched == s.fetched && s'.counter == s.counter && s'.kiosk.projection == s.kiosk.projection
    ensures CacheMatches(e, s') && Snapshots(e, s') && ServerRun(e, s') && Numbered(e, s')
  {
    InvParts(e, s);
    hide *;
    CacheFrame(e, s, s');
    SnapshotsFrame(e, s, s');
    ServerRunFrame(e, s, s');
    NumberedFrame(e, s, s');
  }

  /** The device's memory of the network aside, nothing changed. */
  ghost predicate Quiet(s: System, s': System) {
    && s' == s.(kiosk := s'.kiosk, sent := s'.sent, pass := s'.pass)
    && s'.kiosk.index == s.kiosk.index && s'.kiosk.projection == s.kiosk.projection
  }

  lemma QuietFrame(e: Env, s: System, s': System)
    requires Inv(e, s) && Quiet(s, s')
    ensures CacheMatches(e, s') && Durable(e, s') && Window(e, s') && Snapshots(e, s') && ServerRun(e, s') && Numbered(e, s')
  {
    assert Remembered(s, s') && Journal(s') == Journal(s) && s'.disk == s.disk;
    InvParts(e, s);
    hide Inv;
    assert s'.kiosk.index.records == s.kiosk.index.records && Boot(View(s'.disk)).records == Boot(View(s.disk)).records;
    hide *;
    BackgroundFrame(e, s, s');
    DurableFrame(e, s, s');
    WindowFrame(e, s, s');
  }

  /** Only the journal changed: what the device keeps of the network, and all but the journal's own parts, hold on. */
  lemma JournalOnly(e: Env, s: System, s': System)
    requires Inv(e, s)
    requires s' == s.(kiosk := s.kiosk.(index := s'.kiosk.index), disk := s'.disk, active := s'.active, keep := s'.keep,
                      next := s'.next, answered := s'.answered, buried := s'.buried, lost := s'.lost, window := s'.window, start := s'.start,
                      image := s'.image)
    ensures Bodies(e, s') && CacheMatches(e, s') && Results(e, s') && Snapshots(e, s') && ServerRun(e, s')
    ensures Replay(s') && Numbered(e, s')
  {
    InvParts(e, s);
    hide *;
    BackgroundFrame(e, s, s');
    BodiesFrame(e, s, s');
    ResultsFrame(e, s, s');
    ReplayFrame(s, s');
  }
}
