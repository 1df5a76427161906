/** The steps of the system that touch the journal: appends, compaction ticks and reboots keep its invariant, in
  * memory and on flash. */
module SystemJournal {
  import opened Bytes
  import opened Frames
  import opened JournalFile
  import Json
  import opened JournalRecord
  import opened JournalIndex
  import opened IndexLaws
  import opened EventJournal
  import opened JournalDurability
  import opened CompactionWindow
  import opened KioskRuntime
  import opened KioskSystem
  import opened SystemFrames
  import opened SystemSteps
  import P = StateProjection
  import N = NetworkWorker
  import Q = SequenceReservation
  import S = MockBackend

  function OnFlash(d: Disk): (records: map<bytes, Record>) {
    Boot(View(d)).records
  }

  /** A transition taken over by a set of records. */
  function MergedIn(records: map<bytes, Record>, t: Transition): (merged: map<bytes, Record>) {
    if t.eventId in records then records[t.eventId := Merged(records[t.eventId], t)] else records
  }

  // --- What an append does to the two copies ---

  lemma GrownDiffers(d: Disk, body: bytes)
    ensures Grown(d, DAT, Frame(body)) != d
  {
    hide Frame;
    assert |Grown(d, DAT, Frame(body))[DAT]| == |Content(d, DAT)| + |Frame(body)|;
    assert |Frame(body)| > 0;
  }

  lemma EventEffect(e: Env, j: JournalState, r: Record, ok: bool, j': JournalState)
    requires EventAppended(e, j, r, ok, j') && Encodable(r) && r.eventId !in OnFlash(j.disk)
    ensures j'.index.records == (if ok then j.index.records[r.eventId := r] else j.index.records)
    ensures OnFlash(j'.disk) == (if ok && Ready(j.disk) then OnFlash(j.disk)[r.eventId := r] else OnFlash(j.disk))
    ensures !ok ==> j'.index == j.index
    ensures j' == j.(disk := j'.disk, index := j'.index)
    ensures ok ==> r.eventId !in j.index.records && (Ready(j.disk) ==> Ready(j'.disk))
  {
    hide EncodeEvent;
    hide Frame;
    hide Boot;
    hide Ready;
    hide AppendFailed;
    hide Lands;
    StartsDifferent(j.disk, EncodeEvent(r));
    FlashEffect(j.disk, j'.disk, EncodeEvent(r), ok);
    AppendedEventAgrees(Boot(View(j.disk)), r);
    hide Applied;
    hide Encodable;
  }

  lemma StartsDifferent(d: Disk, body: bytes)
    ensures AppendFailed(d, d, DAT, Frame(body))
  {
  }

  /** What one append does to what a boot would read: its frame applied, when it succeeded on a log that ends on a frame
    * boundary, else nothing. */
  lemma FlashEffect(d: Disk, d': Disk, body: bytes, ok: bool)
    requires Lands(d, d', body)
    requires if ok then d' == Grown(d, DAT, Frame(body)) else AppendFailed(d, d', DAT, Frame(body))
    ensures if ok && Ready(d) then Boot(View(d')) == Applied(Boot(View(d)), body, |body| + FRAME_OVERHEAD) && Ready(d')
            else Boot(View(d')) == Boot(View(d))
  {
    assert Frame(body) != [];
    FailedNotWhole(d, d', Frame(body));
    GrownDiffers(d, body);
    hide Frame;
    hide Applied;
    hide Boot;
    hide Recovered;
    if d' != d {
      StaysInPlace(d, d', body, ok);
      hide AppendFailed;
      if !Ready(d) {
        BootHidden(d, d');
      } else if ok {
        BootGrown(d, body);
      } else {
        FrameStorable(d, body);
        BootTorn(d, body, d');
      }
    }
    hide Ready;
    hide Hidden;
  }

  lemma StaysInPlace(d: Disk, d': Disk, body: bytes, ok: bool)
    requires if ok then d' == Grown(d, DAT, Frame(body)) else AppendFailed(d, d', DAT, Frame(body))
    ensures d' != d ==> InPlace(d')
  {
    hide Frame;
  }

  lemma FrameStorable(d: Disk, body: bytes)
    requires |LogBytes(d)| + |Frame(body)| < U32_BOUND
    ensures Storable(body)
  {
  }

  lemma TransitionEffect(j: JournalState, t: Transition, ok: bool, j': JournalState)
    requires TransitionAppended(j, t, ok, j') && (ok ==> EncodableTransition(t))
    ensures j'.index.records == (if ok then MergedIn(j.index.records, t) else j.index.records)
    ensures OnFlash(j'.disk) == (if ok && Ready(j.disk) then MergedIn(OnFlash(j.disk), t) else OnFlash(j.disk))
    ensures !ok ==> j'.index == j.index
    ensures j' == j.(disk := j'.disk, index := j'.index)
    ensures ok ==> t.eventId in j.index.records && j'.index == AppendedTransition(j.index, t, |Frame(EncodeTransition(t))|)
  {
    hide EncodeTransition;
    hide Frame;
    hide Boot;
    hide Ready;
    hide AppendFailed;
    hide Lands;
    hide EncodableTransition;
    StartsDifferent(j.disk, EncodeTransition(t));
    FlashEffect(j.disk, j'.disk, EncodeTransition(t), ok);
    if ok {
      TransitionApplied(Boot(View(j.disk)), t, |EncodeTransition(t)| + FRAME_OVERHEAD);
    }
    hide Applied;
  }

  lemma TransitionApplied(s: IndexState, t: Transition, size: nat)
    requires EncodableTransition(t)
    ensures Applied(s, EncodeTransition(t), size).records == MergedIn(s.records, t)
  {
    TransitionKind(t);
    TransitionRoundTrip(t);
    hide EncodeTransition;
    hide DecodeTransition;
    hide KindOf;
  }

  lemma GoodMerged(e: Env, s: System, records: map<bytes, Record>, t: Transition)
    requires Good(e, s, records) && Justified(e, s, t.eventId, t.syncStatus) && Json.Clean(t.lastErrorCode)
    requires t.eventId !in s.answered ==> t.syncStatus == PENDING || t.syncStatus == IN_FLIGHT
    ensures Good(e, s, MergedIn(records, t))
    ensures MergedIn(records, t).Keys == records.Keys
  {
    hide Justified;
    if t.eventId in records {
      assert GoodRecord(e, s, t.eventId, records[t.eventId]);
      assert GoodRecord(e, s, t.eventId, Merged(records[t.eventId], t));
      hide GoodRecord;
      forall id | id in MergedIn(records, t)
        ensures GoodRecord(e, s, id, MergedIn(records, t)[id])
      {
        assert id != t.eventId ==> GoodRecord(e, s, id, records[id]);
      }
    }
  }

  lemma SoundWhenGood(e: Env, s: System, records: map<bytes, Record>)
    requires Good(e, s, records)
    ensures Sound(records)
  {
    forall id | id in records
      ensures records[id].eventId == id && Encodable(records[id])
    {
      assert GoodRecord(e, s, id, records[id]);
    }
  }

  // --- Compaction ---

  lemma BeginKeeps(e: Env, s: System, policy: CompactionPolicy, started: bool, end: JournalState)
    requires Inv(e, s) && Can(e, s, BEGIN(policy, started, end))
    ensures Inv(e, Next(e, s, BEGIN(policy, started, end)))
  {
    var s' := Next(e, s, BEGIN(policy, started, end));
    BeginView(s, policy, started, end);
    BeginWindow(e, s, policy, started, end, s');
    BeginRest(e, s, s');
    hide *;
    InvMade(e, s');
  }

  lemma BeginView(s: System, policy: CompactionPolicy, started: bool, end: JournalState)
    requires BeginStep(Journal(s), policy, started, end)
    ensures View(end.disk) == View(s.disk) && end.index == s.kiosk.index && (!started ==> end.active == s.active)
    ensures !started && s.active ==> end == Journal(s)
  {
    hide KeepList;
  }

  /** What a change of the temporary file and of the compaction's own fields cannot break. */
  lemma BeginRest(e: Env, s: System, s': System)
    requires Inv(e, s)
    requires s' == s.(disk := s'.disk, active := s'.active, keep := s'.keep, next := s'.next,
                      start := s'.start, image := s'.image, window := s'.window)
    requires View(s'.disk) == View(s.disk)
    ensures Bodies(e, s') && CacheMatches(e, s') && Results(e, s') && Durable(e, s') && Snapshots(e, s') && ServerRun(e, s')
    ensures Replay(s') && Numbered(e, s')
  {
    assert Remembered(s, s') && Boot(View(s'.disk)).records == Boot(View(s.disk)).records;
    InvParts(e, s);
    hide *;
    JournalOnly(e, s, s');
    DurableFrame(e, s, s');
  }

  lemma BeginWindow(e: Env, s: System, policy: CompactionPolicy, started: bool, end: JournalState, s': System)
    requires Inv(e, s) && Can(e, s, BEGIN(policy, started, end)) && s' == Next(e, s, BEGIN(policy, started, end))
    ensures Window(e, s')
  {
    assert BeginStep(Journal(s), policy, started, end);
    if started {
      assert Journal(s') == end && s'.image == map[] && s'.window == {} && s'.start == end;
      assert Remembered(s, s');
      InvParts(e, s);
      hide Inv;
      hide Next;
      hide Can;
      BeginOpens(e, s, policy, end, s');
    } else {
      assert s' == WithJournal(s, end) && Remembered(s, s');
      assert s'.window == s.window && s'.start == s.start && s'.image == s.image;
      InvParts(e, s);
      BeginView(s, policy, started, end);
      assert s.active ==> Journal(s') == Journal(s);
      hide *;
      if s.active {
        WindowFrame(e, s, s');
      } else {
        WindowClosed(e, s, s');
      }
    }
  }

  lemma BeginOpens(e: Env, s: System, policy: CompactionPolicy, end: JournalState, s': System)
    requires Window(e, s) && Durable(e, s) && BeginStep(Journal(s), policy, true, end)
    requires Journal(s') == end && s'.image == map[] && s'.window == {} && s'.start == end
    requires Remembered(s, s')
    ensures Window(e, s')
  {
    BeginStarted(s, policy, end);
    SoundWhenGood(e, s, s.kiosk.index.records);
    BeginOpensWindow(Journal(s), policy, end);
    BeginKeepsAwaited(e, s, policy, end.keep);
    hide BeginStep;
    hide InWindow;
    hide KeepList;
    hide Good;
    hide Open;
    assert forall id :: Awaited(s', id) ==> Awaited(s, id);
    hide Awaited;
    NothingGood(e, s');
    assert s.lost <= s.created.Keys && s.buried <= s.created.Keys;
    hide Window;
    WindowMade(e, s');
  }

  lemma NothingGood(e: Env, s: System)
    ensures Good(e, s, map[])
  {
  }

  lemma BeginStarted(s: System, policy: CompactionPolicy, end: JournalState)
    requires BeginStep(Journal(s), policy, true, end)
    ensures KeepList(s.kiosk.index.records, policy, end.keep)
  {
    hide KeepList;
  }

  /** The selection takes every event that still waits. */
  lemma BeginKeepsAwaited(e: Env, s: System, policy: CompactionPolicy, keep: seq<bytes>)
    requires Good(e, s, s.kiosk.index.records) && Open(s, s.kiosk.index.records) && KeepList(s.kiosk.index.records, policy, keep)
    ensures forall id | Awaited(s, id) :: id in keep
  {
    forall id | Awaited(s, id)
      ensures id in keep
    {
      assert GoodRecord(e, s, id, s.kiosk.index.records[id]);
      KeptWhenUnanswered(s.kiosk.index.records, policy, keep, id);
    }
  }

  lemma KeptWhenUnanswered(records: map<bytes, Record>, policy: CompactionPolicy, keep: seq<bytes>, id: bytes)
    requires KeepList(records, policy, keep) && id in records && Unanswered(records[id])
    ensures id in keep
  {
    var status := records[id].syncStatus;
    assert KeptOf(records, Elements(keep), policy, status);
    assert id in Bucket(records, status);
    assert id in Elements(keep);
  }

  lemma TickKeeps(e: Env, s: System, outcome: TickOutcome, end: JournalState)
    requires Inv(e, s) && Can(e, s, TICK(outcome, end))
    ensures Inv(e, Next(e, s, TICK(outcome, end)))
  {
    var s' := Next(e, s, TICK(outcome, end));
    if outcome == SWAPPED {
      SwapKeeps(e, s, end);
    } else if outcome == MORE {
      MoreKeeps(e, s, end);
    } else {
      TickFailed(s, outcome, end);
      StopKeeps(e, s, s');
    }
  }

  /** A tick that does nothing, or gives the compaction up, leaves a boot what it would have had: also when the swap
    * stranded and the log is set aside. */
  lemma TickFailed(s: System, outcome: TickOutcome, end: JournalState)
    requires s.active ==> s.next <= |s.keep|
    requires TickStep(Journal(s), outcome, end) && outcome != MORE && outcome != SWAPPED
    ensures Restored(View(end.disk)) == Restored(View(s.disk)) && end.index == s.kiosk.index
    ensures end == Journal(s) || !end.active
  {
    hide View;
    hide TempWritten;
    hide KeptBodies;
    hide ChunkEnd;
    hide Recovered;
    hide Rebuilt;
    hide TickLog;
  }

  lemma StopKeeps(e: Env, s: System, s': System)
    requires Inv(e, s)
    requires s' == s.(disk := s'.disk, active := s'.active, keep := s'.keep, next := s'.next)
    requires Restored(View(s'.disk)) == Restored(View(s.disk)) && (s' == s || !s'.active)
    ensures Inv(e, s')
  {
    assert Remembered(s, s') && Boot(View(s'.disk)).records == Boot(View(s.disk)).records;
    InvParts(e, s);
    hide *;
    if s' != s {
      JournalOnly(e, s, s');
      DurableFrame(e, s, s');
      WindowClosed(e, s, s');
      InvMade(e, s');
    }
  }

  lemma MoreKeeps(e: Env, s: System, end: JournalState)
    requires Inv(e, s) && Can(e, s, TICK(MORE, end))
    ensures Inv(e, Next(e, s, TICK(MORE, end)))
  {
    var s' := Next(e, s, TICK(MORE, end));
    MoreView(s, end);
    MoreWindow(e, s, end, s');
    BeginRest(e, s, s');
    hide *;
    InvMade(e, s');
  }

  lemma MoreView(s: System, end: JournalState)
    requires (s.active ==> s.next <= |s.keep|) && TickStep(Journal(s), MORE, end)
    ensures View(end.disk) == View(s.disk) && end.index == s.kiosk.index && s.active && end.active && end.keep == s.keep
  {
    hide KeptBodies;
    LogGrowsView(s.disk, KeptBodies(s.kiosk.index.records, Chunk(Journal(s))));
  }

  lemma MoreWindow(e: Env, s: System, end: JournalState, s': System)
    requires Inv(e, s) && Can(e, s, TICK(MORE, end)) && s' == Next(e, s, TICK(MORE, end))
    ensures Window(e, s')
  {
    MoreView(s, end);
    assert Journal(s') == end && Remembered(s, s') && s'.start == s.start && s'.window == s.window;
    assert s'.image == AfterChunk(s.image, s.kiosk.index.records, Chunk(Journal(s)));
    assert TickStep(Journal(s), MORE, end);
    InvParts(e, s);
    hide Inv;
    hide Can;
    hide Next;
    MoreImage(e, s, end, s');
  }

  lemma MoreImage(e: Env, s: System, end: JournalState, s': System)
    requires Durable(e, s) && Window(e, s) && s.active && end.active && end.keep == s.keep
    requires Journal(s') == end && Remembered(s, s') && s'.start == s.start && s'.window == s.window
    requires s'.image == AfterChunk(s.image, s.kiosk.index.records, Chunk(Journal(s)))
    requires TickStep(Journal(s), MORE, end)
    ensures Window(e, s')
  {
    assert s'.keep == s.keep;
    TickKeepsWindow(s.start, s.image, Journal(s), end);
    hide InWindow;
    hide TickStep;
    hide Chunk;
    GoodImage(e, s, Chunk(Journal(s)));
    hide AfterChunk;
    hide Good;
    GoodFrame(e, s, s', s'.image);
    assert forall id :: Awaited(s, id) <==> Awaited(s', id);
    hide Awaited;
  }

  /** Records written now join the image as good as they are. */
  lemma GoodImage(e: Env, s: System, chunk: seq<bytes>)
    requires Good(e, s, s.image) && Good(e, s, s.kiosk.index.records)
    ensures Good(e, s, AfterChunk(s.image, s.kiosk.index.records, chunk))
  {
    hide GoodRecord;
    var image' := AfterChunk(s.image, s.kiosk.index.records, chunk);
    forall id | id in image'
      ensures GoodRecord(e, s, id, image'[id])
    {
      assert id in s.image ==> GoodRecord(e, s, id, s.image[id]);
      assert id in s.kiosk.index.records ==> GoodRecord(e, s, id, s.kiosk.index.records[id]);
    }
  }

  /** The swap: memory and flash hold exactly the selected ids; those of the window are gone. */
  lemma SwapKeeps(e: Env, s: System, end: JournalState)
    requires Inv(e, s) && Can(e, s, TICK(SWAPPED, end))
    ensures Inv(e, Next(e, s, TICK(SWAPPED, end)))
  {
    var s' := Next(e, s, TICK(SWAPPED, end));
    assert s.active && TickStep(Journal(s), SWAPPED, end) && s.next <= |s.keep| && |TickLog(Journal(s))| < U32_BOUND;
    assert s' == WithJournal(s, end).(buried := {}, lost := s.lost + s.window);
    InvParts(e, s);
    hide Inv;
    hide Can;
    hide Next;
    SwapDurable(e, s, end, s');
    assert !s'.active;
    hide *;
    SwapRest(e, s, s');
    InvMade(e, s');
  }

  lemma SwapDurable(e: Env, s: System, end: JournalState, s': System)
    requires Durable(e, s) && Window(e, s) && s.active && s.next <= |s.keep| && |TickLog(Journal(s))| < U32_BOUND
    requires TickStep(Journal(s), SWAPPED, end) && s' == WithJournal(s, end).(buried := {}, lost := s.lost + s.window)
    ensures Durable(e, s') && !s'.active
  {
    var final := AfterChunk(s.image, s.kiosk.index.records, Chunk(Journal(s)));
    SwapOutcome(s.start, s.image, Journal(s), end);
    SwapIndex(s, end);
    GoodImage(e, s, Chunk(Journal(s)));
    hide InWindow;
    hide TickStep;
    hide TickLog;
    hide AfterChunk;
    hide Chunk;
    assert Good(e, s, s'.kiosk.index.records);
    SwapGood(e, s, s', final);
    SwapGood(e, s, s', s'.kiosk.index.records);
    SwapOpen(e, s, s');
    OpenBoth(s', final);
    hide Good;
    hide Open;
    hide OpenOnFlash;
    hide Boot;
    hide View;
    hide Window;
  }

  lemma OpenBoth(s: System, records: map<bytes, Record>)
    requires Open(s, records) && s.buried == {}
    ensures OpenOnFlash(s, records)
  {
    hide Awaited;
  }

  lemma SwapIndex(s: System, end: JournalState)
    requires Window'(s) && TickStep(Journal(s), SWAPPED, end)
    ensures end.index.records.Keys == Elements(s.keep) && !end.active
    ensures forall id | id in end.index.records :: id in s.kiosk.index.records && end.index.records[id] == s.kiosk.index.records[id]
  {
    Members(s.keep);
    hide KeptBytes;
    hide TempWritten;
    hide TickLog;
    hide Holds;
    hide Recovered;
    hide ChunkEnd;
  }

  ghost predicate Window'(s: System) {
    s.active && s.next <= |s.keep| && Elements(s.keep) <= s.kiosk.index.records.Keys
  }

  lemma SwapGood(e: Env, s: System, s': System, records: map<bytes, Record>)
    requires Window(e, s) && s.active && s'.created == s.created && s'.answered == s.answered && s'.server == s.server
    requires s'.lost == s.lost + s.window && Good(e, s, records) && records.Keys == Elements(s.keep)
    ensures Good(e, s', records)
  {
    JustifiedFrame(e, s, s');
    hide Justified;
    hide Encodable;
    forall id | id in records
      ensures GoodRecord(e, s', id, records[id])
    {
      assert GoodRecord(e, s, id, records[id]);
      assert id in s.start.index.records.Keys;
    }
  }

  lemma SwapOpen(e: Env, s: System, s': System)
    requires Window(e, s) && s.active && s'.created == s.created && s'.answered == s.answered && s'.lost == s.lost + s.window
    ensures forall records: map<bytes, Record> | records.Keys == Elements(s.keep) :: Open(s', records)
  {
    Members(s.keep);
    forall id | Awaited(s', id)
      ensures id in Elements(s.keep)
    {
      assert Awaited(s, id);
    }
    hide Awaited;
    hide InWindow;
    forall records: map<bytes, Record> | records.Keys == Elements(s.keep)
      ensures Open(s', records)
    {
      assert forall id | Awaited(s', id) :: id in records.Keys;
    }
  }

  lemma SwapRest(e: Env, s: System, s': System)
    requires Inv(e, s) && !s'.active
    requires s' == s.(kiosk := s.kiosk.(index := s'.kiosk.index), disk := s'.disk, active := s'.active, keep := s'.keep,
                      next := s'.next, buried := {}, lost := s.lost + s.window)
    ensures Bodies(e, s') && CacheMatches(e, s') && Results(e, s') && Window(e, s') && Snapshots(e, s') && ServerRun(e, s')
    ensures Replay(s') && Numbered(e, s')
  {
    InvParts(e, s);
    hide *;
    JournalOnly(e, s, s');
    WindowClosed(e, s, s');
  }

  // --- Reboots ---

  lemma RebootKeeps(e: Env, s: System, cuts: seq<LogFiles>, persisted: bool, disk: Disk)
    requires Inv(e, s) && Can(e, s, REBOOT(cuts, persisted, disk))
    ensures Inv(e, Next(e, s, REBOOT(cuts, persisted, disk)))
  {
    var s' := Next(e, s, REBOOT(cuts, persisted, disk));
    RecoveryRestarts(cuts);
    RebootIndex(s, cuts, disk);
    InvParts(e, s);
    hide Inv;
    RebootDurable(e, s, s');
    RebootRest(e, s, s', persisted);
    hide *;
    InvMade(e, s');
  }

  /** The next boot reads off the flash what any earlier one would have. */
  lemma RebootIndex(s: System, cuts: seq<LogFiles>, disk: Disk)
    requires cuts != [] && Restored(cuts[|cuts| - 1]) == Restored(View(s.disk)) && View(disk) == Restored(cuts[|cuts| - 1])
    ensures Boot(cuts[|cuts| - 1]) == Boot(View(s.disk)) && Boot(View(disk)) == Boot(View(s.disk))
  {
    hide Folded;
    hide Recovered;
  }

  lemma RebootDurable(e: Env, s: System, s': System)
    requires Durable(e, s) && s'.created == s.created && s'.answered == s.answered && s'.server == s.server
    requires s'.lost == s.lost + s.buried && s'.buried == {}
    requires s'.kiosk.index == Boot(View(s.disk)) && Boot(View(s'.disk)) == Boot(View(s.disk))
    ensures Durable(e, s')
  {
    hide Good;
    hide Open;
    hide OpenOnFlash;
    hide Boot;
    hide View;
    BuriedLost(e, s, s', Boot(View(s.disk)).records);
    OpenBoth(s', Boot(View(s.disk)).records);
  }

  /** What a boot reads off the flash has lost exactly the buried events. */
  lemma BuriedLost(e: Env, s: System, s': System, records: map<bytes, Record>)
    requires Good(e, s, records) && OpenOnFlash(s, records)
    requires s'.created == s.created && s'.answered == s.answered && s'.server == s.server && s'.lost == s.lost + s.buried
    ensures Good(e, s', records) && Open(s', records)
  {
    JustifiedFrame(e, s, s');
    hide Justified;
    hide Encodable;
    forall id | id in records
      ensures GoodRecord(e, s', id, records[id])
    {
      assert GoodRecord(e, s, id, records[id]) && id in records.Keys;
    }
  }

  lemma RebootRest(e: Env, s: System, s': System, persisted: bool)
    requires Inv(e, s)
    requires s'.kiosk == BOOTED.(index := s'.kiosk.index) && !s'.active && s'.pass == []
    requires s'.counter == Q.Happen(s.counter, if persisted then Q.CUT_AFTER_PERSIST else Q.REBOOT, e.block)
    requires s' == s.(kiosk := s'.kiosk, disk := s'.disk, active := s'.active, keep := s'.keep, next := s'.next,
                      counter := s'.counter, pass := s'.pass, buried := {}, lost := s.lost + s.buried)
    ensures Bodies(e, s') && CacheMatches(e, s') && Results(e, s') && Window(e, s') && Snapshots(e, s') && ServerRun(e, s')
    ensures Replay(s') && Numbered(e, s')
  {
    InvParts(e, s);
    hide Inv;
    RebootIdle(e, s, s');
    RebootNumbered(e, s, s', persisted);
    assert s'.kiosk.projection.None?;
    hide *;
    CacheFrame(e, s, s');
    WindowClosed(e, s, s');
    SnapshotsFrame(e, s, s');
    ServerRunFrame(e, s, s');
  }

  /** Whatever was queued, running or waiting in the slot is gone. */
  lemma RebootIdle(e: Env, s: System, s': System)
    requires Bodies(e, s) && s'.kiosk == BOOTED.(index := s'.kiosk.index) && s'.pass == []
    requires s'.created == s.created && s'.sent == s.sent
    ensures Bodies(e, s') && Results(e, s') && Replay(s')
  {
    hide Composed;
  }

  lemma RebootNumbered(e: Env, s: System, s': System, persisted: bool)
    requires Numbered(e, s) && s'.created == s.created
    requires s'.counter == Q.Happen(s.counter, if persisted then Q.CUT_AFTER_PERSIST else Q.REBOOT, e.block)
    ensures Numbered(e, s')
  {
    Q.SafeKept(s.counter, if persisted then Q.CUT_AFTER_PERSIST else Q.REBOOT, e.block);
    hide Q.Happen;
  }

  // --- Sending ---

  lemma SendKeeps(e: Env, s: System, step: Step)
    requires Inv(e, s) && step.SEND? && Can(e, s, step)
    ensures Inv(e, Next(e, s, step))
  {
    var s' := Next(e, s, step);
    assert CanSend(e, s, step) && s' == AfterSend(e, s, step);
    InvParts(e, s);
    LostBefore(e, s);
    hide *;
    SendNumbered(e, s, step, s');
    SendJournal(e, s, step, s');
    SendWindow(e, s, step, s');
    SendBodies(e, s, step, s');
    SendRest(e, s, step, s');
    InvMade(e, s');
  }

  lemma LostBefore(e: Env, s: System)
    requires Window(e, s)
    ensures s.lost <= s.created.Keys
  {
  }

  /** What a send leaves in memory and on flash: with a durable event one record more, waiting, in memory; on flash too,
    * unless it went behind a torn tail. */
  lemma SendEffect(e: Env, s: System, step: Step)
    requires step.SEND? && CanSend(e, s, step) && Good(e, s, OnFlash(s.disk))
    ensures var r, t, end := step.record, InFlight(step.record, step.uptimeMs), step.end;
            && end == Journal(s).(disk := end.disk, index := end.index)
            && (!step.durable ==> end.index == s.kiosk.index)
            && (step.durable ==>
                  && r.eventId !in s.kiosk.index.records
                  && end.index.records == (var a := s.kiosk.index.records[r.eventId := r]; if step.written then MergedIn(a, t) else a))
            && r.eventId !in OnFlash(s.disk)
            && OnFlash(end.disk) == (if !step.durable || !Ready(s.disk) then OnFlash(s.disk)
                                     else var b := OnFlash(s.disk)[r.eventId := r]; if step.written then MergedIn(b, t) else b)
            && end.index == Sent(s.kiosk, r, t, step.durable, step.written).index
  {
    var r, t := step.record, InFlight(step.record, step.uptimeMs);
    SendFresh(e, s, step);
    hide Made;
    hide Composed;
    EventEffect(e, Journal(s), r, step.durable, step.mid);
    EmptyClean();
    assert EncodableTransition(t);
    if step.durable && N.Room(s.kiosk.worker, N.BUSINESS_EVENT) {
      TransitionEffect(step.mid, t, step.written, step.end);
    }
    SentIndex(s, step);
    hide OnFlash;
    hide Ready;
    hide Encodable;
    hide EncodeEvent;
    hide EncodeTransition;
    hide N.After;
    hide Sent;
    hide EventAppended;
    hide TransitionAppended;
  }

  lemma SendFresh(e: Env, s: System, step: Step)
    requires step.SEND? && CanSend(e, s, step) && Good(e, s, OnFlash(s.disk))
    ensures Composed(e, step.record) && Encodable(step.record) && step.record.eventId !in s.created
    ensures step.record.eventId !in OnFlash(s.disk)
  {
    SendNew(e, s, step);
    hide CanSend;
    hide OnFlash;
    assert step.record.eventId in OnFlash(s.disk) ==> GoodRecord(e, s, step.record.eventId, OnFlash(s.disk)[step.record.eventId]);
    hide Encodable;
  }

  lemma SendNew(e: Env, s: System, step: Step)
    requires step.SEND? && CanSend(e, s, step)
    ensures Composed(e, step.record) && step.record.eventId !in s.created
  {
    hide EventAppended;
    hide TransitionAppended;
    MadeComposed(e, s.kiosk.projection, step.event, step.record);
    hide Made;
    hide Composed;
  }

  lemma SentIndex(s: System, step: Step)
    requires step.SEND? && (step.written ==> step.durable && N.Room(s.kiosk.worker, N.BUSINESS_EVENT))
    ensures var r, t := step.record, InFlight(step.record, step.uptimeMs);
            Sent(s.kiosk, r, t, step.durable, step.written).index ==
            (if !step.durable then s.kiosk.index
             else var a := AppendedEvent(s.kiosk.index, r, FrameSize(r));
                  if step.written then AppendedTransition(a, t, |Frame(EncodeTransition(t))|) else a)
  {
    hide N.After;
    hide EncodeEvent;
    hide EncodeTransition;
  }

  lemma EmptyClean()
    ensures Json.Clean([])
  {
  }

  lemma SendNumbered(e: Env, s: System, step: Step, s': System)
    requires Numbered(e, s) && step.SEND? && CanSend(e, s, step) && s' == AfterSend(e, s, step)
    ensures Numbered(e, s')
  {
    hide EventAppended;
    hide TransitionAppended;
    hide Made;
    hide Composed;
    hide Sent;
    hide Q.Next;
    assert step.record.deviceSeq == Q.Next(s.counter, e.block).current && s'.counter == Q.Next(s.counter, e.block);
    SendMemory(e, s, step, s');
    hide CanSend;
    hide AfterSend;
    NextNumber(e, s.counter);
  }

  /** The next number is above every one given out. */
  lemma NextNumber(e: Env, c: Q.Counter)
    requires Q.Safe(c) && e.block >= 1
    ensures Q.Safe(Q.Next(c, e.block)) && Q.Next(c, e.block).current == c.current + 1
  {
  }

  lemma GoodSent(e: Env, s: System, s': System, r: Record, uptimeMs: u32, records: map<bytes, Record>)
    requires Good(e, s, records) && Composed(e, r) && r.eventId !in s.created && s.lost <= s.created.Keys
    requires s'.created == s.created[r.eventId := r] && s'.server == s.server && s'.answered == s.answered && s'.lost == s.lost
    ensures var added := records[r.eventId := r];
            Good(e, s', added) && Good(e, s', MergedIn(added, InFlight(r, uptimeMs)))
  {
    hide *;
    GoodFrame(e, s, s', records);
    NewGood(e, s', r);
    GoodAdded(e, s', records, r);
    InFlightNote(r, uptimeMs);
    GoodMerged(e, s', records[r.eventId := r], InFlight(r, uptimeMs));
  }

  lemma InFlightNote(r: Record, uptimeMs: u32)
    ensures var t := InFlight(r, uptimeMs);
            t.eventId == r.eventId && t.syncStatus == IN_FLIGHT && Json.Clean(t.lastErrorCode)
  {
    EmptyClean();
  }

  lemma GoodAdded(e: Env, s: System, records: map<bytes, Record>, r: Record)
    requires Good(e, s, records) && GoodRecord(e, s, r.eventId, r)
    ensures Good(e, s, records[r.eventId := r])
  {
    hide GoodRecord;
    var added := records[r.eventId := r];
    forall id | id in added
      ensures GoodRecord(e, s, id, added[id])
    {
      assert id != r.eventId ==> GoodRecord(e, s, id, records[id]);
    }
  }

  lemma NewGood(e: Env, s: System, r: Record)
    requires Composed(e, r) && r.eventId in s.created && s.created[r.eventId] == r && r.eventId !in s.lost
    ensures GoodRecord(e, s, r.eventId, r) && Justified(e, s, r.eventId, IN_FLIGHT)
  {
    hide Encodable;
  }

  lemma SendJournal(e: Env, s: System, step: Step, s': System)
    requires Durable(e, s) && s.lost <= s.created.Keys && s.buried <= s.created.Keys
    requires step.SEND? && CanSend(e, s, step) && s' == AfterSend(e, s, step)
    ensures Durable(e, s')
  {
    hide CanSend;
    hide Ready;
    hide Sent;
    SendEffect(e, s, step);
    SendMemory(e, s, step, s');
    SendNew(e, s, step);
    assert s'.kiosk.index == step.end.index && s'.disk == step.end.disk;
    hide AfterSend;
    if step.durable {
      GoodSent(e, s, s', step.record, step.uptimeMs, s.kiosk.index.records);
      GoodSent(e, s, s', step.record, step.uptimeMs, OnFlash(s.disk));
      SendOpen(s, step, s', s.kiosk.index.records);
      SendOpenOnFlash(s, step, s', OnFlash(s.disk));
      GoodFrame(e, s, s', OnFlash(s.disk));
    } else {
      DurableFrame(e, s, s');
    }
    hide Good;
    hide Open;
    hide OpenOnFlash;
    hide MergedIn;
    hide Boot;
    hide View;
  }

  lemma SendOpenOnFlash(s: System, step: Step, s': System, records: map<bytes, Record>)
    requires OpenOnFlash(s, records) && step.SEND? && step.durable && step.record.eventId !in records
    requires s.buried <= s.created.Keys && step.record.eventId !in s.created
    requires s'.answered == s.answered && s'.lost == s.lost && s'.created == s.created[step.record.eventId := step.record]
    ensures s'.buried == s.buried + {step.record.eventId} ==> OpenOnFlash(s', records)
    ensures var added := records[step.record.eventId := step.record];
            s'.buried == s.buried ==> OpenOnFlash(s', added) && OpenOnFlash(s', MergedIn(added, InFlight(step.record, step.uptimeMs)))
  {
    assert forall id :: Awaited(s', id) ==> Awaited(s, id) || id == step.record.eventId;
    hide Awaited;
    if s'.buried == s.buried {
      var added := records[step.record.eventId := step.record];
      var merged := MergedIn(added, InFlight(step.record, step.uptimeMs));
      assert merged.Keys == added.Keys == records.Keys + {step.record.eventId};
      hide MergedIn;
      assert forall id | Awaited(s', id) && id !in s'.buried :: id in added.Keys && id in merged.Keys;
    }
  }

  /** The parts of the state after a send that do not depend on how the appends went. */
  lemma SendMemory(e: Env, s: System, step: Step, s': System)
    requires step.SEND? && s' == AfterSend(e, s, step)
    ensures Journal(s') == step.end
    ensures s'.answered == s.answered && s'.lost == s.lost && s'.server == s.server && s'.start == s.start && s'.image == s.image
    ensures s'.created == if step.durable then s.created[step.record.eventId := step.record] else s.created
    ensures s'.window == if step.durable then s.window + {step.record.eventId} else s.window
    ensures s'.buried == if step.durable && !Ready(s.disk) then s.buried + {step.record.eventId} else s.buried
    ensures s'.sent == s.sent && s'.fetched == s.fetched && s'.history == s.history && s'.ops == s.ops && s'.pass == s.pass
    ensures s'.kiosk.worker == Sent(s.kiosk, step.record, InFlight(step.record, step.uptimeMs), step.durable, step.written).worker
    ensures s'.kiosk == s.kiosk.(index := step.end.index, worker := s'.kiosk.worker)
  {
    hide Ready;
    SentParts(s.kiosk, step.record, InFlight(step.record, step.uptimeMs), step.durable, step.written);
    hide Sent;
  }

  /** A send touches the index and the queues. */
  lemma SentParts(k: Kiosk, r: Record, t: Transition, durable: bool, written: bool)
    ensures var k' := Sent(k, r, t, durable, written); k' == k.(index := k'.index, worker := k'.worker)
  {
    hide N.After;
    hide EncodeEvent;
    hide EncodeTransition;
    hide AppendedEvent;
    hide AppendedTransition;
  }

  lemma SendOpen(s: System, step: Step, s': System, records: map<bytes, Record>)
    requires Open(s, records) && step.SEND? && step.durable
    requires s'.answered == s.answered && s'.lost == s.lost && s'.created == s.created[step.record.eventId := step.record]
    ensures var added := records[step.record.eventId := step.record];
            Open(s', added) && Open(s', MergedIn(added, InFlight(step.record, step.uptimeMs)))
  {
    var added := records[step.record.eventId := step.record];
    forall id | Awaited(s', id)
      ensures id in added
    {
      assert id != step.record.eventId ==> Awaited(s, id);
    }
    hide Awaited;
    var merged := MergedIn(added, InFlight(step.record, step.uptimeMs));
    assert merged.Keys == added.Keys;
    hide MergedIn;
    assert forall id | Awaited(s', id) :: id in merged.Keys;
  }

  lemma SendWindow(e: Env, s: System, step: Step, s': System)
    requires Durable(e, s) && Window(e, s) && step.SEND? && CanSend(e, s, step) && s' == AfterSend(e, s, step)
    ensures Window(e, s')
  {
    hide Ready;
    SendNew(e, s, step);
    SendMemory(e, s, step, s');
    SendStays(e, s, step);
    if s.active {
      SendInWindow(e, s, step);
      StartedBefore(e, s);
      SendImage(e, s, step, s');
      SendAwaited(e, s, step, s');
    }
    hide InWindow;
    hide Good;
    hide Awaited;
    hide CanSend;
    hide AfterSend;
    hide Durable;
    hide Sent;
    SendSets(e, s, step, s');
    hide Window;
    WindowMade(e, s');
  }

  lemma SendStays(e: Env, s: System, step: Step)
    requires step.SEND? && CanSend(e, s, step) && Good(e, s, OnFlash(s.disk))
    ensures step.end == Journal(s).(disk := step.end.disk, index := step.end.index)
  {
    hide CanSend;
    SendEffect(e, s, step);
  }

  lemma SendSets(e: Env, s: System, step: Step, s': System)
    requires Window(e, s) && step.SEND? && step.record.eventId !in s.created
    requires s.active ==> s.start.index.records.Keys <= s.created.Keys
    requires s'.lost == s.lost && s'.start == s.start && (s'.active ==> s.active)
    requires s'.created == if step.durable then s.created[step.record.eventId := step.record] else s.created
    requires s'.window == if step.durable then s.window + {step.record.eventId} else s.window
    requires s'.buried == s.buried || (step.durable && s'.buried == s.buried + {step.record.eventId})
    ensures s'.window <= s'.created.Keys && s'.buried <= s'.created.Keys && s'.lost <= s'.created.Keys
    ensures s'.active ==> s'.window !! s'.start.index.records.Keys
  {
    hide InWindow;
    hide Good;
  }

  lemma SendAwaited(e: Env, s: System, step: Step, s': System)
    requires Window(e, s) && s.active && step.SEND?
    requires s'.answered == s.answered && s'.lost == s.lost && s'.keep == s.keep
    requires s'.created == if step.durable then s.created[step.record.eventId := step.record] else s.created
    requires s'.window == if step.durable then s.window + {step.record.eventId} else s.window
    ensures forall id | Awaited(s', id) :: id in s'.keep || id in s'.window
  {
    hide InWindow;
    hide Good;
    forall id | Awaited(s', id)
      ensures id in s'.keep || id in s'.window
    {
      assert Awaited(s, id) || (step.durable && id == step.record.eventId);
    }
  }

  lemma StartedBefore(e: Env, s: System)
    requires Good(e, s, s.kiosk.index.records) && Window(e, s) && s.active
    ensures s.start.index.records.Keys <= s.created.Keys
  {
    forall id | id in s.start.index.records.Keys
      ensures id in s.created
    {
      assert id in s.kiosk.index.records;
      assert GoodRecord(e, s, id, s.kiosk.index.records[id]);
    }
  }

  lemma SendImage(e: Env, s: System, step: Step, s': System)
    requires Good(e, s, s.image) && step.SEND? && CanSend(e, s, step) && s' == AfterSend(e, s, step)
    ensures Good(e, s', s'.image)
  {
    hide CanSend;
    SendMemory(e, s, step, s');
    SendNew(e, s, step);
    hide AfterSend;
    hide Composed;
    GoodFrame(e, s, s', s.image);
  }

  lemma SendInWindow(e: Env, s: System, step: Step)
    requires Window(e, s) && s.active && step.SEND? && CanSend(e, s, step)
    ensures InWindow(s.start, s.image, step.end)
  {
    var r, t := step.record, InFlight(step.record, step.uptimeMs);
    SendNew(e, s, step);
    EmptyClean();
    hide Made;
    hide InWindow;
    hide AppendEventStep;
    hide AppendTransitionStep;
    hide Lands;
    AppendKeepsWindow(e.capacity, s.start, s.image, Journal(s), r, step.durable, step.mid);
    if step.durable && N.Room(s.kiosk.worker, N.BUSINESS_EVENT) {
      TransitionKeepsWindow(s.start, s.image, step.mid, t, step.written, step.end);
    }
  }

  lemma SendBodies(e: Env, s: System, step: Step, s': System)
    requires Bodies(e, s) && Results(e, s) && step.SEND? && CanSend(e, s, step) && s' == AfterSend(e, s, step)
    ensures Bodies(e, s') && Results(e, s')
  {
    hide CanSend;
    hide Ready;
    SendMemory(e, s, step, s');
    SendNew(e, s, step);
    hide AfterSend;
    if step.durable {
      var r := step.record;
      SentWorker(s.kiosk, r, InFlight(r, step.uptimeMs), step.written);
      hide Sent;
      hide InFlight;
      SentBodies(e, s, r, s');
    } else {
      BodiesFrame(e, s, s');
      ResultsFrame(e, s, s');
    }
  }

  lemma SentBodies(e: Env, s: System, r: Record, s': System)
    requires Bodies(e, s) && Results(e, s) && Composed(e, r) && r.eventId !in s.created
    requires s'.created == s.created[r.eventId := r] && s'.sent == s.sent && s'.server == s.server && s'.fetched == s.fetched
    requires s'.kiosk.worker ==
             N.After(s.kiosk.worker, N.ENQUEUE(N.EventRequest(N.BUSINESS_EVENT, r.eventId, r.deviceSeq, r.payload)))
    requires s'.kiosk.bootstrap == s.kiosk.bootstrap
    ensures Bodies(e, s') && Results(e, s')
  {
    var q := N.NetworkRequest(N.BUSINESS_EVENT, r.eventId, r.deviceSeq, r.payload);
    WholeRequest(N.BUSINESS_EVENT, r);
    var mid := s.(created := s'.created);
    assert Carried(mid, q);
    CreatedGrows(e, s, mid, r);
    hide *;
    QueuedBodies(e, mid, q, s');
  }

  lemma SentWorker(k: Kiosk, r: Record, t: Transition, written: bool)
    ensures Sent(k, r, t, true, written).worker ==
            N.After(k.worker, N.ENQUEUE(N.EventRequest(N.BUSINESS_EVENT, r.eventId, r.deviceSeq, r.payload)))
  {
    hide N.After;
    hide EncodeEvent;
    hide EncodeTransition;
  }

  lemma CreatedGrows(e: Env, s: System, mid: System, r: Record)
    requires Bodies(e, s) && Results(e, s) && Composed(e, r) && r.eventId !in s.created
    requires mid == s.(created := s.created[r.eventId := r])
    ensures Bodies(e, mid) && Results(e, mid)
  {
    assert forall q :: Carried(s, q) ==> Carried(mid, q);
    assert forall res :: Truthful(e, s, res) ==> Truthful(e, mid, res);
    hide Truthful;
    hide Carried;
    hide Composed;
    forall b | b in mid.sent
      ensures exists id | id in mid.created :: mid.created[id].payload == b
    {
      var id :| id in s.created && s.created[id].payload == b;
      assert id in mid.created && mid.created[id].payload == b;
    }
  }

  lemma QueuedBodies(e: Env, s: System, q: N.NetworkRequest, s': System)
    requires Bodies(e, s) && Results(e, s) && Carried(s, q)
    requires s'.created == s.created && s'.sent == s.sent && s'.server == s.server && s'.fetched == s.fetched
    requires s'.kiosk.worker == N.After(s.kiosk.worker, N.ENQUEUE(q)) && s'.kiosk.bootstrap == s.kiosk.bootstrap
    ensures Bodies(e, s') && Results(e, s')
  {
    var mid := s.(kiosk := s.kiosk.(worker := s'.kiosk.worker));
    QueuedKeeps(e, s, q, mid);
    hide N.After;
    assert forall x :: Carried(mid, x) <==> Carried(s', x);
    assert forall res :: Truthful(e, mid, res) <==> Truthful(e, s', res);
    hide Truthful;
    hide Carried;
    hide Composed;
  }

  lemma SendRest(e: Env, s: System, step: Step, s': System)
    requires CacheMatches(e, s) && Snapshots(e, s) && ServerRun(e, s) && Replay(s)
    requires step.SEND? && CanSend(e, s, step) && s' == AfterSend(e, s, step)
    ensures CacheMatches(e, s') && Snapshots(e, s') && ServerRun(e, s') && Replay(s')
  {
    hide CanSend;
    hide Ready;
    SendMemory(e, s, step, s');
    SendNew(e, s, step);
    hide AfterSend;
    hide Sent;
    CacheGrows(e, s, s');
    hide *;
    ReplayFrame(s, s');
    SnapshotsFrame(e, s, s');
    ServerRunFrame(e, s, s');
  }

  lemma CacheGrows(e: Env, s: System, s': System)
    requires CacheMatches(e, s) && s'.server == s.server
    requires forall id | id in s.created :: id in s'.created && s'.created[id] == s.created[id]
    ensures CacheMatches(e, s')
  {
  }

  // --- Results ---

  lemma PollKeeps(e: Env, s: System, t: Transition, written: bool, end: JournalState)
    requires Inv(e, s) && Can(e, s, POLL(t, written, end))
    ensures Inv(e, Next(e, s, POLL(t, written, end)))
  {
    hide Inv;
    var s' := Next(e, s, POLL(t, written, end));
    assert CanPoll(s, t, written, end);
    assert s' == WithJournal(s.(kiosk := Polled(s.kiosk, t, written)), end).(answered := s.answered + SettledBy(s));
    hide Next;
    hide Can;
    if s.kiosk.worker.slot.None? {
      assert s' == s;
    } else if N.Retried(s.kiosk.worker.slot.value.kind) {
      hide Polled;
      PollEvent(e, s, s.kiosk.worker.slot.value, t, written, end);
    } else {
      assert !written && end == Journal(s);
      hide Polled;
      PollOther(e, s, s.kiosk.worker.slot.value, t, end);
    }
  }

  /** A result that is not an event's touches only the projection. */
  lemma PollOther(e: Env, s: System, res: N.NetworkResult<Reply>, t: Transition, end: JournalState)
    requires Inv(e, s) && s.kiosk.worker.slot == Some(res) && !N.Retried(res.kind) && end == Journal(s)
    ensures Inv(e, WithJournal(s.(kiosk := Polled(s.kiosk, t, false)), end).(answered := s.answered + SettledBy(s)))
  {
    var s' := WithJournal(s.(kiosk := Polled(s.kiosk, t, false)), end).(answered := s.answered + SettledBy(s));
    PolledOther(s.kiosk, res, t);
    assert s' == s.(kiosk := Polled(s.kiosk, t, false));
    InvParts(e, s);
    hide Inv;
    hide Polled;
    OfferedPast(e, s, res);
    assert Results(e, s) && Truthful(e, s, res);
    hide *;
    ShownFrame(e, s, s');
  }

  lemma PolledOther(k: Kiosk, res: N.NetworkResult<Reply>, t: Transition)
    requires k.worker.slot == Some(res) && !N.Retried(res.kind)
    ensures var k' := Polled(k, t, false);
            && k' == k.(projection := k'.projection, resyncing := k'.resyncing, bootstrap := k'.bootstrap,
                        worker := k.worker.(slot := None))
            && (k'.projection == k.projection
                || (res.outcome.ok && res.response.StateReply? && k'.projection == Some(res.response.snapshot)))
            && (k'.bootstrap == k.bootstrap || k'.bootstrap == Some(res))
  {
  }

  /** A fetched snapshot that reaches the main loop is one the server has shown. */
  lemma OfferedPast(e: Env, s: System, res: N.NetworkResult<Reply>)
    requires Results(e, s) && Snapshots(e, s) && s.kiosk.worker.slot == Some(res)
    ensures res.outcome.ok && res.response.StateReply? ==> Past(s, res.response.snapshot)
    ensures s.kiosk.projection.Some? ==> Past(s, s.kiosk.projection.value)
  {
    hide S.Chronicle;
  }

  /** A past snapshot taken over, and a result taken off the slot. */
  lemma ShownFrame(e: Env, s: System, s': System)
    requires Inv(e, s)
    requires s' == s.(kiosk := s.kiosk.(projection := s'.kiosk.projection, resyncing := s'.kiosk.resyncing,
                                        bootstrap := s'.kiosk.bootstrap, worker := s'.kiosk.worker))
    requires s'.kiosk.worker == s.kiosk.worker || s'.kiosk.worker == s.kiosk.worker.(slot := None)
    requires s'.kiosk.projection.Some? ==> Past(s, s'.kiosk.projection.value)
    requires s'.kiosk.bootstrap.Some? && s'.kiosk.bootstrap != s.kiosk.bootstrap ==> Truthful(e, s, s'.kiosk.bootstrap.value)
    ensures Inv(e, s')
  {
    assert Remembered(s, s') && Journal(s') == Journal(s) && s'.disk == s.disk && s'.kiosk.index == s.kiosk.index;
    InvParts(e, s);
    hide Inv;
    ShownResults(e, s, s');
    hide *;
    BodiesFrame(e, s, s');
    CacheFrame(e, s, s');
    DurableFrame(e, s, s');
    WindowFrame(e, s, s');
    SnapshotsFrame(e, s, s');
    ServerRunFrame(e, s, s');
    ReplayFrame(s, s');
    NumberedFrame(e, s, s');
    InvMade(e, s');
  }

  lemma ShownResults(e: Env, s: System, s': System)
    requires Results(e, s) && s'.created == s.created && s'.fetched == s.fetched && s'.server == s.server
    requires s'.kiosk.worker == s.kiosk.worker || s'.kiosk.worker == s.kiosk.worker.(slot := None)
    requires s'.kiosk.bootstrap.Some? && s'.kiosk.bootstrap != s.kiosk.bootstrap ==> Truthful(e, s, s'.kiosk.bootstrap.value)
    ensures Results(e, s')
  {
    TruthfulFrame(e, s, s');
    hide Truthful;
  }

  /** A bootstrap put aside is taken up. */
  lemma BootstrapKeeps(e: Env, s: System, allowed: bool)
    requires Inv(e, s)
    ensures Inv(e, Next(e, s, BOOTSTRAP(allowed)))
  {
    var s' := Next(e, s, BOOTSTRAP(allowed));
    assert s' == s.(kiosk := BootstrapTaken(s.kiosk, allowed));
    InvParts(e, s);
    hide Inv;
    TakenPast(e, s, allowed);
    hide *;
    ShownFrame(e, s, s');
  }

  lemma TakenPast(e: Env, s: System, allowed: bool)
    requires Results(e, s) && Snapshots(e, s)
    ensures var k, k' := s.kiosk, BootstrapTaken(s.kiosk, allowed);
            && k' == k.(projection := k'.projection, bootstrap := None)
            && (k'.projection.Some? ==> Past(s, k'.projection.value))
  {
    hide S.Chronicle;
  }

  lemma PollEvent(e: Env, s: System, res: N.NetworkResult<Reply>, t: Transition, written: bool, end: JournalState)
    requires Inv(e, s) && s.kiosk.worker.slot == Some(res) && N.Retried(res.kind) && CanPoll(s, t, written, end)
    ensures Inv(e, WithJournal(s.(kiosk := Polled(s.kiosk, t, written)), end).(answered := s.answered + SettledBy(s)))
  {
    hide Inv;
    var s' := WithJournal(s.(kiosk := Polled(s.kiosk, t, written)), end).(answered := s.answered + SettledBy(s));
    var polled := s.(kiosk := CursorMoved(s.kiosk.(worker := N.After(s.kiosk.worker, N.POLL))));
    var noted := WithJournal(polled, end).(answered := s.answered + SettledBy(s));
    PollParts(s, res, t, written, end, polled, noted, s');
    CursorKeeps(e, s, polled);
    assert Journal(polled) == Journal(s) && polled.answered == s.answered;
    hide Polled;
    NoteKeeps(e, polled, res, t, written, end, noted);
    hide *;
    AnswerKeeps(e, noted, res);
  }

  /** Polling an event's result: the cursor moves, the transition is noted, the answer is acted on. */
  lemma PollParts(s: System, res: N.NetworkResult<Reply>, t: Transition, written: bool, end: JournalState,
                  polled: System, noted: System, s': System)
    requires s.kiosk.worker.slot == Some(res) && N.Retried(res.kind) && CanPoll(s, t, written, end)
    requires polled == s.(kiosk := CursorMoved(s.kiosk.(worker := N.After(s.kiosk.worker, N.POLL))))
    requires noted == WithJournal(polled, end).(answered := s.answered + SettledBy(s))
    requires s' == WithJournal(s.(kiosk := Polled(s.kiosk, t, written)), end).(answered := s.answered + SettledBy(s))
    ensures s' == noted.(kiosk := Answered(noted.kiosk, res))
  {
    NotedIndex(polled.kiosk, s, t, written, end);
    AnswerLeavesIndex(noted.kiosk, res);
    hide Answered;
    hide N.After;
    hide TransitionAppended;
  }

  lemma NotedIndex(k: Kiosk, s: System, t: Transition, written: bool, end: JournalState)
    requires k.index == s.kiosk.index && TransitionAppended(Journal(s), t, written, end)
    ensures Noted(k, t, written) == k.(index := end.index)
  {
    hide EncodeTransition;
    hide Frame;
    hide Lands;
  }

  lemma AnswerLeavesIndex(k: Kiosk, res: N.NetworkResult<Reply>)
    ensures Answered(k, res).index == k.index
  {
    hide N.After;
  }

  lemma CursorKeeps(e: Env, s: System, s': System)
    requires Inv(e, s) && s.kiosk.worker.slot.Some?
    requires s' == s.(kiosk := CursorMoved(s.kiosk.(worker := N.After(s.kiosk.worker, N.POLL))))
    ensures Inv(e, s') && Truthful(e, s', s.kiosk.worker.slot.value)
  {
    assert Quiet(s, s');
    InvParts(e, s);
    hide Inv;
    CursorRest(e, s, s');
    hide *;
    QuietFrame(e, s, s');
    InvMade(e, s');
  }

  lemma CursorRest(e: Env, s: System, s': System)
    requires Bodies(e, s) && Results(e, s) && Replay(s) && s.kiosk.worker.slot.Some?
    requires s' == s.(kiosk := CursorMoved(s.kiosk.(worker := N.After(s.kiosk.worker, N.POLL))))
    ensures Bodies(e, s') && Results(e, s') && Replay(s') && Truthful(e, s', s.kiosk.worker.slot.value)
  {
    assert s'.kiosk.worker == s.kiosk.worker.(slot := None);
    TruthfulFrame(e, s, s');
    hide Truthful;
    CursorReplay(s, s');
    hide Bodies;
    hide Replay;
    BodiesFrame(e, s, s');
    ResultsFrame(e, s, s');
  }

  lemma CursorReplay(s: System, s': System)
    requires Replay(s) && s' == s.(kiosk := CursorMoved(s.kiosk.(worker := s'.kiosk.worker)))
    ensures Replay(s')
  {
  }

  lemma NoteKeeps(e: Env, s: System, res: N.NetworkResult<Reply>, t: Transition, written: bool, end: JournalState, s': System)
    requires Inv(e, s) && N.Retried(res.kind) && Truthful(e, s, res) && TransitionFor(res, t)
    requires TransitionAppended(Journal(s), t, written, end)
    requires s' == WithJournal(s, end).(answered := s.answered + (if Final(res) then {res.eventId} else {}))
    ensures Inv(e, s') && Truthful(e, s', res)
  {
    InvParts(e, s);
    hide Inv;
    CodeClean(res);
    assert t.lastErrorCode == CodeOf(res);
    hide CodeOf;
    NoteClean(e, s, t);
    assert written ==> t.eventId in s.kiosk.index.records;
    TransitionEffect(Journal(s), t, written, end);
    NoteDurable(e, s, res, t, written, end, s');
    NoteWindow(e, s, t, written, end, s');
    TruthfulFrame(e, s, s');
    assert s' == s.(kiosk := s.kiosk.(index := end.index), disk := s'.disk, active := s'.active, keep := s'.keep,
                    next := s'.next, answered := s'.answered);
    hide *;
    JournalOnly(e, s, s');
    InvMade(e, s');
  }

  /** A transition the journal takes has a clean id: it names a record. */
  lemma NoteClean(e: Env, s: System, t: Transition)
    requires Good(e, s, s.kiosk.index.records) && Json.Clean(t.lastErrorCode)
    ensures t.eventId in s.kiosk.index.records ==> EncodableTransition(t)
  {
    if t.eventId in s.kiosk.index.records {
      assert GoodRecord(e, s, t.eventId, s.kiosk.index.records[t.eventId]);
    }
  }

  /** The status a result is noted under is one the server justifies, and a settling one only for a settled event. */
  lemma NoteJustified(e: Env, s: System, res: N.NetworkResult<Reply>, t: Transition)
    requires N.Retried(res.kind) && Truthful(e, s, res) && TransitionFor(res, t)
    ensures Justified(e, s, t.eventId, t.syncStatus) && t.eventId == res.eventId
    ensures !Final(res) ==> t.syncStatus == PENDING
  {
    hide CodeOf;
    hide RetriesOf;
  }

  lemma NoteDurable(e: Env, s: System, res: N.NetworkResult<Reply>, t: Transition, written: bool, end: JournalState, s': System)
    requires Durable(e, s) && N.Retried(res.kind) && Truthful(e, s, res) && TransitionFor(res, t)
    requires end.index.records == (if written then MergedIn(s.kiosk.index.records, t) else s.kiosk.index.records)
    requires OnFlash(end.disk) == MergedIn(OnFlash(s.disk), t) || OnFlash(end.disk) == OnFlash(s.disk)
    requires s' == WithJournal(s, end).(answered := s.answered + (if Final(res) then {res.eventId} else {}))
    ensures Durable(e, s')
  {
    NoteJustified(e, s, res, t);
    CodeClean(res);
    assert t.lastErrorCode == CodeOf(res);
    hide CodeOf;
    hide TransitionFor;
    assert t.eventId !in s'.answered ==> t.syncStatus == PENDING;
    hide Final;
    hide StatusAfter;
    hide Truthful;
    JustifiedFrame(e, s, s');
    hide Justified;
    GoodFrame(e, s, s', s.kiosk.index.records);
    GoodFrame(e, s, s', OnFlash(s.disk));
    GoodMerged(e, s', s.kiosk.index.records, t);
    GoodMerged(e, s', OnFlash(s.disk), t);
    OpenFrame(s, s', s.kiosk.index.records);
    OpenOnFlashFrame(s, s', OnFlash(s.disk));
    hide Good;
    hide Awaited;
    hide Boot;
  }

  lemma NoteWindow(e: Env, s: System, t: Transition, written: bool, end: JournalState, s': System)
    requires Window(e, s) && TransitionAppended(Journal(s), t, written, end)
    requires end == Journal(s).(disk := end.disk, index := end.index)
    requires t.eventId in s.kiosk.index.records ==> EncodableTransition(t)
    requires s' == WithJournal(s, end).(answered := s'.answered) && s.answered <= s'.answered
    ensures Window(e, s')
  {
    hide EncodableTransition;
    if s.active {
      NoteInWindow(s, t, written, end);
      hide TransitionAppended;
      hide InWindow;
      assert Journal(s') == end;
      GoodFrame(e, s, s', s.image);
      assert forall id :: Awaited(s', id) ==> Awaited(s, id);
      hide Good;
      hide Awaited;
    } else {
      hide TransitionAppended;
      WindowClosed(e, s, s');
    }
  }

  lemma NoteInWindow(s: System, t: Transition, written: bool, end: JournalState)
    requires InWindow(s.start, s.image, Journal(s)) && TransitionAppended(Journal(s), t, written, end)
    requires t.eventId in s.kiosk.index.records ==> EncodableTransition(t)
    requires end == Journal(s).(disk := end.disk, index := end.index)
    ensures InWindow(s.start, s.image, end)
  {
    hide EncodableTransition;
    hide EncodeTransition;
    hide Frame;
    assert t.eventId !in s.kiosk.index.records ==> end == Journal(s);
    hide InWindow;
    if t.eventId in s.kiosk.index.records {
      TransitionKeepsWindow(s.start, s.image, Journal(s), t, written, end);
    }
  }

  lemma AnswerKeeps(e: Env, s: System, res: N.NetworkResult<Reply>)
    requires Inv(e, s) && N.Retried(res.kind) && Truthful(e, s, res)
    ensures Inv(e, s.(kiosk := Answered(s.kiosk, res)))
  {
    hide *;
    AnswerCases(s.kiosk, res);
    if StatusAfter(res) == CONFLICT {
      ResyncKeeps(e, s);
    } else if StatusAfter(res) == ACKED || StatusAfter(res) == REJECTED {
      InvParts(e, s);
      AnswerPast(e, s, res);
      ShownKeeps(e, s, res.response.response.snapshot);
    }
  }

  lemma AnswerCases(k: Kiosk, res: N.NetworkResult<Reply>)
    ensures StatusAfter(res) == CONFLICT ==> Answered(k, res) == Resync(k)
    ensures StatusAfter(res) == ACKED || StatusAfter(res) == REJECTED ==>
              && res.response.EventReply? && (res.response.response.Accepted? || res.response.response.Rejected?)
              && Answered(k, res) == Shown(k, res.response.response.snapshot)
    ensures StatusAfter(res) != CONFLICT && StatusAfter(res) != ACKED && StatusAfter(res) != REJECTED ==> Answered(k, res) == k
  {
    hide Resync;
    hide Shown;
  }

  lemma ShownKeeps(e: Env, s: System, snapshot: P.Snapshot)
    requires Inv(e, s) && Past(s, snapshot)
    ensures Inv(e, s.(kiosk := Shown(s.kiosk, snapshot)))
  {
    hide Inv;
    var shown := s.(kiosk := s.kiosk.(projection := P.Applied(s.kiosk.projection, snapshot)));
    ShownPast(e, s, snapshot, shown);
    ResyncKeeps(e, shown);
    assert Shown(s.kiosk, snapshot) == shown.kiosk || Shown(s.kiosk, snapshot) == Resync(shown.kiosk);
    hide *;
  }

  /** The snapshot of an answer is one the server has shown. */
  lemma AnswerPast(e: Env, s: System, res: N.NetworkResult<Reply>)
    requires Snapshots(e, s) && Truthful(e, s, res) && (StatusAfter(res) == ACKED || StatusAfter(res) == REJECTED)
    ensures Past(s, res.response.response.snapshot)
  {
    assert KeyOf(e, res.eventId) in s.server.cache;
  }

  lemma ShownPast(e: Env, s: System, snapshot: P.Snapshot, shown: System)
    requires Inv(e, s) && Past(s, snapshot) && shown == s.(kiosk := s.kiosk.(projection := P.Applied(s.kiosk.projection, snapshot)))
    ensures Inv(e, shown)
  {
    InvParts(e, s);
    hide Inv;
    assert shown.kiosk.projection.Some? ==> Past(s, shown.kiosk.projection.value);
    hide *;
    ShownFrame(e, s, shown);
  }

  lemma ResyncKeeps(e: Env, s: System)
    requires Inv(e, s)
    ensures Inv(e, s.(kiosk := Resync(s.kiosk)))
  {
    var s' := s.(kiosk := Resync(s.kiosk));
    assert Quiet(s, s') && s'.kiosk == s.kiosk.(resyncing := true, worker := N.After(s.kiosk.worker, N.ENQUEUE(STATE_FETCH)));
    assert Carried(s, STATE_FETCH);
    InvParts(e, s);
    hide *;
    QuietFrame(e, s, s');
    QueuedKeeps(e, s, STATE_FETCH, s');
    ReplayFrame(s, s');
    InvMade(e, s');
  }
}
