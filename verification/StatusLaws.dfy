/** How long the journal goes on saying what it says of an event, in memory and over a boot. */
module StatusLaws {
  import opened Bytes
  import opened Frames
  import opened JournalFile
  import opened JournalRecord
  import opened JournalIndex
  import opened IndexLaws
  import opened EventJournal
  import opened JournalDurability
  import opened CompactionWindow
  import opened KioskRuntime
  import opened KioskSystem
  import opened SystemFrames
  import opened SystemJournal
  import N = NetworkWorker
  import S = MockBackend

  /** When ACKED is the last word: an acknowledged event that stays in the journal keeps its status at every step but two,
    * a poll that notes a result of that event which is not another acceptance, and a boot off a flash that says
    * otherwise. */
  lemma AckedEndsExactly(e: Env, s: System, step: Step, id: bytes)
    requires Inv(e, s) && Can(e, s, step)
    requires id in s.kiosk.index.records && s.kiosk.index.records[id].syncStatus == ACKED
    ensures var s' := Next(e, s, step);
            id in s'.kiosk.index.records ==>
              (s'.kiosk.index.records[id].syncStatus == ACKED <==>
               && !(step.POLL? && step.written && Reopens(s.kiosk, id))
               && !(step.REBOOT? && Differs(OnFlash(s.disk), id)))
    ensures step.REBOOT? ==> Next(e, s, step).kiosk.index.records == OnFlash(s.disk)
  {
    hide Inv;
    if step.SEND? {
      assert CanSend(e, s, step) && Next(e, s, step) == AfterSend(e, s, step);
      hide *;
      SendLeaves(e, s, step, id);
    } else if step.POLL? {
      assert CanPoll(s, step.t, step.written, step.end) && Next(e, s, step).kiosk.index == step.end.index;
      hide *;
      PollLeaves(s, step.t, step.written, step.end, id);
    } else if step.TICK? {
      assert (s.active ==> s.next <= |s.keep|) && TickStep(Journal(s), step.outcome, step.end);
      assert Next(e, s, step).kiosk.index == step.end.index;
      hide *;
      TickLeaves(s, step.outcome, step.end, id);
    } else if step.REBOOT? {
      hide Next;
      hide Can;
      hide OnFlash;
      BootReads(e, s, step);
    } else {
      hide *;
      IndexStays(e, s, step);
    }
  }

  ghost predicate Differs(records: map<bytes, Record>, id: bytes) {
    id in records && records[id].syncStatus != ACKED
  }

  lemma BootReads(e: Env, s: System, step: Step)
    requires Can(e, s, step) && step.REBOOT?
    ensures Next(e, s, step).kiosk.index.records == OnFlash(s.disk)
    ensures OnFlash(Next(e, s, step).disk) == OnFlash(s.disk)
  {
    RecoveryRestarts(step.cuts);
    RebootIndex(s, step.cuts, step.disk);
    hide Boot;
    hide View;
    hide Restored;
  }

  /** The result in the slot is one of this event's, and does not acknowledge it. */
  ghost predicate Reopens(k: Kiosk, id: bytes) {
    && k.worker.slot.Some? && N.Retried(k.worker.slot.value.kind) && k.worker.slot.value.eventId == id
    && StatusAfter(k.worker.slot.value) != ACKED
  }

  lemma SendLeaves(e: Env, s: System, step: Step, id: bytes)
    requires Inv(e, s) && step.SEND? && CanSend(e, s, step) && id in s.kiosk.index.records
    ensures var s' := AfterSend(e, s, step); id in s'.kiosk.index.records && s'.kiosk.index.records[id] == s.kiosk.index.records[id]
  {
    hide *;
    InvParts(e, s);
    RecordCreated(e, s, id);
    SentIsNew(e, s, step);
    SendEffect(e, s, step);
    SendMemory(e, s, step, AfterSend(e, s, step));
    EndIndex(AfterSend(e, s, step), step.end);
    MergedElsewhere(s.kiosk.index.records[step.record.eventId := step.record], InFlight(step.record, step.uptimeMs), id);
  }

  lemma SentIsNew(e: Env, s: System, step: Step)
    requires step.SEND? && CanSend(e, s, step)
    ensures step.record.eventId !in s.created && InFlight(step.record, step.uptimeMs).eventId == step.record.eventId
  {
    hide EventAppended;
    hide TransitionAppended;
    hide Made;
  }

  lemma EndIndex(s: System, end: JournalState)
    requires Journal(s) == end
    ensures s.kiosk.index == end.index
  {
  }

  lemma MergedElsewhere(records: map<bytes, Record>, t: Transition, id: bytes)
    requires id in records && id != t.eventId
    ensures id in MergedIn(records, t) && MergedIn(records, t)[id] == records[id]
  {
  }

  lemma RecordCreated(e: Env, s: System, id: bytes)
    requires Durable(e, s) && id in s.kiosk.index.records
    ensures id in s.created && Good(e, s, OnFlash(s.disk))
  {
    hide Encodable;
    hide Boot;
    hide View;
    assert GoodRecord(e, s, id, s.kiosk.index.records[id]);
  }

  lemma PollLeaves(s: System, t: Transition, written: bool, end: JournalState, id: bytes)
    requires CanPoll(s, t, written, end) && id in s.kiosk.index.records
    requires s.kiosk.index.records[id].syncStatus == ACKED
    ensures id in end.index.records
    ensures end.index.records[id].syncStatus == ACKED <==> !(written && Reopens(s.kiosk, id))
  {
    hide Frame;
    hide EncodeTransition;
    hide Lands;
  }

  lemma TickLeaves(s: System, outcome: TickOutcome, end: JournalState, id: bytes)
    requires (s.active ==> s.next <= |s.keep|) && TickStep(Journal(s), outcome, end) && id in s.kiosk.index.records
    ensures id in end.index.records ==> end.index.records[id] == s.kiosk.index.records[id]
  {
    hide KeptBytes;
    hide TempWritten;
    hide TickLog;
    hide Holds;
    hide Recovered;
    hide ChunkEnd;
  }

  lemma IndexStays(e: Env, s: System, step: Step)
    requires Can(e, s, step) && !step.SEND? && !step.POLL? && !step.TICK? && !step.REBOOT?
    ensures Next(e, s, step).kiosk.index == s.kiosk.index
  {
    hide S.Do;
    hide S.Recorded;
    hide N.After;
    hide Genuine;
    hide KeepList;
    hide ReplayList;
    hide ReplayDue;
    if !step.BEGIN? {
      hide Can;
    }
  }

  // --- Memory and flash ---

  /** Memory and flash hold the same record of an event. */
  ghost predicate Same(s: System, id: bytes) {
    id in s.kiosk.index.records && id in OnFlash(s.disk) && OnFlash(s.disk)[id] == s.kiosk.index.records[id]
  }

  /** A note of the event that a boot will not read, because it went behind a torn tail. */
  ghost predicate NotedBehindTear(s: System, step: Step, id: bytes) {
    && step.POLL? && step.written && step.t.eventId == id && !Ready(s.disk)
    && id in s.kiosk.index.records && Merged(s.kiosk.index.records[id], step.t) != s.kiosk.index.records[id]
  }

  /** A swap that puts down an older record of the event: it changed after the compaction had written it. */
  ghost predicate SwappedOld(s: System, step: Step, id: bytes) {
    && step.TICK? && step.outcome == SWAPPED && s.next <= |s.keep|
    && var final := AfterChunk(s.image, s.kiosk.index.records, Chunk(Journal(s)));
       id in final && id in s.kiosk.index.records && final[id] != s.kiosk.index.records[id]
  }

  /** Once memory and flash agree on an event they go on doing so, as long as it stays in the journal, at every step but
    * two: a note behind a torn tail, and a swap that puts down an older record. A boot makes them agree on everything. */
  lemma AgreementEndsExactly(e: Env, s: System, step: Step, id: bytes)
    requires Inv(e, s) && Can(e, s, step) && Same(s, id)
    ensures var s' := Next(e, s, step);
            id in s'.kiosk.index.records ==> (Same(s', id) <==> !NotedBehindTear(s, step, id) && !SwappedOld(s, step, id))
    ensures step.REBOOT? ==> Next(e, s, step).kiosk.index.records == OnFlash(Next(e, s, step).disk)
  {
    hide Inv;
    hide Same;
    hide NotedBehindTear;
    hide SwappedOld;
    if step.SEND? {
      SendSame(e, s, step, id);
    } else if step.POLL? {
      PollSame(e, s, step, id);
    } else if step.TICK? && step.outcome == SWAPPED {
      SwapSame(e, s, step, id);
    } else if step.REBOOT? {
      BootReads(e, s, step);
      BootSame(s, Next(e, s, step), step, id);
    } else {
      FlashStays(e, s, step);
      StaysSame(s, Next(e, s, step), step, id);
    }
    hide *;
  }

  lemma BootSame(s: System, s': System, step: Step, id: bytes)
    requires step.REBOOT? && s'.kiosk.index.records == OnFlash(s'.disk)
    ensures id in s'.kiosk.index.records ==> Same(s', id)
    ensures !NotedBehindTear(s, step, id) && !SwappedOld(s, step, id)
  {
    hide OnFlash;
  }

  lemma StaysSame(s: System, s': System, step: Step, id: bytes)
    requires Same(s, id) && s'.kiosk.index.records == s.kiosk.index.records && OnFlash(s'.disk) == OnFlash(s.disk)
    requires !step.POLL? && !(step.TICK? && step.outcome == SWAPPED)
    ensures Same(s', id) && !NotedBehindTear(s, step, id) && !SwappedOld(s, step, id)
  {
    hide OnFlash;
  }

  lemma FlashStays(e: Env, s: System, step: Step)
    requires Can(e, s, step) && !step.SEND? && !step.POLL? && !step.REBOOT? && !(step.TICK? && step.outcome == SWAPPED)
    ensures var s' := Next(e, s, step);
            s'.kiosk.index.records == s.kiosk.index.records && OnFlash(s'.disk) == OnFlash(s.disk)
  {
    if step.TICK? {
      TickStays(e, s, step);
    } else if step.BEGIN? {
      assert BeginStep(Journal(s), step.policy, step.started, step.end) && Next(e, s, step).disk == step.end.disk;
      assert Next(e, s, step).kiosk.index == step.end.index;
      BeginView(s, step.policy, step.started, step.end);
      hide *;
      SameView(step.end.disk, s.disk);
    } else {
      IndexStays(e, s, step);
      DiskStays(e, s, step);
      hide *;
    }
  }

  lemma SameView(d: Disk, d': Disk)
    requires View(d) == View(d')
    ensures OnFlash(d) == OnFlash(d')
  {
    hide Boot;
    hide View;
  }

  lemma SameRestored(d: Disk, d': Disk)
    requires Restored(View(d)) == Restored(View(d'))
    ensures OnFlash(d) == OnFlash(d')
  {
    hide Folded;
    hide Recovered;
    hide View;
    hide Restored;
  }

  lemma DiskStays(e: Env, s: System, step: Step)
    requires Can(e, s, step) && !step.SEND? && !step.POLL? && !step.REBOOT? && !step.TICK? && !step.BEGIN?
    ensures Next(e, s, step).disk == s.disk
  {
    hide Can;
    hide S.Do;
    hide S.Recorded;
    hide N.After;
    hide ReplayTicked;
    hide ReplayStarted;
    hide BootstrapTaken;
    hide Enqueued;
  }

  lemma TickStays(e: Env, s: System, step: Step)
    requires Can(e, s, step) && step.TICK? && step.outcome != SWAPPED
    ensures var s' := Next(e, s, step);
            s'.kiosk.index.records == s.kiosk.index.records && OnFlash(s'.disk) == OnFlash(s.disk)
  {
    hide TickStep;
    hide TickLog;
    assert TickStep(Journal(s), step.outcome, step.end) && (s.active ==> s.next <= |s.keep|);
    assert Next(e, s, step).disk == step.end.disk && Next(e, s, step).kiosk.index == step.end.index;
    hide Next;
    hide Can;
    if step.outcome == MORE {
      MoreView(s, step.end);
      SameView(step.end.disk, s.disk);
    } else {
      TickFailed(s, step.outcome, step.end);
      SameRestored(step.end.disk, s.disk);
    }
    hide OnFlash;
  }

  lemma SendSame(e: Env, s: System, step: Step, id: bytes)
    requires Inv(e, s) && Can(e, s, step) && step.SEND? && Same(s, id)
    ensures Same(Next(e, s, step), id) && !NotedBehindTear(s, step, id) && !SwappedOld(s, step, id)
  {
    hide Inv;
    hide CanSend;
    hide AfterSend;
    hide OnFlash;
    hide Ready;
    hide Chunk;
    hide AfterChunk;
    var s' := Next(e, s, step);
    assert CanSend(e, s, step) && s' == AfterSend(e, s, step) && id in s.kiosk.index.records;
    assert !NotedBehindTear(s, step, id) && !SwappedOld(s, step, id);
    hide *;
    InvParts(e, s);
    RecordCreated(e, s, id);
    SentIsNew(e, s, step);
    SendEffect(e, s, step);
    SendMemory(e, s, step, s');
    EndIndex(s', step.end);
    var r, t := step.record, InFlight(step.record, step.uptimeMs);
    SentSame(s, s', r, t, id, step.end);
  }

  lemma SentSame(s: System, s': System, r: Record, t: Transition, id: bytes, end: JournalState)
    requires Same(s, id) && id != r.eventId && id != t.eventId && Journal(s') == end
    requires var a, b := s.kiosk.index.records, OnFlash(s.disk);
             var a1, b1 := a[r.eventId := r], b[r.eventId := r];
             && (end.index.records == a || end.index.records == a1 || end.index.records == MergedIn(a1, t))
             && (OnFlash(end.disk) == b || OnFlash(end.disk) == b1 || OnFlash(end.disk) == MergedIn(b1, t))
    ensures Same(s', id)
  {
    hide OnFlash;
  }

  lemma PollSame(e: Env, s: System, step: Step, id: bytes)
    requires Inv(e, s) && Can(e, s, step) && step.POLL? && Same(s, id)
    ensures Same(Next(e, s, step), id) <==> !NotedBehindTear(s, step, id)
    ensures !SwappedOld(s, step, id)
  {
    var s' := Next(e, s, step);
    var t, end := step.t, step.end;
    assert CanPoll(s, t, step.written, end) && s'.disk == end.disk && s'.kiosk.index == end.index;
    assert !SwappedOld(s, step, id);
    InvParts(e, s);
    hide Inv;
    hide Next;
    hide Can;
    PollEffect(e, s, t, step.written, end);
    hide CanPoll;
    hide Durable;
    hide Ready;
    NotedSameOrNot(s, s', step, id);
  }

  lemma PollEffect(e: Env, s: System, t: Transition, written: bool, end: JournalState)
    requires Durable(e, s) && CanPoll(s, t, written, end)
    ensures end.index.records == (if written then MergedIn(s.kiosk.index.records, t) else s.kiosk.index.records)
    ensures OnFlash(end.disk) == (if written && Ready(s.disk) then MergedIn(OnFlash(s.disk), t) else OnFlash(s.disk))
  {
    hide Ready;
    hide OnFlash;
    if s.kiosk.worker.slot.Some? && N.Retried(s.kiosk.worker.slot.value.kind) {
      GoodIndex(e, s);
      CodeClean(s.kiosk.worker.slot.value);
      assert t.lastErrorCode == CodeOf(s.kiosk.worker.slot.value);
      hide CodeOf;
      NoteClean(e, s, t);
      assert TransitionAppended(Journal(s), t, written, end);
      hide CanPoll;
      TransitionTaken(Journal(s), t, written, end);
      TransitionEffect(Journal(s), t, written, end);
    }
    hide TransitionAppended;
    hide EncodableTransition;
  }

  lemma GoodIndex(e: Env, s: System)
    requires Durable(e, s)
    ensures Good(e, s, s.kiosk.index.records)
  {
    hide Good;
    hide Boot;
  }

  lemma TransitionTaken(j: JournalState, t: Transition, ok: bool, j': JournalState)
    requires TransitionAppended(j, t, ok, j')
    ensures ok ==> t.eventId in j.index.records
  {
    hide Lands;
    hide EncodeTransition;
    hide Frame;
  }

  lemma NotedSameOrNot(s: System, s': System, step: Step, id: bytes)
    requires step.POLL? && Same(s, id) && s'.disk == step.end.disk && s'.kiosk.index == step.end.index
    requires step.end.index.records == (if step.written then MergedIn(s.kiosk.index.records, step.t) else s.kiosk.index.records)
    requires OnFlash(step.end.disk) == (if step.written && Ready(s.disk) then MergedIn(OnFlash(s.disk), step.t) else OnFlash(s.disk))
    ensures Same(s', id) <==> !NotedBehindTear(s, step, id)
  {
    hide OnFlash;
    hide Ready;
  }

  lemma SwapSame(e: Env, s: System, step: Step, id: bytes)
    requires Inv(e, s) && Can(e, s, step) && step.TICK? && step.outcome == SWAPPED
    ensures !NotedBehindTear(s, step, id)
    ensures id in Next(e, s, step).kiosk.index.records ==> (Same(Next(e, s, step), id) <==> !SwappedOld(s, step, id))
  {
    var s', end := Next(e, s, step), step.end;
    assert !NotedBehindTear(s, step, id);
    hide NotedBehindTear;
    hide TickStep;
    hide TickLog;
    assert TickStep(Journal(s), SWAPPED, end) && s.next <= |s.keep| && |TickLog(Journal(s))| < U32_BOUND;
    assert s'.disk == end.disk && s'.kiosk.index == end.index;
    InvParts(e, s);
    hide Inv;
    hide Next;
    hide Can;
    SwapRecords(e, s, end);
    hide Window;
    SwapSameOrNot(s, s', step, id);
  }

  lemma SwapRecords(e: Env, s: System, end: JournalState)
    requires Window(e, s) && s.active && s.next <= |s.keep| && TickStep(Journal(s), SWAPPED, end) && |TickLog(Journal(s))| < U32_BOUND
    ensures var final := AfterChunk(s.image, s.kiosk.index.records, Chunk(Journal(s)));
            && OnFlash(end.disk) == final && final.Keys == end.index.records.Keys
    ensures forall id | id in end.index.records :: id in s.kiosk.index.records && end.index.records[id] == s.kiosk.index.records[id]
  {
    hide Good;
    SwapOutcome(s.start, s.image, Journal(s), end);
    SwapIndex(s, end);
    hide InWindow;
    hide TickStep;
    hide TickLog;
    hide AfterChunk;
    hide Boot;
  }

  lemma SwapSameOrNot(s: System, s': System, step: Step, id: bytes)
    requires step.TICK? && step.outcome == SWAPPED && s.next <= |s.keep|
    requires var final := AfterChunk(s.image, s.kiosk.index.records, Chunk(Journal(s)));
             && OnFlash(s'.disk) == final && final.Keys == s'.kiosk.index.records.Keys
    requires forall id | id in s'.kiosk.index.records ::
               id in s.kiosk.index.records && s'.kiosk.index.records[id] == s.kiosk.index.records[id]
    ensures id in s'.kiosk.index.records ==> (Same(s', id) <==> !SwappedOld(s, step, id))
  {
    hide OnFlash;
    hide AfterChunk;
    hide Chunk;
    var final := AfterChunk(s.image, s.kiosk.index.records, Chunk(Journal(s)));
    assert id in s'.kiosk.index.records.Keys <==> id in final.Keys;
  }
}
