/** Durability over whole runs: power cuts at any point of an append, a compaction or a recovery; agreement of
  * the index with its log; and what happens when the conditions the design relies on do not hold. */
module JournalDurability {
  import opened Bytes
  import opened Crc32
  import opened Frames
  import opened JournalFile
  import opened JournalRecord
  import opened JournalIndex
  import opened IndexLaws
  import opened EventJournal

  function LogBytes(d: Disk): (log: bytes) {
    GetOr(View(d).dat, [])
  }

  /** The index is what a boot would read from the log, which the device wrote and which fits a 32-bit size. */
  ghost predicate Loaded(j: JournalState) {
    var bodies := Recovered(LogBytes(j.disk));
    && InPlace(j.disk)
    && |LogBytes(j.disk)| < U32_BOUND
    && (forall b <- bodies :: Faithful(b))
    && j.index == Folded(EMPTY, bodies)
  }

  /** No torn tail: the log is made of committed frames only. */
  ghost predicate Aligned(j: JournalState) {
    LogBytes(j.disk) == Log(Recovered(LogBytes(j.disk)))
  }

  /** The log is where appends go, not set aside by a swap that stranded. */
  ghost predicate InPlace(d: Disk) {
    View(d).dat.Some? || View(d).aside.None?
  }

  /** An append made now starts a frame where the next boot will look for one. */
  ghost predicate Ready(d: Disk) {
    InPlace(d) && |LogBytes(d)| < U32_BOUND && LogBytes(d) == Log(Recovered(LogBytes(d)))
  }

  // --- Power cuts ---

  /** Boot recovery cut short and started again, any number of times. */
  ghost predicate RecoveryRun(states: seq<LogFiles>) {
    states != [] && forall i | 0 < i < |states| :: RecoveryState(states[i - 1], states[i])
  }

  /** Cutting recovery short any number of times changes nothing about what is recovered. */
  lemma {:induction false} RecoveryRestarts(states: seq<LogFiles>)
    requires RecoveryRun(states)
    ensures Restored(states[|states| - 1]) == Restored(states[0])
    ensures Boot(states[|states| - 1]) == Boot(states[0])
    decreases |states|
  {
    var n := |states|;
    if n > 1 {
      assert RecoveryRun(states[..n - 1]);
      RecoveryRestarts(states[..n - 1]);
      assert RecoveryState(states[n - 2], states[n - 1]);
    }
  }

  /** Power lost in any state of a compaction, then in any number of recoveries: the boot that finally
    * completes finds the old log or the whole new one. */
  lemma CompactionCut(before: LogFiles, log: bytes, states: seq<LogFiles>)
    requires RecoveryRun(states) && CompactionState(before, log, states[0])
    ensures var v := states[|states| - 1]; Restored(v) == Restored(before) || Restored(v).dat == Some(log)
  {
    RecoveryRestarts(states);
  }

  lemma {:induction false} RecoveredShort(log: bytes)
    ensures |Log(Recovered(log))| <= |log|
    decreases |log|
  {
    hide Frame;
    var h := ReadHead(log);
    hide ReadHead;
    if h.Committed? {
      RecoveredShort(log[h.size..]);
      var bodies := [h.body] + Recovered(log[h.size..]);
      assert Recovered(log) == bodies && bodies[1..] == Recovered(log[h.size..]);
    } else {
      var none: seq<bytes> := [];
      assert Recovered(log) == none && Log(none) == [];
    }
  }

  lemma {:induction false} BodiesFit(bodies: seq<bytes>, body: bytes)
    requires body in bodies
    ensures |body| < |Log(bodies)|
    decreases |bodies|
  {
    if body != bodies[0] {
      BodiesFit(bodies[1..], body);
    }
  }

  lemma FaithfulWritten(bodies: seq<bytes>)
    requires forall b <- bodies :: Faithful(b)
    ensures forall b <- bodies :: Written(b)
  {
    forall b <- bodies
      ensures Written(b)
    {
      assert Faithful(b);
    }
  }

  /** The log a compaction writes for a loaded index: it reads back in full, as exactly the rebuilt index, and
    * it is no longer than the log it replaces. */
  lemma CompactedLog(j: JournalState, policy: CompactionPolicy, keep: seq<bytes>)
    requires Loaded(j) && KeepList(j.index.records, policy, keep)
    ensures var bodies := KeptBodies(j.index.records, keep);
            && Recovered(Log(bodies)) == bodies
            && Folded(EMPTY, bodies) == Rebuilt(j.index, keep)
            && |Log(bodies)| <= |LogBytes(j.disk)|
            && (forall b <- bodies :: Faithful(b))
  {
    hide Recovered;
    hide Log;
    hide Faithful;
    hide Folded;
    hide Rebuilt;
    hide KeptOf;
    var old_, bodies := Recovered(LogBytes(j.disk)), KeptBodies(j.index.records, keep);
    RecoveredShort(LogBytes(j.disk));
    FaithfulWritten(old_);
    CompactionNeverGrows(old_, policy, keep);
    NothingSound();
    FoldSound(EMPTY, old_);
    RebuiltIsFold(j.index, keep);
    forall b <- bodies
      ensures Storable(b)
    {
      BodiesFit(bodies, b);
    }
    RecoverLog(bodies);
    KeptFaithful(j.index.records, keep);
  }

  lemma NothingSound()
    ensures Sound(EMPTY.records)
  {
  }

  lemma {:induction false} KeptFaithful(records: map<bytes, Record>, keep: seq<bytes>)
    requires Sound(records)
    ensures forall b <- KeptBodies(records, keep) :: Faithful(b)
    decreases |keep|
  {
    hide EncodeEvent;
    hide Encodable;
    if keep != [] {
      KeptFaithful(records, keep[1..]);
    }
  }

  /** Compaction is crash-atomic: wherever it and the recoveries after it are cut, the next boot loads the index
    * from before or the fully compacted one, and either holds every unanswered record as it was last updated. */
  lemma CompactionCrashAtomic(j: JournalState, policy: CompactionPolicy, keep: seq<bytes>, states: seq<LogFiles>)
    requires Loaded(j) && KeepList(j.index.records, policy, keep)
    requires RecoveryRun(states)
    requires CompactionState(View(j.disk), Log(KeptBodies(j.index.records, keep)), states[0])
    ensures var s := Boot(states[|states| - 1]);
            && (s == j.index || s == Rebuilt(j.index, keep))
            && forall id | id in j.index.records && Unanswered(j.index.records[id]) ::
                 id in s.records && s.records[id] == j.index.records[id]
  {
    CompactionCut(View(j.disk), Log(KeptBodies(j.index.records, keep)), states);
    CompactedLog(j, policy, keep);
    UnansweredKept(j.index, policy, keep);
    hide Folded;
    hide Recovered;
    hide Log;
    hide KeptBodies;
    hide Rebuilt;
    hide KeepList;
  }

  /** A frame put down in full on a log that ends on a frame boundary is what the next boot applies, and the log ends
    * on a boundary again. */
  lemma BootGrown(d: Disk, body: bytes)
    requires Ready(d) && |LogBytes(d)| + |Frame(body)| < U32_BOUND
    ensures var d' := Grown(d, DAT, Frame(body));
            && Boot(View(d')) == Applied(Boot(View(d)), body, |body| + FRAME_OVERHEAD)
            && Ready(d') && LogBytes(d') == LogBytes(d) + Frame(body)
            && Recovered(LogBytes(d')) == Recovered(LogBytes(d)) + [body]
  {
    hide Applied;
    hide Frame;
    var bodies := Recovered(LogBytes(d));
    assert Content(d, DAT) == LogBytes(d);
    LogAppend(bodies, [body]);
    LogOne(body);
    AllStorable(bodies + [body]);
    RecoverLog(bodies + [body]);
    FoldAppend(EMPTY, bodies, [body]);
    FoldOne(Folded(EMPTY, bodies), body);
    hide Folded;
    hide Log;
    hide Recovered;
  }

  /** A frame that was cut short leaves the next boot what it would have had anyway. */
  lemma BootTorn(d: Disk, body: bytes, d': Disk)
    requires Ready(d) && Storable(body) && AppendState(d, d', DAT, Frame(body)) && d' != Grown(d, DAT, Frame(body))
    ensures Boot(View(d')) == Boot(View(d)) && InPlace(d') && Recovered(LogBytes(d')) == Recovered(LogBytes(d))
  {
    hide Frame;
    var bodies := Recovered(LogBytes(d));
    if d' != d {
      var k: nat :| k <= |Frame(body)| && d' == d[DAT := Content(d, DAT) + Frame(body)[..k]];
      assert Content(d, DAT) == LogBytes(d);
      assert Frame(body)[..|Frame(body)|] == Frame(body);
      AllStorable(bodies);
      TornAppend(bodies, body, k);
      hide Folded;
      hide Log;
      hide Recovered;
    }
  }

  /** Power lost during an append to an aligned log: the boot loads the index from before, or, when the commit
    * marker got out, the index with exactly that frame applied. */
  lemma AppendCut(j: JournalState, body: bytes, d: Disk)
    requires Loaded(j) && Aligned(j) && AppendState(j.disk, d, DAT, Frame(body))
    requires |LogBytes(j.disk)| + |Frame(body)| < U32_BOUND
    ensures Boot(View(d)) == if d == Grown(j.disk, DAT, Frame(body)) then Applied(j.index, body, |body| + FRAME_OVERHEAD) else j.index
  {
    hide Applied;
    hide Faithful;
    hide Folded;
    hide Recovered;
    hide Log;
    if d == Grown(j.disk, DAT, Frame(body)) {
      BootGrown(j.disk, body);
    } else {
      BootTorn(j.disk, body, d);
    }
  }

  // --- Behind a torn tail ---

  lemma {:induction false} RecoveredBegins(log: bytes)
    ensures Log(Recovered(log)) <= log
    ensures !ReadHead(log[|Log(Recovered(log))|..]).Committed?
    decreases |log|
  {
    HeadBegins(log);
    var h := ReadHead(log);
    hide ReadHead;
    hide Frame;
    if h.Committed? {
      var more := log[h.size..];
      RecoveredBegins(more);
      var bodies := [h.body] + Recovered(more);
      assert Recovered(log) == bodies && bodies[1..] == Recovered(more);
      assert log == Frame(h.body) + more;
      var n := |Log(Recovered(more))|;
      assert log[h.size + n..] == more[n..];
    } else {
      var none: seq<bytes> := [];
      assert Recovered(log) == none && Log(none) == [] && log[0..] == log;
    }
  }

  /** A committed frame at the start of the log is the frame of its body, byte for byte. */
  lemma HeadBegins(log: bytes)
    ensures ReadHead(log).Committed? ==>
              ReadHead(log).size == |Frame(ReadHead(log).body)| && Frame(ReadHead(log).body) == log[..ReadHead(log).size]
  {
    if ReadHead(log).Committed? {
      var n := BytesToU32(log[..4]);
      var body := log[4..4 + n];
      hide Crc;
      U32RoundTrip(n);
      U32Injective(log[..4], U32ToBytes(n));
      U32RoundTrip(Crc(body));
      U32Injective(log[4 + n..8 + n], U32ToBytes(Crc(body)));
      hide U32ToBytes;
      hide BytesToU32;
      assert log[..9 + n] == log[..4] + log[4..4 + n] + log[4 + n..8 + n] + [log[8 + n]];
    }
  }

  /** What follows the last frame a boot reads from the log. */
  function Rest(d: Disk): (rest: bytes)
  {
    RecoveredBegins(LogBytes(d));
    LogBytes(d)[|Log(Recovered(LogBytes(d)))|..]
  }

  /** What was written behind a torn tail does not happen to complete it to a frame. */
  ghost predicate Hidden(d: Disk, d': Disk) {
    LogBytes(d) <= LogBytes(d') && !ReadHead(Rest(d) + LogBytes(d')[|LogBytes(d)|..]).Committed?
  }

  /** Whatever is written where no frame will be looked for is not read by a boot. */
  lemma BootHidden(d: Disk, d': Disk)
    requires InPlace(d) && InPlace(d') && Hidden(d, d') && |LogBytes(d)| < U32_BOUND
    ensures Recovered(LogBytes(d')) == Recovered(LogBytes(d)) && Boot(View(d')) == Boot(View(d))
  {
    BootRead(d);
    BootRead(d');
    HiddenParts(d, d');
    var log := LogBytes(d);
    hide *;
    ScanHidden(log, LogBytes(d')[|log|..]);
    assert LogBytes(d') == log + LogBytes(d')[|log|..];
  }

  lemma BootRead(d: Disk)
    requires InPlace(d)
    ensures Boot(View(d)) == Folded(EMPTY, Recovered(LogBytes(d)))
  {
    hide Folded;
    hide Recovered;
  }

  lemma HiddenParts(d: Disk, d': Disk)
    requires Hidden(d, d')
    ensures var log := LogBytes(d);
            && log <= LogBytes(d') && Log(Recovered(log)) <= log
            && !ReadHead(log[|Log(Recovered(log))|..] + LogBytes(d')[|log|..]).Committed?
  {
    RecoveredBegins(LogBytes(d));
    hide LogBytes;
    hide Recovered;
    hide Log;
    hide ReadHead;
  }

  lemma ScanHidden(log: bytes, more: bytes)
    requires |log| < U32_BOUND && Log(Recovered(log)) <= log
    requires !ReadHead(log[|Log(Recovered(log))|..] + more).Committed?
    ensures Recovered(log + more) == Recovered(log)
  {
    hide *;
    var bodies, rest := Recovered(log), log[|Log(Recovered(log))|..];
    assert log == Log(bodies) + rest;
    Regroup(Log(bodies), rest, more);
    AllStorable(bodies);
    ScanStops(bodies, rest + more);
  }

  /** An append on a log that ends on a frame boundary tells the truth: the next boot has the event if and only if the
    * append reported success. */
  lemma AppendTellsTruth(capacity: nat, j: JournalState, r: Record, ok: bool, j': JournalState)
    requires Loaded(j) && Aligned(j) && AppendEventStep(capacity, j, r, ok, j') && Encodable(r)
    requires r.eventId !in j.index.records && |LogBytes(j.disk)| + |Frame(EncodeEvent(r))| < U32_BOUND
    ensures r.eventId in Boot(View(j'.disk)).records <==> ok
    ensures !ok ==> Boot(View(j'.disk)) == j.index
  {
    var body := EncodeEvent(r);
    FailedNotWhole(j.disk, j'.disk, Frame(body));
    WholeIsState(j.disk, Frame(body));
    hide Frame;
    hide EncodeEvent;
    hide Encodable;
    assert j'.disk == j.disk || AppendState(j.disk, j'.disk, DAT, Frame(body));
    AppendCut(j, body, j'.disk);
    AppendedEventAgrees(j.index, r);
    hide Loaded;
    hide Aligned;
    hide Applied;
    hide Boot;
  }

  /** What a failed append leaves is one of the states an append passes through, but not its last. */
  lemma FailedNotWhole(d: Disk, d': Disk, frame: bytes)
    requires frame != []
    ensures AppendFailed(d, d', DAT, frame) ==> AppendState(d, d', DAT, frame) && d' != Grown(d, DAT, frame)
  {
    if AppendFailed(d, d', DAT, frame) {
      if d' == d {
        assert |Grown(d, DAT, frame)[DAT]| == |Content(d, DAT)| + |frame|;
      } else {
        var k: nat :| k < |frame| && d' == d[DAT := Content(d, DAT) + frame[..k]];
        assert |Grown(d, DAT, frame)[DAT]| == |Content(d, DAT)| + |frame| && |d'[DAT]| == |Content(d, DAT)| + k;
      }
    }
  }

  lemma WholeIsState(d: Disk, frame: bytes)
    ensures AppendState(d, Grown(d, DAT, frame), DAT, frame) && AppendState(d, d, DAT, frame)
  {
    assert frame[..|frame|] == frame;
  }

  lemma AllStorable(bodies: seq<bytes>)
    requires |Log(bodies)| < U32_BOUND
    ensures forall b <- bodies :: Storable(b)
  {
    hide Log;
    forall b <- bodies
      ensures Storable(b)
    {
      BodiesFit(bodies, b);
    }
  }

  // --- Agreement of index and log over runs ---

  lemma GrownLog(j: JournalState, body: bytes, d: Disk)
    requires Loaded(j) && Aligned(j) && d == Grown(j.disk, DAT, Frame(body)) && |LogBytes(d)| < U32_BOUND && Faithful(body)
    ensures var j' := j.(disk := d, index := Applied(j.index, body, |body| + FRAME_OVERHEAD)); Loaded(j') && Aligned(j')
  {
    hide Applied;
    hide Frame;
    hide Faithful;
    assert Content(j.disk, DAT) == LogBytes(j.disk);
    BootGrown(j.disk, body);
    hide Recovered;
    hide Log;
    hide Folded;
  }

  /** A committed event append keeps index and log in agreement. */
  lemma AppendEventKeeps(capacity: nat, j: JournalState, r: Record, ok: bool, j': JournalState)
    requires Loaded(j) && Aligned(j) && AppendEventStep(capacity, j, r, ok, j')
    requires Encodable(r) && (ok || j'.disk == j.disk) && |LogBytes(j'.disk)| < U32_BOUND
    ensures Loaded(j') && Aligned(j')
  {
    hide Loaded;
    hide Aligned;
    hide Applied;
    hide Encodable;
    if ok {
      AppendedEventAgrees(j.index, r);
      GrownLog(j, EncodeEvent(r), j'.disk);
    }
  }

  /** So does a committed transition. */
  lemma AppendTransitionKeeps(j: JournalState, t: Transition, ok: bool, j': JournalState)
    requires Loaded(j) && Aligned(j) && AppendTransitionStep(j, t, ok, j')
    requires EncodableTransition(t) && (ok || j'.disk == j.disk) && |LogBytes(j'.disk)| < U32_BOUND
    ensures Loaded(j') && Aligned(j')
  {
    hide Loaded;
    hide Aligned;
    hide Applied;
    if ok {
      AppendedTransitionAgrees(j.index, t);
      GrownLog(j, EncodeTransition(t), j'.disk);
    }
  }

  lemma NewLog(j: JournalState, policy: CompactionPolicy, keep: seq<bytes>, j': JournalState)
    requires Loaded(j) && KeepList(j.index.records, policy, keep)
    requires View(j'.disk) == LogFiles(Some(Log(KeptBodies(j.index.records, keep))), None)
    requires j'.index == Rebuilt(j.index, keep)
    ensures Loaded(j') && Aligned(j')
  {
    CompactedLog(j, policy, keep);
    hide Recovered;
    hide Log;
    hide Faithful;
    hide Folded;
    hide KeptBodies;
    hide Rebuilt;
    hide KeepList;
  }

  /** A successful compaction leaves an aligned log, also when the log it replaced had a torn tail. */
  lemma CompactionRealigns(j: JournalState, policy: CompactionPolicy, keep: seq<bytes>, j': JournalState)
    requires Loaded(j) && CompactStep(j, policy, keep, true, j')
    ensures Loaded(j')
    ensures |keep| != |j.index.records| ==> Aligned(j')
  {
    hide Loaded;
    hide Aligned;
    hide Recovered;
    hide KeepList;
    if |keep| != |j.index.records| {
      NewLog(j, policy, keep, j');
    }
  }

  /** Where the power may go: between two calls; in an append, before anything of the frame is down or after all of it;
    * in a compaction. */
  ghost predicate CutState(j: JournalState, v: LogFiles) {
    || v == View(j.disk)
    || (exists d, body :: WholeAppend(j, body, d) && v == View(d))
    || exists policy, keep :: KeepList(j.index.records, policy, keep)
         && CompactionState(View(j.disk), Log(KeptBodies(j.index.records, keep)), v)
  }

  ghost predicate WholeAppend(j: JournalState, body: bytes, d: Disk) {
    Faithful(body) && |LogBytes(d)| < U32_BOUND
    && (d == Grown(j.disk, DAT, []) || d == Grown(j.disk, DAT, Frame(body)))
  }

  /** A reboot out of such a state, with recoveries cut short in between. */
  ghost predicate RebootStep(j: JournalState, j': JournalState) {
    exists states: seq<LogFiles> ::
      && RecoveryRun(states) && CutState(j, states[0])
      && View(j'.disk) == Restored(states[|states| - 1]) && j'.index == Boot(states[|states| - 1])
  }

  lemma RebootKeeps(j: JournalState, j': JournalState)
    requires Loaded(j) && Aligned(j) && RebootStep(j, j')
    ensures Loaded(j') && Aligned(j')
  {
    hide Faithful;
    hide KeepList;
    hide Recovered;
    hide Log;
    hide KeptBodies;
    hide Folded;
    hide Rebuilt;
    hide Frame;
    var states: seq<LogFiles> :|
      && RecoveryRun(states) && CutState(j, states[0])
      && View(j'.disk) == Restored(states[|states| - 1]) && j'.index == Boot(states[|states| - 1]);
    RecoveryRestarts(states);
    hide RecoveryRun;
    if d, body :| WholeAppend(j, body, d) && states[0] == View(d) {
      if d == Grown(j.disk, DAT, []) {
        assert LogBytes(d) == LogBytes(j.disk) + [] == LogBytes(j.disk);
      } else {
        assert LogBytes(d) == LogBytes(j.disk) + Frame(body);
        GrownLog(j, body, d);
        BootGrown(j.disk, body);
      }
    } else if states[0] != View(j.disk) {
      var policy, keep :| KeepList(j.index.records, policy, keep)
        && CompactionState(View(j.disk), Log(KeptBodies(j.index.records, keep)), states[0]);
      CompactedLog(j, policy, keep);
    }
  }

  /** The steps of a run on a log without torn appends. */
  ghost predicate RunStep(capacity: nat, j: JournalState, j': JournalState) {
    && |LogBytes(j'.disk)| < U32_BOUND
    && (|| (exists r, ok :: Encodable(r) && (ok || j'.disk == j.disk) && AppendEventStep(capacity, j, r, ok, j'))
        || (exists t, ok :: EncodableTransition(t) && (ok || j'.disk == j.disk) && AppendTransitionStep(j, t, ok, j'))
        || (exists policy, keep :: CompactStep(j, policy, keep, true, j'))
        || (exists policy, keep :: CompactStep(j, policy, keep, false, j') && View(j'.disk) == View(j.disk))
        || RebootStep(j, j'))
  }

  lemma StepKeeps(capacity: nat, j: JournalState, j': JournalState)
    requires Loaded(j) && Aligned(j) && RunStep(capacity, j, j')
    ensures Loaded(j') && Aligned(j')
  {
    if r, ok :| Encodable(r) && (ok || j'.disk == j.disk) && AppendEventStep(capacity, j, r, ok, j') {
      AppendEventKeeps(capacity, j, r, ok, j');
    } else if t, ok :| EncodableTransition(t) && (ok || j'.disk == j.disk) && AppendTransitionStep(j, t, ok, j') {
      AppendTransitionKeeps(j, t, ok, j');
    } else if policy, keep :| CompactStep(j, policy, keep, true, j') {
      CompactionRealigns(j, policy, keep, j');
    } else if policy, keep :| CompactStep(j, policy, keep, false, j') && View(j'.disk) == View(j.disk) {
      assert j' == j.(disk := j'.disk);
    } else {
      RebootKeeps(j, j');
    }
  }

  /** Log refinement: after any sequence of appends, compactions and reboots the index is the fold of the log,
    * and the bytes in use are its length. */
  lemma {:induction false} RunKeepsAgreement(capacity: nat, run: seq<JournalState>)
    requires run != [] && Loaded(run[0]) && Aligned(run[0])
    requires forall i | 0 < i < |run| :: RunStep(capacity, run[i - 1], run[i])
    ensures var j := run[|run| - 1];
            && Loaded(j) && Aligned(j)
            && j.index == Folded(EMPTY, Recovered(LogBytes(j.disk)))
            && j.index.used == |LogBytes(j.disk)|
    decreases |run|
  {
    hide RunStep;
    hide Recovered;
    hide Folded;
    hide Log;
    hide Faithful;
    var n := |run|;
    if n > 1 {
      RunKeepsAgreement(capacity, run[..n - 1]);
      StepKeeps(capacity, run[n - 2], run[n - 1]);
    }
    FoldCountsBytes(EMPTY, Recovered(LogBytes(run[n - 1].disk)));
  }
}
