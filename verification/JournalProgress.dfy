/** What the journal gets done on a flash that does not fail: whatever begins, ends. */
module JournalProgress {
  import opened Bytes
  import opened Frames
  import opened JournalFile
  import opened JournalRecord
  import opened JournalIndex
  import opened IndexLaws
  import opened EventJournal
  import opened JournalDurability
  import opened CompactionWindow

  /** What appends wrote validates. */
  lemma LogValidates(bodies: seq<bytes>)
    requires |Log(bodies)| < U32_BOUND
    ensures AllCommitted(Log(bodies), |bodies|)
  {
    AllStorable(bodies);
    hide *;
    RecoverLog(bodies);
    assert |Intact(bodies, 0)| == |bodies|;
    CommittedCount(Log(bodies), |bodies|);
  }

  lemma {:induction false} KeptCount(records: map<bytes, Record>, ids: seq<bytes>)
    requires forall id <- ids :: id in records
    ensures |KeptBodies(records, ids)| == |ids|
    decreases |ids|
  {
    hide EncodeEvent;
    if ids != [] {
      assert ids[0] in ids;
      KeptCount(records, ids[1..]);
    }
  }

  // --- One call of compact ---

  /** Nothing is unanswered, and the policy retains nothing of what is answered. */
  ghost predicate KeepsNothing(records: map<bytes, Record>, policy: CompactionPolicy) {
    forall id | id in records :: Terminal(records[id].syncStatus) && Retention(policy, records[id].syncStatus) == Some(0)
  }

  /** compact fails without a fault of the flash in two cases only: an old log stands in the way, or there is a record
    * but none to keep. */
  lemma CompactSucceeds(j: JournalState, policy: CompactionPolicy, keep: seq<bytes>, ok: bool)
    requires KeepList(j.index.records, policy, keep) && |Log(KeptBodies(j.index.records, keep))| < U32_BOUND
    requires CompactDone(j, keep, ok)
    ensures ok <==> NothingToDrop(j.index.records, policy) || (SwapClear(j.disk) && !KeepsNothing(j.index.records, policy))
  {
    var records := j.index.records;
    DropsExactly(records, policy, keep);
    KeepsNothingExactly(records, policy, keep);
    assert forall id <- keep :: id in Elements(keep);
    hide KeepList;
    KeptCount(records, keep);
    LogValidates(KeptBodies(records, keep));
    hide KeptBodies;
    hide Log;
    hide AllCommitted;
    hide NothingToDrop;
    hide KeepsNothing;
  }

  lemma KeepsNothingExactly(records: map<bytes, Record>, policy: CompactionPolicy, keep: seq<bytes>)
    requires KeepList(records, policy, keep)
    ensures keep == [] <==> KeepsNothing(records, policy)
  {
    forall id | id in records
      ensures KeptOf(records, Elements(keep), policy, records[id].syncStatus) && id in Bucket(records, records[id].syncStatus)
    {
    }
    if keep == [] {
      forall id | id in records
        ensures Terminal(records[id].syncStatus) && Retention(policy, records[id].syncStatus) == Some(0)
      {
        var s := records[id].syncStatus;
        assert Bucket(records, s) * Elements(keep) == {};
      }
    } else {
      var id := keep[0];
      assert id in Elements(keep);
      var s := records[id].syncStatus;
      assert id in Bucket(records, s) * Elements(keep);
    }
  }

  // --- Ticks ---

  /** In the window of a compaction, whatever was appended since, a tick without a fault writes the next ten records or,
    * at the end, swaps. It can fail to only when an old log stands in the way. */
  lemma TickGoesOn(start: JournalState, image: Image, j: JournalState, outcome: TickOutcome)
    requires InWindow(start, image, j) && j.keep != [] && |TickLog(j)| < U32_BOUND && TickDone(j, outcome)
    ensures outcome == if j.next + RECORDS_PER_TICK < |j.keep| then MORE else if SwapClear(j.disk) then SWAPPED else SWAP_FAILED
  {
    assert j.active && j.next <= |j.keep|;
    if j.next + RECORDS_PER_TICK >= |j.keep| {
      LastTickValidates(start, image, j);
    }
    TickWrites(start, image, j);
    hide *;
    TickCases(j, outcome);
  }

  lemma LastTickValidates(start: JournalState, image: Image, j: JournalState)
    requires InWindow(start, image, j) && j.keep != [] && |TickLog(j)| < U32_BOUND && j.next + RECORDS_PER_TICK >= |j.keep|
    ensures AllCommitted(TickLog(j), |j.keep|) && TMP in TempWritten(j.disk, KeptBodies(j.index.records, Chunk(j)))
  {
    var final := AfterChunk(image, j.index.records, Chunk(j));
    assert Min(j.next + RECORDS_PER_TICK, |j.keep|) == |j.keep| && j.keep[..|j.keep|] == j.keep;
    TickWrites(start, image, j);
    hide *;
    Members(j.keep);
    KeptCount(final, j.keep);
    LogValidates(KeptBodies(final, j.keep));
    LogNotEmpty(KeptBodies(final, j.keep));
    TempLogged(j);
  }

  lemma TempLogged(j: JournalState)
    requires j.next <= |j.keep| && TickLog(j) != []
    ensures TMP in TempWritten(j.disk, KeptBodies(j.index.records, Chunk(j)))
  {
    TempThere(TempWritten(j.disk, KeptBodies(j.index.records, Chunk(j))));
    hide TempWritten;
    hide KeptBodies;
    hide Chunk;
  }

  lemma TempThere(d: Disk)
    ensures Content(d, TMP) != [] ==> TMP in d
  {
  }

  lemma LogNotEmpty(bodies: seq<bytes>)
    ensures bodies != [] ==> Log(bodies) != []
  {
  }

  lemma TickCases(j: JournalState, outcome: TickOutcome)
    requires j.active && j.next <= |j.keep| && TickDone(j, outcome)
    requires j.next + ChunkEnd(j.index.records, Chunk(j)) == Min(j.next + RECORDS_PER_TICK, |j.keep|)
    requires j.next + RECORDS_PER_TICK >= |j.keep| ==>
               AllCommitted(TickLog(j), |j.keep|) && TMP in TempWritten(j.disk, KeptBodies(j.index.records, Chunk(j)))
    ensures outcome == if j.next + RECORDS_PER_TICK < |j.keep| then MORE else if SwapClear(j.disk) then SWAPPED else SWAP_FAILED
  {
    hide AllCommitted;
    hide TickLog;
    hide TempWritten;
    hide KeptBodies;
    hide Chunk;
    hide ChunkEnd;
    hide SwapClear;
  }

  /** A tick of a healthy flash, and how it came out. */
  ghost predicate HealthyTick(j: JournalState, outcome: TickOutcome, j': JournalState) {
    j.next <= |j.keep| && TickStep(j, outcome, j') && TickDone(j, outcome)
  }

  function TicksFor(n: nat): (ticks: nat) {
    (n + 9) / 10
  }

  /** So an incremental compaction comes to its end: of the ticks after begin_compaction the ceil(kept / 10)-th swaps and
    * those before it each write ten records. */
  lemma {:induction false} TicksSwap(begun: JournalState, policy: CompactionPolicy, run: seq<JournalState>,
                                     outcomes: seq<TickOutcome>)
    requires Sound(begun.index.records) && |run| == |outcomes| + 1 && BeginStep(begun, policy, true, run[0])
    requires SwapClear(begun.disk) && run[0].keep != [] && |Log(KeptBodies(begun.index.records, run[0].keep))| < U32_BOUND
    requires forall i | 0 <= i < |outcomes| :: HealthyTick(run[i], outcomes[i], run[i + 1])
    requires |outcomes| <= TicksFor(|run[0].keep|)
    ensures forall i | 0 <= i < |outcomes| :: outcomes[i] == if i + 1 == TicksFor(|run[0].keep|) then SWAPPED else MORE
    decreases |outcomes|
  {
    hide BeginStep;
    hide HealthyTick;
    hide Log;
    hide KeptBodies;
    hide SwapClear;
    var n := |outcomes|;
    if n > 0 {
      TicksSwap(begun, policy, run[..n], outcomes[..n - 1]);
      assert forall i | 0 <= i < n - 1 :: outcomes[..n - 1][i] == outcomes[i];
      forall i | 0 < i < n
        ensures TickMore(run[..n][i - 1], run[..n][i])
      {
        assert HealthyTick(run[i - 1], outcomes[i - 1], run[i - 1 + 1]) && outcomes[i - 1] == MORE;
        MoreIsMore(run[i - 1], run[i]);
      }
      LastTick(begun, policy, run[..n], outcomes[n - 1], run[n]);
    }
  }

  lemma MoreIsMore(j: JournalState, j': JournalState)
    requires HealthyTick(j, MORE, j')
    ensures TickMore(j, j')
  {
    hide TickStep;
    hide TickDone;
  }

  lemma LastTick(begun: JournalState, policy: CompactionPolicy, run: seq<JournalState>, outcome: TickOutcome, j': JournalState)
    requires Sound(begun.index.records) && run != [] && BeginStep(begun, policy, true, run[0])
    requires SwapClear(begun.disk) && run[0].keep != [] && |Log(KeptBodies(begun.index.records, run[0].keep))| < U32_BOUND
    requires forall i | 0 < i < |run| :: TickMore(run[i - 1], run[i])
    requires HealthyTick(run[|run| - 1], outcome, j')
    ensures outcome == if |run| == TicksFor(|run[0].keep|) then SWAPPED else MORE
  {
    var start, j := run[0], run[|run| - 1];
    assert TickDone(j, outcome);
    BegunFields(begun, policy, start);
    BeginOpensWindow(begun, policy, start);
    BegunDisk(begun, policy, start);
    hide TickMore;
    hide InWindow;
    hide BeginStep;
    hide HealthyTick;
    hide TickDone;
    hide KeptBodies;
    hide Log;
    hide Sound;
    hide KeepList;
    QuietTicks(start, run);
    QuietLog(start, j);
    SwapClearSeen(begun.disk, j.disk);
    hide View;
    hide SwapClear;
    TickGoesOn(start, Restricted(start.index.records, start.keep[..j.next]), j, outcome);
  }

  lemma BegunDisk(begun: JournalState, policy: CompactionPolicy, start: JournalState)
    requires BeginStep(begun, policy, true, start)
    ensures View(start.disk) == View(begun.disk)
  {
    hide KeepList;
  }

  lemma RestrictedKept(records: map<bytes, Record>, ids: seq<bytes>)
    ensures KeptBodies(Restricted(records, ids), ids) == KeptBodies(records, ids)
  {
    SameKept(Restricted(records, ids), records, ids);
  }

  lemma PrefixLog(records: map<bytes, Record>, keep: seq<bytes>, end: nat)
    requires end <= |keep|
    ensures |Log(KeptBodies(records, keep[..end]))| <= |Log(KeptBodies(records, keep))|
  {
    hide *;
    assert keep == keep[..end] + keep[end..];
    KeptAppend(records, keep[..end], keep[end..]);
    LogAppend(KeptBodies(records, keep[..end]), KeptBodies(records, keep[end..]));
  }

  /** What a quiet window has written is the beginning of what it will write. */
  lemma QuietLog(start: JournalState, j: JournalState)
    requires j.index == start.index && j.keep == start.keep && j.next <= |j.keep|
    requires InWindow(start, Restricted(start.index.records, start.keep[..j.next]), j)
    ensures |TickLog(j)| <= |Log(KeptBodies(start.index.records, start.keep))|
  {
    var records, keep, end := start.index.records, start.keep, Min(j.next + RECORDS_PER_TICK, |j.keep|);
    assert j.next <= end <= |keep| && Chunk(j) == keep[j.next..end];
    QuietTickLog(start, j, end);
    hide *;
    RestrictedKept(records, keep[..end]);
    PrefixLog(records, keep, end);
  }

  lemma QuietTickLog(start: JournalState, j: JournalState, end: nat)
    requires j.index == start.index && j.keep == start.keep && j.next <= |j.keep|
    requires end == Min(j.next + RECORDS_PER_TICK, |j.keep|) && j.next <= end && Chunk(j) == j.keep[j.next..end]
    requires InWindow(start, Restricted(start.index.records, start.keep[..j.next]), j)
    ensures TickLog(j) == Log(KeptBodies(Restricted(start.index.records, start.keep[..end]), start.keep[..end]))
  {
    hide InWindow;
    hide TickLog;
    hide Log;
    hide KeptBodies;
    hide Restricted;
    hide AfterChunk;
    hide Chunk;
    hide ChunkEnd;
    hide Sound;
    hide Elements;
    TickWrites(start, Restricted(start.index.records, start.keep[..j.next]), j);
    ImageGrows(start.index.records, start.keep, j.next, end);
  }
}
