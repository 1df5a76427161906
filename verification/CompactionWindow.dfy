/** Incremental compaction: the window between begin_compaction and the tick that swaps, during which the journal
  * keeps accepting appends. */
module CompactionWindow {
  import opened Bytes
  import opened Frames
  import opened JournalFile
  import opened JournalRecord
  import opened JournalIndex
  import opened IndexLaws
  import opened EventJournal
  import opened JournalDurability

  /** The records as they were when they were written to the temporary file. */
  type Image = map<bytes, Record>

  ghost predicate WindowStep(capacity: nat, j: JournalState, j': JournalState) {
    || (exists r, ok :: Encodable(r) && AppendEventStep(capacity, j, r, ok, j'))
    || (exists t, ok :: EncodableTransition(t) && AppendTransitionStep(j, t, ok, j'))
    || TickMore(j, j')
  }

  /** A tick that leaves more to do. */
  ghost predicate TickMore(j: JournalState, j': JournalState) {
    j.next <= |j.keep| && TickStep(j, MORE, j')
  }

  /** What holds throughout a window opened in state `start`. */
  ghost predicate InWindow(start: JournalState, image: Image, j: JournalState) {
    && j.active && j.keep == start.keep && j.next <= |j.keep|
    && Distinct(j.keep)
    && Elements(j.keep) <= start.index.records.Keys <= j.index.records.Keys
    && Sound(j.index.records) && Sound(image)
    && image.Keys == Elements(j.keep[..j.next])
    && Content(j.disk, TMP) == Log(KeptBodies(image, j.keep[..j.next]))
  }

  lemma {:induction false} SameKept(a: map<bytes, Record>, b: map<bytes, Record>, ids: seq<bytes>)
    requires forall id <- ids :: id in a <==> id in b
    requires forall id <- ids :: id in a ==> a[id] == b[id]
    ensures KeptBodies(a, ids) == KeptBodies(b, ids)
    decreases |ids|
  {
    hide EncodeEvent;
    if ids != [] {
      assert ids[0] in ids;
      SameKept(a, b, ids[1..]);
    }
  }

  lemma SlicesDisjoint(keep: seq<bytes>, a: nat, b: nat)
    requires Distinct(keep) && a <= b <= |keep|
    ensures keep[..b] == keep[..a] + keep[a..b]
    ensures forall id :: id in keep[..a] ==> id !in keep[a..b]
    ensures Elements(keep[..b]) == Elements(keep[..a]) + Elements(keep[a..b])
    ensures Elements(keep[a..b]) <= Elements(keep)
  {
    assert keep[..b] == keep[..a] + keep[a..b];
  }

  function AfterChunk(image: Image, records: map<bytes, Record>, chunk: seq<bytes>): (image': Image) {
    image + Restricted(records, chunk)
  }

  lemma ChunkWritten(image: Image, records: map<bytes, Record>, keep: seq<bytes>, a: nat, b: nat)
    requires Distinct(keep) && a <= b <= |keep|
    requires Elements(keep) <= records.Keys && image.Keys == Elements(keep[..a])
    requires Sound(image) && Sound(records)
    ensures var image' := AfterChunk(image, records, keep[a..b]);
            && Sound(image') && image'.Keys == Elements(keep[..b])
            && KeptBodies(image', keep[..b]) == KeptBodies(image, keep[..a]) + KeptBodies(records, keep[a..b])
  {
    hide KeptBodies;
    hide Encodable;
    var chunk := keep[a..b];
    var image' := AfterChunk(image, records, chunk);
    SlicesDisjoint(keep, a, b);
    Members(chunk);
    Members(keep[..a]);
    Members(keep);
    forall id <- chunk
      ensures id in image' && id in records && image'[id] == records[id]
    {
      assert id in Elements(chunk);
    }
    hide Distinct;
    SameKept(image', records, chunk);
    SameKept(image', image, keep[..a]);
    KeptAppend(image', keep[..a], chunk);
    assert image'.Keys == Elements(keep[..a]) + Elements(chunk);
  }

  lemma Members(ids: seq<bytes>)
    ensures forall id :: id in Elements(ids) <==> id in ids
  {
  }

  lemma LogGrows(d: Disk, done: seq<bytes>, more: seq<bytes>)
    requires Content(d, TMP) == Log(done)
    ensures Content(TempWritten(d, more), TMP) == Log(done + more)
    ensures View(TempWritten(d, more)) == View(d)
  {
    LogAppend(done, more);
    if more == [] {
      assert done + more == done;
    }
  }

  /** One tick writes the next chunk as the records stand now. */
  lemma TickWrites(start: JournalState, image: Image, j: JournalState)
    requires InWindow(start, image, j)
    ensures var image' := AfterChunk(image, j.index.records, Chunk(j));
            var end := Min(j.next + RECORDS_PER_TICK, |j.keep|);
            && j.next + ChunkEnd(j.index.records, Chunk(j)) == end
            && Sound(image') && image'.Keys == Elements(j.keep[..end])
            && TickLog(j) == Log(KeptBodies(image', j.keep[..end]))
  {
    hide KeptBodies;
    hide Log;
    hide Encodable;
    hide TempWritten;
    var end := Min(j.next + RECORDS_PER_TICK, |j.keep|);
    SlicesDisjoint(j.keep, j.next, end);
    assert forall id <- Chunk(j) :: id in Elements(Chunk(j)) && id in Elements(j.keep);
    ChunkWritten(image, j.index.records, j.keep, j.next, end);
    LogGrows(j.disk, KeptBodies(image, j.keep[..j.next]), KeptBodies(j.index.records, Chunk(j)));
  }

  lemma TickKeepsWindow(start: JournalState, image: Image, j: JournalState, j': JournalState)
    requires InWindow(start, image, j) && TickStep(j, MORE, j')
    ensures InWindow(start, AfterChunk(image, j.index.records, Chunk(j)), j')
    ensures j'.next == j.next + RECORDS_PER_TICK < |j.keep|
  {
    hide KeptBodies;
    hide Log;
    hide Encodable;
    hide AfterChunk;
    hide TempWritten;
    hide Chunk;
    TickWrites(start, image, j);
  }

  lemma AppendKeepsWindow(capacity: nat, start: JournalState, image: Image, j: JournalState, r: Record, ok: bool, j': JournalState)
    requires InWindow(start, image, j) && Encodable(r) && AppendEventStep(capacity, j, r, ok, j')
    ensures InWindow(start, image, j')
  {
    hide KeptBodies;
    hide Log;
    hide Encodable;
    hide Frame;
    assert Content(j'.disk, TMP) == Content(j.disk, TMP);
  }

  lemma TransitionKeepsWindow(start: JournalState, image: Image, j: JournalState, t: Transition, ok: bool, j': JournalState)
    requires InWindow(start, image, j) && EncodableTransition(t) && AppendTransitionStep(j, t, ok, j')
    ensures InWindow(start, image, j')
  {
    hide KeptBodies;
    hide Log;
    hide Frame;
    assert Content(j'.disk, TMP) == Content(j.disk, TMP);
    if ok {
      TransitionSound(j.index, t, |Frame(EncodeTransition(t))|);
    }
  }

  /** The window invariant over any interleaving of appends, transitions and ticks. */
  lemma {:induction false} WindowRun(capacity: nat, start: JournalState, run: seq<JournalState>) returns (image: Image)
    requires run != [] && InWindow(start, map[], run[0])
    requires forall i | 0 < i < |run| :: WindowStep(capacity, run[i - 1], run[i])
    ensures InWindow(start, image, run[|run| - 1])
    decreases |run|
  {
    hide InWindow;
    hide AppendEventStep;
    hide AppendTransitionStep;
    hide TickStep;
    hide Encodable;
    hide EncodableTransition;
    var n := |run|;
    if n == 1 {
      return map[];
    }
    image := WindowRun(capacity, start, run[..n - 1]);
    var j, j' := run[n - 2], run[n - 1];
    assert WindowStep(capacity, j, j');
    if r, ok :| Encodable(r) && AppendEventStep(capacity, j, r, ok, j') {
      AppendKeepsWindow(capacity, start, image, j, r, ok, j');
    } else if t, ok :| EncodableTransition(t) && AppendTransitionStep(j, t, ok, j') {
      TransitionKeepsWindow(start, image, j, t, ok, j');
    } else {
      TickKeepsWindow(start, image, j, j');
      image := AfterChunk(image, j.index.records, Chunk(j));
    }
  }

  /** begin_compaction opens the window. */
  lemma BeginOpensWindow(j: JournalState, policy: CompactionPolicy, start: JournalState)
    requires Sound(j.index.records) && BeginStep(j, policy, true, start)
    ensures InWindow(start, map[], start)
  {
    hide Encodable;
    hide KeptOf;
    var none: seq<bytes> := [];
    assert start.keep[..0] == none && Log(none) == [] && KeptBodies(map[], none) == [];
  }

  /** What the final tick leaves when its swap goes through: index and log hold exactly the ids selected at
    * begin_compaction, whatever was appended since; they agree if and only if no selected record changed
    * between its re-encoding and the swap. */
  lemma SwapOutcome(start: JournalState, image: Image, j: JournalState, j': JournalState)
    requires InWindow(start, image, j) && TickStep(j, SWAPPED, j')
    requires |TickLog(j)| < U32_BOUND
    ensures j'.index.records.Keys == Elements(start.keep)
    ensures Boot(View(j'.disk)).records.Keys == Elements(start.keep)
    ensures var final := AfterChunk(image, j.index.records, Chunk(j));
            && final.Keys == Elements(start.keep) && Boot(View(j'.disk)).records == final
            && (Boot(View(j'.disk)) == j'.index <==> forall id <- start.keep :: final[id] == j.index.records[id])
  {
    hide KeptBodies;
    hide Log;
    hide Encodable;
    hide Recovered;
    hide TempWritten;
    hide KeptBytes;
    hide Boot;
    TickWrites(start, image, j);
    var final := AfterChunk(image, j.index.records, Chunk(j));
    hide AfterChunk;
    assert j.keep[..|j.keep|] == j.keep;
    ReadsBack(final, j.keep);
    AgreesWhen(final, j.index, j.keep);
    Members(j.keep);
    hide TickLog;
    hide Chunk;
    hide Sound;
    hide Distinct;
  }

  /** A transition of a record that has been re-encoded already is dropped from the log by the swap but not from
    * the index: a reboot brings the older status back. */
  lemma ChangedAfterWriting(start: JournalState, image: Image, j: JournalState, j': JournalState, id: bytes)
    requires InWindow(start, image, j) && TickStep(j, SWAPPED, j')
    requires |TickLog(j)| < U32_BOUND
    requires id in j.keep[..j.next] && id in j.index.records && image[id] != j.index.records[id]
    ensures id in j'.index.records && j'.index.records[id] == j.index.records[id]
    ensures id in Boot(View(j'.disk)).records && Boot(View(j'.disk)).records[id] == image[id]
    ensures Boot(View(j'.disk)) != j'.index
  {
    assert j.next <= |j.keep| && j.keep == start.keep;
    hide *;
    SwapOutcome(start, image, j, j');
    AlreadyWritten(start, image, j, id);
    SwappedIndex(j, j');
  }

  lemma SwappedIndex(j: JournalState, j': JournalState)
    requires j.next <= |j.keep| && TickStep(j, SWAPPED, j')
    ensures forall id | id in j.keep && id in j.index.records ::
              id in j'.index.records && j'.index.records[id] == j.index.records[id]
  {
    hide KeptBytes;
    hide TempWritten;
    hide TickLog;
    hide Holds;
    hide Recovered;
    hide ChunkEnd;
  }

  lemma AlreadyWritten(start: JournalState, image: Image, j: JournalState, id: bytes)
    requires InWindow(start, image, j) && id in j.keep[..j.next]
    ensures id in image && id in start.keep && j.keep == start.keep
    ensures id in AfterChunk(image, j.index.records, Chunk(j)) && AfterChunk(image, j.index.records, Chunk(j))[id] == image[id]
  {
    hide KeptBodies;
    hide Log;
    hide Sound;
    Members(j.keep[..j.next]);
    SlicesDisjoint(j.keep, j.next, Min(j.next + RECORDS_PER_TICK, |j.keep|));
    assert id in Elements(j.keep[..j.next]);
  }

  lemma AgreesWhen(final: Image, s: IndexState, keep: seq<bytes>)
    requires final.Keys == Elements(keep) <= s.records.Keys
    ensures Rebuilt(s, keep).records.Keys == Elements(keep)
    ensures IndexState(final, KeptBytes(final, keep)) == Rebuilt(s, keep) <==> forall id <- keep :: final[id] == s.records[id]
  {
    hide KeptBytes;
    Members(keep);
    if forall id <- keep :: final[id] == s.records[id] {
      SameBytes(final, s.records, keep);
      assert Rebuilt(s, keep).records == final;
    } else {
      var id :| id in keep && final[id] != s.records[id];
      assert Rebuilt(s, keep).records[id] == s.records[id];
    }
  }

  /** A log holding one frame per id of `keep` boots to exactly those records. */
  lemma ReadsBack(records: Image, keep: seq<bytes>)
    requires Sound(records) && Distinct(keep) && records.Keys == Elements(keep)
    requires |Log(KeptBodies(records, keep))| < U32_BOUND
    ensures Boot(LogFiles(Some(Log(KeptBodies(records, keep))), None)) == IndexState(records, KeptBytes(records, keep))
  {
    hide KeptBodies;
    hide Log;
    hide Sound;
    AllStorable(KeptBodies(records, keep));
    RecoverLog(KeptBodies(records, keep));
    RebuiltIsFold(IndexState(records, 0), keep);
    RestrictAll(records, keep);
    hide Recovered;
    hide Folded;
  }

  lemma RestrictAll(records: map<bytes, Record>, keep: seq<bytes>)
    requires records.Keys == Elements(keep)
    ensures Restricted(records, keep) == records
  {
    assert forall id | id in records :: id in Elements(keep);
  }

  lemma {:induction false} SameBytes(a: map<bytes, Record>, b: map<bytes, Record>, ids: seq<bytes>)
    requires forall id <- ids :: id in a && id in b && a[id] == b[id]
    ensures KeptBytes(a, ids) == KeptBytes(b, ids)
    decreases |ids|
  {
    hide FrameSize;
    if ids != [] {
      assert ids[0] in ids;
      SameBytes(a, b, ids[1..]);
    }
  }

  /** Nothing appended in the window is lost if and only if no event was appended in it. */
  lemma WindowLosesAppends(capacity: nat, begun: JournalState, policy: CompactionPolicy, run: seq<JournalState>, j': JournalState)
    requires Sound(begun.index.records) && run != [] && BeginStep(begun, policy, true, run[0])
    requires forall i | 0 < i < |run| :: WindowStep(capacity, run[i - 1], run[i])
    requires run[|run| - 1].next <= |run[|run| - 1].keep| && TickStep(run[|run| - 1], SWAPPED, j')
    requires |TickLog(run[|run| - 1])| < U32_BOUND
    ensures var j := run[|run| - 1];
            var appended := j.index.records.Keys - begun.index.records.Keys;
            && j'.index.records.Keys == Boot(View(j'.disk)).records.Keys == Elements(run[0].keep)
            && appended * j'.index.records.Keys == {}
            && (appended <= j'.index.records.Keys <==> appended == {})
  {
    hide Encodable;
    hide KeptOf;
    hide TempWritten;
    BeginOpensWindow(begun, policy, run[0]);
    var image := WindowRun(capacity, run[0], run);
    var j := run[|run| - 1];
    SwapOutcome(run[0], image, j, j');
    hide InWindow;
    hide TickStep;
    var appended := j.index.records.Keys - begun.index.records.Keys;
    assert Elements(run[0].keep) <= begun.index.records.Keys;
    if appended <= j'.index.records.Keys {
      assert appended == appended * j'.index.records.Keys;
    }
  }

  // --- A window without appends ---

  /** Nothing but ticks since begin_compaction: everything written so far is as the records stood then. */
  lemma {:induction false} QuietTicks(start: JournalState, run: seq<JournalState>)
    requires run != [] && run[0] == start && InWindow(start, map[], start) && start.next == 0
    requires forall i | 0 < i < |run| :: TickMore(run[i - 1], run[i])
    ensures var j := run[|run| - 1];
            && j.keep == start.keep && j.next == RECORDS_PER_TICK * (|run| - 1) <= |j.keep| && (|run| > 1 ==> j.next < |j.keep|)
            && j.index == start.index && View(j.disk) == View(start.disk)
            && InWindow(start, Restricted(start.index.records, start.keep[..j.next]), j)
    decreases |run|
  {
    hide TickStep;
    hide KeptBodies;
    hide Log;
    hide Encodable;
    var n := |run|;
    if n == 1 {
      assert Restricted(start.index.records, start.keep[..0]) == map[];
    } else {
      QuietTicks(start, run[..n - 1]);
      hide InWindow;
      assert TickMore(run[n - 2], run[n - 1]);
      QuietTick(start, run[n - 2], run[n - 1]);
    }
  }

  lemma QuietTick(start: JournalState, j: JournalState, j': JournalState)
    requires j.index == start.index && j.next <= |start.keep|
    requires InWindow(start, Restricted(start.index.records, start.keep[..j.next]), j)
    requires TickStep(j, MORE, j')
    ensures j'.keep == start.keep && j'.next == j.next + RECORDS_PER_TICK < |j'.keep|
    ensures j'.index == start.index && View(j'.disk) == View(j.disk)
    ensures InWindow(start, Restricted(start.index.records, start.keep[..j'.next]), j')
  {
    var image := Restricted(start.index.records, start.keep[..j.next]);
    TickFields(start, image, j, j');
    TickKeepsWindow(start, image, j, j');
    hide *;
    LogGrowsView(j.disk, KeptBodies(j.index.records, Chunk(j)));
    ImageGrows(start.index.records, start.keep, j.next, j'.next);
  }

  lemma TickFields(start: JournalState, image: Image, j: JournalState, j': JournalState)
    requires InWindow(start, image, j) && TickStep(j, MORE, j')
    ensures j.keep == start.keep && j'.keep == j.keep && j'.index == j.index
    ensures j'.disk == TempWritten(j.disk, KeptBodies(j.index.records, Chunk(j)))
    ensures j.next + RECORDS_PER_TICK <= |j.keep| ==> Chunk(j) == start.keep[j.next..j.next + RECORDS_PER_TICK]
  {
    hide KeptBodies;
    hide Log;
    hide Sound;
    hide TempWritten;
    hide Content;
  }

  lemma ImageGrows(records: map<bytes, Record>, keep: seq<bytes>, a: nat, b: nat)
    requires a <= b <= |keep|
    ensures AfterChunk(Restricted(records, keep[..a]), records, keep[a..b]) == Restricted(records, keep[..b])
  {
    assert keep[..b] == keep[..a] + keep[a..b];
  }

  lemma LogGrowsView(d: Disk, bodies: seq<bytes>)
    ensures View(TempWritten(d, bodies)) == View(d)
  {
    hide Log;
  }

  /** With no append in the window the ticks do what one call of compact does: the same log, the same index,
    * after ceil(|keep| / 10) ticks. */
  lemma IncrementalIsOneShot(begun: JournalState, policy: CompactionPolicy, run: seq<JournalState>, j': JournalState)
    requires Sound(begun.index.records) && run != [] && BeginStep(begun, policy, true, run[0])
    requires forall i | 0 < i < |run| :: TickMore(run[i - 1], run[i])
    requires run[|run| - 1].next <= |run[|run| - 1].keep| && TickStep(run[|run| - 1], SWAPPED, j')
    ensures run[0].keep != [] ==> |run| == (|run[0].keep| + RECORDS_PER_TICK - 1) / RECORDS_PER_TICK
    ensures Holds(j'.disk, Log(KeptBodies(begun.index.records, run[0].keep)))
    ensures j'.index == Rebuilt(begun.index, run[0].keep)
    ensures run[0].keep != [] ==>
              CompactStep(begun, policy, run[0].keep, true, begun.(disk := j'.disk, index := j'.index))
  {
    var start, j := run[0], run[|run| - 1];
    BegunFields(begun, policy, start);
    BeginOpensWindow(begun, policy, start);
    hide TickMore;
    hide InWindow;
    hide BeginStep;
    QuietTicks(start, run);
    LastTickEnds(start, j, j');
    hide KeepList;
    hide Rebuilt;
    hide TickStep;
    hide Holds;
    hide Recovered;
    hide KeptBodies;
    hide Log;
  }

  lemma BegunFields(begun: JournalState, policy: CompactionPolicy, start: JournalState)
    requires BeginStep(begun, policy, true, start)
    ensures KeepList(begun.index.records, policy, start.keep) && |start.keep| != |begun.index.records|
    ensures start.index == begun.index && start.next == 0
  {
    hide KeepList;
  }

  lemma LastTickEnds(start: JournalState, j: JournalState, j': JournalState)
    requires j.index == start.index && j.keep == start.keep && j.next <= |j.keep| && TickStep(j, SWAPPED, j')
    requires InWindow(start, Restricted(start.index.records, start.keep[..j.next]), j)
    ensures |start.keep| <= j.next + RECORDS_PER_TICK
    ensures var log := Log(KeptBodies(start.index.records, start.keep));
            Holds(j'.disk, log) && |Recovered(log)| >= |start.keep| && j'.index == Rebuilt(start.index, start.keep)
  {
    LastTickFields(j, j');
    hide TickStep;
    LastTickWrites(start, j);
    hide *;
  }

  lemma LastTickFields(j: JournalState, j': JournalState)
    requires j.next <= |j.keep| && TickStep(j, SWAPPED, j')
    ensures |j.keep| <= j.next + RECORDS_PER_TICK && j'.index == Rebuilt(j.index, j.keep)
    ensures Holds(j'.disk, TickLog(j)) && |Recovered(TickLog(j))| >= |j.keep|
  {
    hide TickLog;
    hide Recovered;
    hide Rebuilt;
    hide Holds;
    hide KeptBodies;
    hide TempWritten;
  }

  /** The tick that completes a quiet window completes the image of the records as they stood at its start. */
  lemma LastTickWrites(start: JournalState, j: JournalState)
    requires j.index == start.index && j.next <= |start.keep| <= j.next + RECORDS_PER_TICK
    requires InWindow(start, Restricted(start.index.records, start.keep[..j.next]), j)
    ensures TickLog(j) == Log(KeptBodies(start.index.records, start.keep))
  {
    hide Encodable;
    hide KeptBodies;
    hide Log;
    hide TempWritten;
    var image := Restricted(start.index.records, start.keep[..j.next]);
    TickWrites(start, image, j);
    var final := AfterChunk(image, j.index.records, Chunk(j));
    assert j.keep[..|j.keep|] == j.keep;
    assert start.keep == start.keep[..j.next] + Chunk(j);
    Members(start.keep);
    SameKept(final, start.index.records, start.keep);
  }
}
