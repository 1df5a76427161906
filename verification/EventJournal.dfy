/** The durable journal: boot-time recovery, appends, and compaction through a validated temporary file that is
  * swapped in by renames, in one go or ten records at a time. */
module EventJournal {
  import opened Bytes
  import opened Frames
  import opened JournalFile
  import opened JournalRecord
  import opened JournalIndex
  import opened IndexLaws

  const RECORDS_PER_TICK := 10

  datatype JournalState = JournalState(disk: Disk, index: IndexState, active: bool, keep: seq<bytes>, next: nat)

  // --- Boot ---

  /** The two files a boot may find its log in. */
  datatype LogFiles = LogFiles(dat: Option<bytes>, aside: Option<bytes>)

  function View(d: Disk): (v: LogFiles) {
    LogFiles(if DAT in d then Some(d[DAT]) else None, if OLD in d then Some(d[OLD]) else None)
  }

  /** Boot recovery: an interrupted swap is undone when the log is missing, finished when it is there. */
  function Restored(v: LogFiles): (r: LogFiles) {
    LogFiles(if v.dat.None? then v.aside else v.dat, None)
  }

  /** The states recovery passes through; the temporary file goes first. */
  ghost predicate RecoveryState(before: LogFiles, v: LogFiles) {
    v == before || v == Restored(before)
  }

  /** The index a boot recovers from what a power cut left behind. */
  function Boot(v: LogFiles): (s: IndexState) {
    Folded(EMPTY, Recovered(GetOr(Restored(v).dat, [])))
  }

  // --- Steps ---

  function Grown(d: Disk, path: Path, more: bytes): (r: Disk) {
    d[path := Content(d, path) + more]
  }

  ghost predicate AppendEventStep(capacity: nat, j: JournalState, r: Record, ok: bool, j': JournalState) {
    var frame := Frame(EncodeEvent(r));
    if r.eventId in j.index.records || j.index.used + FrameSize(r) > capacity then !ok && j' == j
    else if ok then
      j' == j.(disk := Grown(j.disk, DAT, frame), index := AppendedEvent(j.index, r, FrameSize(r)))
    else
      j' == j.(disk := j'.disk) && AppendFailed(j.disk, j'.disk, DAT, frame)
  }

  ghost predicate AppendTransitionStep(j: JournalState, t: Transition, ok: bool, j': JournalState) {
    var frame := Frame(EncodeTransition(t));
    if t.eventId !in j.index.records then !ok && j' == j
    else if ok then
      j' == j.(disk := Grown(j.disk, DAT, frame), index := AppendedTransition(j.index, t, |frame|))
    else
      j' == j.(disk := j'.disk) && AppendFailed(j.disk, j'.disk, DAT, frame)
  }

  /** A swap that did not go through: the log is where it was, or set aside because the rename that should bring
    * it back failed too; a log found aside with no log in place was brought back. */
  ghost predicate SwapFailed(before: LogFiles, v: LogFiles) {
    || v == before
    || (before.dat.Some? && before.aside.None? && v == LogFiles(None, before.dat))
    || (before.dat.None? && before.aside.Some? && v == LogFiles(before.aside, None))
  }

  /** The states a compaction passes through: those of a swap that did not go through, then the new log. */
  ghost predicate CompactionState(before: LogFiles, log: bytes, v: LogFiles) {
    SwapFailed(before, v) || v.dat == Some(log)
  }

  /** The disk after a swap that went through. */
  ghost predicate Holds(d: Disk, log: bytes) {
    View(d) == LogFiles(Some(log), None) && TMP !in d
  }

  /** No old log stands in the way of a swap. */
  predicate SwapClear(d: Disk) {
    !(DAT in d && OLD in d)
  }

  /** A file of exactly `count` frames, all of them committed. */
  predicate AllCommitted(log: bytes, count: nat) {
    |Recovered(log)| == count && forall frame <- Scan(log, 0) :: frame.outcome == OK
  }

  ghost predicate CompactStep(j: JournalState, policy: CompactionPolicy, keep: seq<bytes>, ok: bool, j': JournalState) {
    && KeepList(j.index.records, policy, keep)
    && if |keep| == |j.index.records| then ok && j' == j
       else if ok then
         var log := Log(KeptBodies(j.index.records, keep));
         && keep != [] && Holds(j'.disk, log) && |Recovered(log)| >= |keep|
         && j' == j.(disk := j'.disk, index := Rebuilt(j.index, keep))
       else
         j' == j.(disk := j'.disk) && SwapFailed(View(j.disk), View(j'.disk))
  }

  ghost predicate BeginStep(j: JournalState, policy: CompactionPolicy, started: bool, j': JournalState) {
    if started then
      && !j.active && KeepList(j.index.records, policy, j'.keep) && |j'.keep| != |j.index.records|
      && j' == j.(disk := j.disk - {TMP}, active := true, keep := j'.keep, next := 0)
    else j' == j || (!j.active && j' == j.(keep := []))
  }

  datatype TickOutcome = IDLE | WRITE_FAILED | MORE | SWAP_FAILED | SWAPPED

  /** How far a chunk moves the write index: past its last record that exists. */
  function ChunkEnd(records: map<bytes, Record>, ids: seq<bytes>): (n: nat)
    ensures n <= |ids|
    ensures (forall id <- ids :: id in records) ==> n == |ids|
  {
    if ids == [] then 0
    else if ids[|ids| - 1] in records then |ids|
    else ChunkEnd(records, ids[..|ids| - 1])
  }

  /** The ids one tick deals with. */
  function Chunk(j: JournalState): (ids: seq<bytes>)
    requires j.next <= |j.keep|
  {
    j.keep[j.next..Min(j.next + RECORDS_PER_TICK, |j.keep|)]
  }

  /** The temporary file after one tick. */
  function TickLog(j: JournalState): (log: bytes)
    requires j.next <= |j.keep|
  {
    Content(TempWritten(j.disk, KeptBodies(j.index.records, Chunk(j))), TMP)
  }

  ghost predicate TickStep(j: JournalState, outcome: TickOutcome, j': JournalState)
    requires j.active ==> j.next <= |j.keep|
  {
    if !j.active then outcome == IDLE && j' == j
    else
      var next := j.next + ChunkEnd(j.index.records, Chunk(j));
      match outcome
      case IDLE => false
      case WRITE_FAILED => j' == JournalState(j'.disk, j.index, false, [], j'.next) && View(j'.disk) == View(j.disk)
      case MORE =>
        next < |j.keep| && j' == j.(disk := TempWritten(j.disk, KeptBodies(j.index.records, Chunk(j))), next := next)
      case SWAP_FAILED =>
        next == |j.keep| && SwapFailed(View(j.disk), View(j'.disk)) && j' == JournalState(j'.disk, j.index, false, [], 0)
      case SWAPPED =>
        && next == |j.keep| && |Recovered(TickLog(j))| >= |j.keep|
        && TMP in TempWritten(j.disk, KeptBodies(j.index.records, Chunk(j)))
        && Holds(j'.disk, TickLog(j)) && j' == JournalState(j'.disk, Rebuilt(j.index, j.keep), false, [], 0)
  }

  // --- What a healthy flash makes of a compaction ---

  /** One-shot compaction without a fault: it has nothing to drop, or it swaps what validates. */
  ghost predicate CompactDone(j: JournalState, keep: seq<bytes>, ok: bool) {
    ok <==>
      || |keep| == |j.index.records|
      || (keep != [] && SwapClear(j.disk) && AllCommitted(Log(KeptBodies(j.index.records, keep)), |keep|))
  }

  /** A tick without a fault: it swaps once all is written, if what is written validates. */
  ghost predicate TickDone(j: JournalState, outcome: TickOutcome)
    requires j.active ==> j.next <= |j.keep|
  {
    if !j.active then outcome == IDLE
    else if j.next + ChunkEnd(j.index.records, Chunk(j)) < |j.keep| then outcome == MORE
    else
      outcome == if SwapClear(j.disk) && TMP in TempWritten(j.disk, KeptBodies(j.index.records, Chunk(j)))
                    && AllCommitted(TickLog(j), |j.keep|) then SWAPPED else SWAP_FAILED
  }

  // --- The class ---

  class EventJournal {
    const flash: Flash
    var index: EventJournalIndex
    var initOk: bool
    var active: bool
    var keep: seq<bytes>
    var next: nat

    constructor (flash: Flash)
      ensures this.flash == flash && !initOk && !active
    {
      this.flash := flash;
      index := new EventJournalIndex(0);
      initOk, active, keep, next := false, false, [], 0;
    }

    ghost function State(): (j: JournalState)
      reads this, index, flash
    {
      JournalState(flash.files, index.State(), active, keep, next)
    }

    /** The orphan recovery of init. `restored` is false when the log set aside could not be moved back. */
    method RecoverFiles() returns (ghost restored: bool)
      modifies flash
      ensures old(flash.trail) <= flash.trail
      ensures forall i | |old(flash.trail)| <= i < |flash.trail| :: RecoveryState(View(old(flash.files)), View(flash.trail[i]))
      ensures TMP !in flash.files
      ensures View(flash.files) == if restored then Restored(View(old(flash.files))) else View(old(flash.files))
      ensures !restored ==> View(old(flash.files)).dat.None?
      ensures flash.faults >= old(flash.faults) && (restored <==> flash.faults == old(flash.faults))
    {
      var hasDat, hasOld, hasTmp := DAT in flash.files, OLD in flash.files, TMP in flash.files;
      if hasTmp {
        flash.Remove(TMP);
      }
      restored := true;
      if !hasDat && hasOld {
        var moved := flash.Rename(OLD, DAT);
        restored := moved;
      } else if hasDat && hasOld {
        flash.Remove(OLD);
      }
    }

    /** init. `seen` is what the scan could read of the log: all of it unless opening or a read fails. When the log set
      * aside could not be moved back there is no log to see, and the index is empty. */
    method Init(capacity: nat) returns (ghost restored: bool, ghost seen: bytes)
      modifies this, flash
      ensures fresh(index) || (index == old(index) && !initOk)
      ensures old(flash.trail) <= flash.trail
      ensures forall i | |old(flash.trail)| <= i < |flash.trail| :: RecoveryState(View(old(flash.files)), View(flash.trail[i]))
      ensures initOk ==> TMP !in flash.files && index.capacity == capacity
      ensures initOk ==> View(flash.files) == if restored then Restored(View(old(flash.files))) else View(old(flash.files))
      ensures initOk && !restored ==> View(old(flash.files)).dat.None? && index.State() == EMPTY
      ensures initOk ==> seen <= Content(flash.files, DAT) && index.State() == Folded(EMPTY, Recovered(seen))
      ensures initOk && restored && seen == Content(flash.files, DAT) ==> index.State() == Boot(View(old(flash.files)))
      ensures flash.faults >= old(flash.faults)
      ensures flash.faults == old(flash.faults) ==> initOk && restored && seen == Content(flash.files, DAT)
    {
      hide Scan;
      hide Applied;
      var mounted := flash.Mount();
      if !mounted {
        initOk := false;
        return false, [];
      }
      index := new EventJournalIndex(capacity);
      restored := RecoverFiles();
      var file := new SpiffsJournalFile(flash, DAT);
      ghost var reach;
      var ok, frames, okCount;
      ok, frames, okCount, reach := ScanJournal(file);
      seen := if ok then Content(flash.files, DAT)[..reach] else [];
      assert Recovered([]) == [];
      hide Recovered;
      if ok {
        ApplyFrames(index, frames, seen);
      }
      initOk := true;
    }

    /** append_event. */
    method AppendEvent(record: Record) returns (ok: bool)
      modifies flash, index
      ensures if initOk then AppendEventStep(index.capacity, old(State()), record, ok, State()) else !ok && State() == old(State())
      ensures flash.faults >= old(flash.faults)
      ensures ok <==>
              && initOk && record.eventId !in old(index.records) && flash.faults == old(flash.faults)
              && old(index.used) + |Frame(EncodeEvent(record))| <= index.capacity
      ensures AppendTrail(old(flash.trail), flash.trail, old(flash.files), DAT, Frame(EncodeEvent(record)))
    {
      hide Frame;
      hide EncodeEvent;
      if !initOk {
        return false;
      }
      var body := EncodeJournalEvent(record);
      var size := |body| + FRAME_OVERHEAD;
      var decision := index.DecideAppend(record.eventId, size);
      if decision != ACCEPT {
        return false;
      }
      var file := new SpiffsJournalFile(flash, DAT);
      ok := AppendJournalFrame(file, body);
      if !ok {
        return;
      }
      index.RecordAppendedEvent(record, size);
    }

    /** append_transition: no look at the capacity. */
    method AppendTransition(t: Transition) returns (ok: bool)
      modifies flash, index
      ensures if initOk then AppendTransitionStep(old(State()), t, ok, State()) else !ok && State() == old(State())
      ensures flash.faults >= old(flash.faults)
      ensures ok <==> initOk && t.eventId in old(index.records) && flash.faults == old(flash.faults)
      ensures AppendTrail(old(flash.trail), flash.trail, old(flash.files), DAT, Frame(EncodeTransition(t)))
    {
      hide Frame;
      hide EncodeTransition;
      if !initOk || t.eventId !in index.records {
        return false;
      }
      var body := EncodeJournalTransition(t);
      var file := new SpiffsJournalFile(flash, DAT);
      ok := AppendJournalFrame(file, body);
      if !ok {
        return;
      }
      index.RecordAppendedTransition(t, |body| + FRAME_OVERHEAD);
    }

    /** One record re-encoded into the temporary file. */
    method WriteKept(id: bytes) returns (ok: bool)
      modifies flash
      ensures flash.faults >= old(flash.faults) && (ok <==> flash.faults == old(flash.faults))
      ensures id !in index.records ==> ok && flash.files == old(flash.files)
      ensures id in index.records && ok ==>
                flash.files == Grown(old(flash.files), TMP, Frame(EncodeEvent(index.records[id])))
      ensures View(flash.files) == View(old(flash.files))
      ensures old(flash.trail) <= flash.trail
      ensures forall i | |old(flash.trail)| <= i < |flash.trail| :: View(flash.trail[i]) == View(old(flash.files))
    {
      hide Frame;
      hide EncodeEvent;
      if id !in index.records {
        return true;
      }
      var body := EncodeJournalEvent(index.records[id]);
      var tmp := new SpiffsJournalFile(flash, TMP);
      ok := AppendJournalFrame(tmp, body);
    }

    /** Step 1 of compact, and the chunk of one tick: re-encodes `ids` in order. */
    method WriteAll(ids: seq<bytes>) returns (ok: bool, last: nat)
      modifies flash
      ensures flash.faults >= old(flash.faults) && (ok <==> flash.faults == old(flash.faults))
      ensures ok ==> last == ChunkEnd(index.records, ids)
      ensures ok ==> flash.files == TempWritten(old(flash.files), KeptBodies(index.records, ids))
      ensures View(flash.files) == View(old(flash.files))
      ensures old(flash.trail) <= flash.trail
      ensures forall i | |old(flash.trail)| <= i < |flash.trail| :: View(flash.trail[i]) == View(old(flash.files))
    {
      hide Frame;
      hide EncodeEvent;
      hide View;
      ok, last := true, 0;
      assert ids[..0] == [];
      for i := 0 to |ids|
        invariant ok && last == ChunkEnd(index.records, ids[..i]) && flash.faults == old(flash.faults)
        invariant flash.files == TempWritten(old(flash.files), KeptBodies(index.records, ids[..i]))
        invariant View(flash.files) == View(old(flash.files))
        invariant old(flash.trail) <= flash.trail
        invariant forall k | |old(flash.trail)| <= k < |flash.trail| :: View(flash.trail[k]) == View(old(flash.files))
      {
        ok := WriteKept(ids[i]);
        if !ok {
          return;
        }
        WriteOneMore(old(flash.files), index.records, ids, i);
        assert ids[..i + 1][..i] == ids[..i];
        if ids[i] in index.records {
          last := i + 1;
        }
      }
      assert ids[..|ids|] == ids;
    }

    /** The validation of the temporary file: every frame it can read committed, and as many as were written. */
    method Validate(count: nat) returns (valid: bool)
      modifies flash`faults
      ensures valid ==> |Recovered(Content(flash.files, TMP))| >= count
      ensures flash.faults >= old(flash.faults)
      ensures flash.faults == old(flash.faults) ==> (valid <==> AllCommitted(Content(flash.files, TMP), count))
    {
      hide Scan;
      hide Recovered;
      var check := new SpiffsJournalFile(flash, TMP);
      ghost var reach;
      var readable, frames, okCount;
      readable, frames, okCount, reach := ScanJournal(check);
      RecoveredPrefix(Content(flash.files, TMP), reach);
      assert Content(flash.files, TMP)[..|Content(flash.files, TMP)|] == Content(flash.files, TMP);
      ghost var text := Content(flash.files, TMP)[..reach];
      ScanDelivers(text, 0);
      CommittedCount(text, count);
      hide AllCommitted;
      var seen, bad := |frames|, |frames| - okCount;
      return !(bad > 0 || seen != count || okCount != count);
    }

    /** The swap: the log is set aside, the temporary file takes its place, the old log goes. */
    method SwapFiles() returns (ok: bool)
      modifies flash
      ensures flash.faults >= old(flash.faults)
      ensures flash.faults == old(flash.faults) ==> (ok <==> TMP in old(flash.files) && SwapClear(old(flash.files)))
      ensures ok ==> TMP in old(flash.files) && Holds(flash.files, old(flash.files)[TMP])
      ensures !ok ==> SwapFailed(View(old(flash.files)), View(flash.files))
      ensures old(flash.trail) <= flash.trail
      ensures forall i | |old(flash.trail)| <= i < |flash.trail| ::
                CompactionState(View(old(flash.files)), Content(old(flash.files), TMP), View(flash.trail[i]))
    {
      if DAT in flash.files {
        ok := flash.Rename(DAT, OLD);
        if !ok {
          flash.Remove(TMP);
          return false;
        }
      }
      ok := flash.Rename(TMP, DAT);
      if !ok {
        if OLD in flash.files {
          var restored := flash.Rename(OLD, DAT);
        }
        return false;
      }
      flash.Remove(OLD);
    }

    /** finish_compaction_validate_and_swap. */
    method FinishCompaction(ids: seq<bytes>) returns (ok: bool)
      modifies flash, index
      ensures flash.faults >= old(flash.faults)
      ensures flash.faults == old(flash.faults) ==>
                (ok <==> TMP in old(flash.files) && SwapClear(old(flash.files)) && AllCommitted(Content(old(flash.files), TMP), |ids|))
      ensures ok ==> Holds(flash.files, Content(old(flash.files), TMP)) && index.State() == Rebuilt(old(index.State()), ids)
      ensures ok ==> TMP in old(flash.files) && |Recovered(Content(old(flash.files), TMP))| >= |ids|
      ensures !ok ==> SwapFailed(View(old(flash.files)), View(flash.files)) && index.State() == old(index.State())
      ensures old(flash.trail) <= flash.trail
      ensures forall i | |old(flash.trail)| <= i < |flash.trail| ::
                CompactionState(View(old(flash.files)), Content(old(flash.files), TMP), View(flash.trail[i]))
    {
      hide Recovered;
      hide Rebuilt;
      var valid := Validate(|ids|);
      if !valid {
        flash.Remove(TMP);
        return false;
      }
      ok := SwapFiles();
      if ok {
        index.RebuildAfterCompaction(ids);
      }
    }

    /** compact. */
    method Compact(policy: CompactionPolicy) returns (ok: bool, ghost ids: seq<bytes>)
      modifies flash, index
      ensures if initOk then CompactStep(old(State()), policy, ids, ok, State()) else !ok && State() == old(State())
      ensures flash.faults >= old(flash.faults)
      ensures initOk && flash.faults == old(flash.faults) ==> CompactDone(old(State()), ids, ok)
      ensures old(flash.trail) <= flash.trail
      ensures initOk ==> forall i | |old(flash.trail)| <= i < |flash.trail| ::
                CompactionState(View(old(flash.files)), Log(KeptBodies(old(index.records), ids)), View(flash.trail[i]))
    {
      hide KeepList;
      hide Recovered;
      hide Rebuilt;
      hide KeptBodies;
      hide Log;
      hide SwapFailed;
      hide CompactionState;
      hide Holds;
      hide View;
      if !initOk {
        return false, [];
      }
      var chosen := index.SelectRecordsToKeep(policy);
      ids := chosen;
      if |chosen| == |index.records| {
        return true, ids;
      }
      ok := Rewrite(chosen);
    }

    /** The body of compact once the keep-list is known: write, validate, swap, rebuild. */
    method Rewrite(ids: seq<bytes>) returns (ok: bool)
      modifies flash, index
      ensures var log := Log(KeptBodies(old(index.records), ids));
              && (if ok then ids != [] && Holds(flash.files, log) && |Recovered(log)| >= |ids|
                  else SwapFailed(View(old(flash.files)), View(flash.files)))
              && (flash.faults == old(flash.faults) ==>
                    (ok <==> ids != [] && SwapClear(old(flash.files)) && AllCommitted(log, |ids|)))
              && index.State() == (if ok then Rebuilt(old(index.State()), ids) else old(index.State()))
              && (forall i | |old(flash.trail)| <= i < |flash.trail| ::
                    CompactionState(View(old(flash.files)), log, View(flash.trail[i])))
      ensures old(flash.trail) <= flash.trail && flash.faults >= old(flash.faults)
    {
      hide Recovered;
      hide Rebuilt;
      hide KeptBodies;
      hide Log;
      hide Holds;
      hide View;
      DropTemp();
      ghost var clean := flash.files;
      var last;
      ok, last := WriteAll(ids);
      if !ok {
        DropTemp();
        return;
      }
      FreshTemp(clean, KeptBodies(index.records, ids));
      NoneKept(index.records, ids);
      if KeptBodies(index.records, ids) == [] && ids != [] {
        NothingCommitted(index.records, ids);
      }
      SwapClearSeen(old(flash.files), flash.files);
      hide TempWritten;
      hide SwapClear;
      hide AllCommitted;
      ok := FinishCompaction(ids);
    }

    /** Drops the temporary file. */
    method DropTemp()
      modifies flash
      ensures flash.files == old(flash.files) - {TMP} && View(flash.files) == View(old(flash.files))
      ensures flash.trail == old(flash.trail) + [flash.files] && flash.faults == old(flash.faults)
    {
      flash.Remove(TMP);
    }

    /** begin_compaction. */
    method BeginCompaction(policy: CompactionPolicy) returns (started: bool)
      modifies this, flash
      ensures initOk ==> BeginStep(old(State()), policy, started, State())
      ensures !initOk ==> !started && State() == old(State())
      ensures index == old(index) && initOk == old(initOk) && (started ==> next <= |keep|)
      ensures started <==> initOk && !old(active) && !NothingToDrop(index.records, policy)
      ensures old(flash.trail) <= flash.trail
      ensures forall i | |old(flash.trail)| <= i < |flash.trail| :: View(flash.trail[i]) == View(old(flash.files))
    {
      hide KeepList;
      hide NothingToDrop;
      hide View;
      if !initOk || active {
        return false;
      }
      keep := index.SelectRecordsToKeep(policy);
      DropsExactly(index.records, policy, keep);
      if |keep| == |index.records| {
        keep := [];
        return false;
      }
      DropTemp();
      next, active := 0, true;
      return true;
    }

    /** compact_tick. */
    method CompactTick() returns (ghost outcome: TickOutcome)
      requires active ==> next <= |keep|
      modifies this, flash, index
      ensures active ==> next <= |keep|
      ensures TickStep(old(State()), outcome, State())
      ensures flash.faults >= old(flash.faults)
      ensures flash.faults == old(flash.faults) ==> TickDone(old(State()), outcome)
      ensures index == old(index) && initOk == old(initOk)
      ensures old(flash.trail) <= flash.trail
      ensures !old(active) ==> flash.trail == old(flash.trail)
      ensures old(active) ==> forall i | |old(flash.trail)| <= i < |flash.trail| ::
                CompactionState(View(old(flash.files)), TickLog(old(State())), View(flash.trail[i]))
      ensures outcome == WRITE_FAILED || outcome == MORE ==>
                forall i | |old(flash.trail)| <= i < |flash.trail| :: View(flash.trail[i]) == View(old(flash.files))
    {
      hide Recovered;
      hide Rebuilt;
      hide KeptBodies;
      hide View;
      hide Holds;
      hide TempWritten;
      hide AllCommitted;
      hide SwapClear;
      hide SwapFailed;
      hide CompactionState;
      if !active {
        return IDLE;
      }
      Untouched(View(flash.files), TickLog(State()));
      var end := Min(next + RECORDS_PER_TICK, |keep|);
      var ok, last := WriteAll(keep[next..end]);
      if !ok {
        DropTemp();
        active, keep := false, [];
        return WRITE_FAILED;
      }
      next := next + last;
      if next < |keep| {
        return MORE;
      }
      SwapClearSeen(old(flash.files), flash.files);
      var swapped := FinishCompaction(keep);
      active, keep, next := false, [], 0;
      return if swapped then SWAPPED else SWAP_FAILED;
    }
  }

  /** The temporary file grown by these bodies; it is not created when there is nothing to write. */
  function TempWritten(d: Disk, bodies: seq<bytes>): (r: Disk) {
    if bodies == [] then d else Grown(d, TMP, Log(bodies))
  }

  lemma CommittedCount(log: bytes, count: nat)
    ensures AllCommitted(log, count) <==> |Recovered(log)| == count && |Scan(log, 0)| == count
  {
    hide Scan;
    hide Recovered;
    ScanDelivers(log, 0);
    var frames, n := Scan(log, 0), |Recovered(log)|;
    assert n < |frames| ==> frames[n] in frames && frames[n].outcome != OK;
    assert forall i | 0 <= i < |frames| :: frames[i] in frames;
  }

  lemma Untouched(v: LogFiles, log: bytes)
    ensures CompactionState(v, log, v)
  {
  }

  lemma NothingCommitted(records: map<bytes, Record>, ids: seq<bytes>)
    requires KeptBodies(records, ids) == [] && ids != []
    ensures !AllCommitted(Log(KeptBodies(records, ids)), |ids|)
  {
    assert Log([]) == [];
  }

  lemma SwapClearSeen(d: Disk, d': Disk)
    requires View(d) == View(d')
    ensures SwapClear(d) <==> SwapClear(d')
  {
  }

  lemma NoneKept(records: map<bytes, Record>, ids: seq<bytes>)
    ensures ids == [] ==> KeptBodies(records, ids) == []
  {
  }

  lemma FreshTemp(d: Disk, bodies: seq<bytes>)
    requires TMP !in d
    ensures Content(TempWritten(d, bodies), TMP) == Log(bodies)
    ensures TMP in TempWritten(d, bodies) <==> bodies != []
  {
    var none: seq<bytes> := [];
    assert Log(none) == [];
    hide Log;
    assert [] + Log(bodies) == Log(bodies);
  }

  lemma WriteOneMore(d: Disk, records: map<bytes, Record>, ids: seq<bytes>, i: nat)
    requires i < |ids|
    ensures TempWritten(d, KeptBodies(records, ids[..i + 1])) ==
            (if ids[i] in records then Grown(TempWritten(d, KeptBodies(records, ids[..i])), TMP, Frame(EncodeEvent(records[ids[i]])))
             else TempWritten(d, KeptBodies(records, ids[..i])))
  {
    hide Frame;
    hide EncodeEvent;
    assert ids[..i + 1] == ids[..i] + [ids[i]];
    var one := [ids[i]];
    KeptAppend(records, ids[..i], one);
    assert one[1..] == [];
    var front := KeptBodies(records, ids[..i]);
    if ids[i] in records {
      var body := EncodeEvent(records[ids[i]]);
      assert KeptBodies(records, ids[..i + 1]) == front + [body];
      LogAppend(front, [body]);
      LogOne(body);
      var none: seq<bytes> := [];
      assert Log(none) == [];
      hide Log;
      assert Content(d, TMP) + (Log(front) + Frame(body)) == Content(d, TMP) + Log(front) + Frame(body);
    } else {
      assert KeptBodies(records, one) == [] && front + [] == front;
    }
  }

  lemma {:induction false} KeptAppend(records: map<bytes, Record>, a: seq<bytes>, b: seq<bytes>)
    ensures KeptBodies(records, a + b) == KeptBodies(records, a) + KeptBodies(records, b)
    decreases |a|
  {
    hide EncodeEvent;
    if a == [] {
      assert a + b == b;
    } else {
      assert (a + b)[1..] == a[1..] + b;
      KeptAppend(records, a[1..], b);
    }
  }

  /** The scan callback of init, over the frames in file order. */
  method ApplyFrames(index: EventJournalIndex, frames: seq<ScanFrame>, ghost log: bytes)
    requires frames == Scan(log, 0) && index.State() == EMPTY
    modifies index
    ensures index.State() == Folded(EMPTY, Recovered(log))
  {
    hide Applied;
    hide Scan;
    hide Recovered;
    ghost var bodies := Recovered(log);
    ScanDelivers(log, 0);
    for i := 0 to |frames|
      invariant index.State() == Folded(EMPTY, bodies[..Min(i, |bodies|)])
    {
      if frames[i].outcome == OK {
        TakeOne(bodies, i);
        index.ApplyScannedFrame(frames[i].body, frames[i].frameSize);
      }
    }
    assert bodies[..Min(|frames|, |bodies|)] == bodies;
  }

  lemma TakeOne(bodies: seq<bytes>, i: nat)
    requires i < |bodies|
    ensures Folded(EMPTY, bodies[..i + 1]) ==
            Applied(Folded(EMPTY, bodies[..i]), bodies[i], |bodies[i]| + FRAME_OVERHEAD)
  {
    hide Applied;
    assert bodies[..i + 1] == bodies[..i] + [bodies[i]];
    FoldAppend(EMPTY, bodies[..i], [bodies[i]]);
    FoldOne(Folded(EMPTY, bodies[..i]), bodies[i]);
  }
}
