/** Where the journal's guarantees stop: runs the code allows in which a record is lost or a bound is passed, and
  * the conditions that tell them apart from the safe ones. */
module JournalHazards {
  import opened Bytes
  import opened Crc32
  import opened Frames
  import opened JournalFile
  import opened JournalRecord
  import opened JournalIndex
  import opened IndexLaws
  import opened EventJournal
  import opened JournalDurability

  /** The length word a scan reads first. */
  function Promised(tail: bytes): (n: nat)
    requires |tail| >= 4
  {
    BytesToU32(tail[..4])
  }

  /** What follows the log passes for one more committed frame. */
  predicate Passes(tail: bytes) {
    && |tail| >= 4
    && var n := Promised(tail);
       && |tail| >= n + FRAME_OVERHEAD
       && BytesToU32(tail[4 + n..8 + n]) == Crc(tail[4..4 + n]) && tail[8 + n] == COMMIT_MARKER
  }

  /** Boot does not truncate a torn tail. Whatever was appended behind one, nothing of it is read back, unless the torn
    * frame and what follows it happen to make up one frame of the length that the torn one's first four bytes, or the
    * first bytes of what follows where it was cut before those, promise. */
  lemma TornTailExactly(bodies: seq<bytes>, torn: bytes, k: nat, later: bytes)
    requires (forall b <- bodies :: Storable(b)) && Storable(torn) && 0 < k < |Frame(torn)|
    ensures var tail := Frame(torn)[..k] + later;
            && (Recovered(Log(bodies) + tail) == bodies <==> !Passes(tail))
            && (!Passes(tail) ==>
                  && ReadHead(tail).Damaged?
                  && Scan(Log(bodies) + tail, 0) == Intact(bodies, 0) + [ScanFrame(|Log(bodies)|, 0, [], ReadHead(tail).outcome)])
            && (k >= 4 ==> Promised(tail) == |torn|)
            && (k < 4 <= |tail| ==> Promised(tail) == BytesToU32(U32ToBytes(|torn|)[..k] + later[..4 - k]))
  {
    hide Crc;
    var tail := Frame(torn)[..k] + later;
    TornLength(torn, k, later);
    HeadOfTail(tail);
    hide Passes;
    hide ReadHead;
    hide Frame;
    if Passes(tail) {
      ScanLog(bodies, tail, 0);
      assert |Recovered(tail)| > 0;
      assert |Recovered(Log(bodies) + tail)| > |bodies|;
    } else {
      ScanStops(bodies, tail);
    }
  }

  lemma HeadOfTail(tail: bytes)
    requires tail != []
    ensures if Passes(tail) then ReadHead(tail).Committed? else ReadHead(tail).Damaged?
  {
    hide Crc;
  }

  lemma TornLength(torn: bytes, k: nat, later: bytes)
    requires Storable(torn) && 0 < k < |Frame(torn)|
    ensures var tail := Frame(torn)[..k] + later;
            && (k >= 4 ==> Promised(tail) == |torn|)
            && (k < 4 <= |tail| ==> Promised(tail) == BytesToU32(U32ToBytes(|torn|)[..k] + later[..4 - k]))
  {
    var tail := Frame(torn)[..k] + later;
    U32RoundTrip(|torn|);
    hide Crc;
    assert k >= 4 ==> tail[..4] == U32ToBytes(|torn|);
    assert k < 4 <= |tail| ==> tail[..4] == U32ToBytes(|torn|)[..k] + later[..4 - k];
  }

  /** A committed append, a reboot, and the event is gone: behind a torn frame the boot reads the log it would have read
    * without the append, unless torn frame and append together pass for one frame. */
  lemma CommittedThenLost(capacity: nat, j: JournalState, torn: bytes, k: nat, r: Record, j': JournalState)
    requires Storable(torn) && 0 < k < |Frame(torn)|
    requires forall b <- Recovered(LogBytes(j.disk)) :: Storable(b)
    requires LogBytes(j.disk) == Log(Recovered(LogBytes(j.disk))) + Frame(torn)[..k]
    requires j.index == Folded(EMPTY, Recovered(LogBytes(j.disk))) && r.eventId !in j.index.records
    requires AppendEventStep(capacity, j, r, true, j')
    ensures var tail := Frame(torn)[..k] + Frame(EncodeEvent(r));
            && (Recovered(LogBytes(j'.disk)) == Recovered(LogBytes(j.disk)) <==> !Passes(tail))
            && (!Passes(tail) ==> r.eventId in j'.index.records && r.eventId !in Boot(View(j'.disk)).records)
  {
    hide Frame;
    hide Folded;
    hide EncodeEvent;
    hide Passes;
    var bodies := Recovered(LogBytes(j.disk));
    hide Recovered;
    hide Log;
    var frame := Frame(EncodeEvent(r));
    TornTailExactly(bodies, torn, k, frame);
    assert Content(j.disk, DAT) == LogBytes(j.disk);
    Regroup(Log(bodies), Frame(torn)[..k], frame);
  }

  /** A swap whose rename and restoring rename both failed leaves the log set aside. Left alone, a boot brings it
    * back; but the first committed append creates a new log, and the boot after it drops the one set aside. */
  lemma StrandedLogIsReplaced(capacity: nat, j: JournalState, log: bytes, r: Record, j': JournalState)
    requires View(j.disk) == LogFiles(None, Some(log))
    requires AppendEventStep(capacity, j, r, true, j') && Encodable(r) && Storable(EncodeEvent(r))
    ensures Boot(View(j.disk)) == Folded(EMPTY, Recovered(log))
    ensures Boot(View(j'.disk)).records == map[r.eventId := r]
  {
    hide EncodeEvent;
    hide Frame;
    hide Encodable;
    var body := EncodeEvent(r);
    var none: seq<bytes> := [];
    assert Content(j.disk, DAT) == [] && [] + Frame(body) == Frame(body);
    LogOne(body);
    RecoverLog([body]);
    FoldOne(EMPTY, body);
    AppendedEventAgrees(EMPTY, r);
    hide Recovered;
    hide Log;
    hide Applied;
  }

  /** Event appends keep the log within its capacity. A transition looks at the capacity nowhere: the bound
    * survives it exactly when the frame happens to fit. */
  lemma CapacityBound(capacity: nat, j: JournalState, r: Record, t: Transition, ok: bool, j': JournalState)
    requires j.index.used <= capacity
    ensures AppendEventStep(capacity, j, r, ok, j') ==> j'.index.used <= capacity
    ensures AppendTransitionStep(j, t, true, j') ==>
              (j'.index.used <= capacity <==> j.index.used + |Frame(EncodeTransition(t))| <= capacity)
  {
    hide EncodeEvent;
    hide EncodeTransition;
  }

  /** So nothing bounds the log: transitions of one known event, as a stuck replay writes them, are accepted one after
    * the other and take it any distance past any capacity. */
  lemma {:induction false} TransitionsPassAnyCapacity(j: JournalState, t: Transition, n: nat) returns (run: seq<JournalState>)
    requires t.eventId in j.index.records
    ensures |run| == n + 1 && run[0] == j
    ensures forall i | 0 < i < |run| :: AppendTransitionStep(run[i - 1], t, true, run[i])
    ensures t.eventId in run[n].index.records
    ensures run[n].index.used == j.index.used + n * |Frame(EncodeTransition(t))| >= j.index.used + n * FRAME_OVERHEAD
    decreases n
  {
    hide EncodeTransition;
    if n == 0 {
      return [j];
    }
    run := TransitionsPassAnyCapacity(j, t, n - 1);
    var last, frame := run[n - 1], Frame(EncodeTransition(t));
    hide Frame;
    Times(n, |frame|);
    Times(n, FRAME_OVERHEAD);
    run := run + [last.(disk := Grown(last.disk, DAT, frame), index := AppendedTransition(last.index, t, |frame|))];
  }

  lemma Times(n: nat, size: nat)
    requires n > 0
    ensures n * size == (n - 1) * size + size
  {
  }

  /** A record whose device_seq does not fit a signed 64-bit integer is read back clamped, so its place in the
    * replay order changes over a reboot. */
  lemma LargeSequenceClamped(r: Record)
    requires r.version == 1 && r.eventId != [] && r.eventType != [] && r.deviceSeq > 0x7FFF_FFFF_FFFF_FFFF
    ensures DecodeEvent(EncodeEvent(r)).Some? && DecodeEvent(EncodeEvent(r)).value.deviceSeq == 0x7FFF_FFFF_FFFF_FFFF
  {
    EventReadBack(r);
    hide EncodeEvent;
    hide DecodeEvent;
  }
}
