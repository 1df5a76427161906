/** What the index guarantees: it agrees with the log it was folded from, compaction keeps every unanswered
  * record, never grows the log, and has nothing left to drop afterwards. */
module IndexLaws {
  import opened Bytes
  import opened Frames
  import opened Json
  import opened JournalRecord
  import opened JournalIndex

  // --- The index as the fold of the log ---

  lemma {:induction false} FoldAppend(s: IndexState, a: seq<bytes>, b: seq<bytes>)
    ensures Folded(s, a + b) == Folded(Folded(s, a), b)
    decreases |a|
  {
    hide Applied;
    if a == [] {
      assert a + b == b;
    } else {
      assert (a + b)[1..] == a[1..] + b;
      FoldAppend(Applied(s, a[0], |a[0]| + FRAME_OVERHEAD), a[1..], b);
    }
  }

  lemma FoldOne(s: IndexState, body: bytes)
    ensures Folded(s, [body]) == Applied(s, body, |body| + FRAME_OVERHEAD)
  {
    hide Applied;
    assert [body][1..] == [];
  }

  lemma AppliedUsed(s: IndexState, body: bytes, size: nat)
    ensures Applied(s, body, size).used == s.used + size
  {
    hide KindOf;
    hide DecodeEvent;
    hide DecodeTransition;
  }

  /** The bytes in use are the length of the log. */
  lemma {:induction false} FoldCountsBytes(s: IndexState, bodies: seq<bytes>)
    ensures Folded(s, bodies).used == s.used + |Log(bodies)|
    decreases |bodies|
  {
    hide Applied;
    hide Frame;
    if bodies != [] {
      AppliedUsed(s, bodies[0], |bodies[0]| + FRAME_OVERHEAD);
      FoldCountsBytes(Applied(s, bodies[0], |bodies[0]| + FRAME_OVERHEAD), bodies[1..]);
    }
  }

  /** Updating the index after an append gives what a later scan of the frame would give, if and only if the
    * record survives its encoding. */
  lemma AppendedEventAgrees(s: IndexState, r: Record)
    requires r.eventId !in s.records
    ensures AppendedEvent(s, r, FrameSize(r)) == Applied(s, EncodeEvent(r), FrameSize(r)) <==> Encodable(r)
  {
    EventKind(r);
    EventRoundTrip(r);
    hide DecodeEvent;
    hide EncodeEvent;
    hide KindOf;
    hide Encodable;
    var a, b := AppendedEvent(s, r, FrameSize(r)), Applied(s, EncodeEvent(r), FrameSize(r));
    if a == b {
      assert r.eventId in b.records && b.records[r.eventId] == r;
    }
  }

  lemma AppendedTransitionAgrees(s: IndexState, t: Transition)
    requires t.eventId in s.records && t.eventId != [] && Clean(t.eventId)
    ensures var size := |EncodeTransition(t)| + FRAME_OVERHEAD;
            AppendedTransition(s, t, size) == Applied(s, EncodeTransition(t), size) <==> Clean(t.lastErrorCode)
  {
    TransitionKind(t);
    TransitionReadBack(t);
    ReadBackIdentity(t.eventId);
    ReadBackIdentity(t.lastErrorCode);
    hide DecodeTransition;
    hide EncodeTransition;
    hide KindOf;
    hide Clean;
    hide ReadBack;
    var size := |EncodeTransition(t)| + FRAME_OVERHEAD;
    var a, b := AppendedTransition(s, t, size), Applied(s, EncodeTransition(t), size);
    assert a.records[t.eventId].lastErrorCode == t.lastErrorCode;
    assert b.records[t.eventId].lastErrorCode == ReadBack(t.lastErrorCode);
  }

  // --- What a log means ---

  function EventIn(body: bytes, id: bytes): (r: Option<Record>) {
    if KindOf(body) == EVENT && DecodeEvent(body).Some? && DecodeEvent(body).value.eventId == id then DecodeEvent(body) else None
  }

  function TransitionIn(body: bytes, id: bytes): (t: Option<Transition>) {
    if KindOf(body) == TRANSITION && DecodeTransition(body).Some? && DecodeTransition(body).value.eventId == id
    then DecodeTransition(body) else None
  }

  /** The first event frame of an id in a log. */
  function FirstEvent(bodies: seq<bytes>, id: bytes): (r: Option<Record>) {
    if bodies == [] then None
    else if EventIn(bodies[0], id).Some? then EventIn(bodies[0], id)
    else FirstEvent(bodies[1..], id)
  }

  /** The last transition of an id that comes after its first event. */
  function LastTransition(bodies: seq<bytes>, id: bytes): (t: Option<Transition>)
    decreases |bodies|
  {
    if bodies == [] then None
    else
      var front, last := bodies[..|bodies| - 1], bodies[|bodies| - 1];
      if FirstEvent(front, id).Some? && TransitionIn(last, id).Some? then TransitionIn(last, id) else LastTransition(front, id)
  }

  lemma {:induction false} FirstEventExtends(bodies: seq<bytes>, last: bytes, id: bytes)
    ensures FirstEvent(bodies + [last], id) ==
            if FirstEvent(bodies, id).Some? then FirstEvent(bodies, id) else EventIn(last, id)
    decreases |bodies|
  {
    hide EventIn;
    if bodies == [] {
      assert bodies + [last] == [last] && [last][1..] == [];
    } else {
      assert (bodies + [last])[1..] == bodies[1..] + [last];
      FirstEventExtends(bodies[1..], last, id);
    }
  }

  ghost function Meaning(bodies: seq<bytes>, id: bytes): (r: Option<Record>) {
    match FirstEvent(bodies, id)
    case None => None
    case Some(r) => (match LastTransition(bodies, id) case None => Some(r) case Some(t) => Some(Merged(r, t)))
  }

  lemma {:induction false} NoTransitionBeforeEvent(bodies: seq<bytes>, id: bytes)
    ensures FirstEvent(bodies, id).None? ==> LastTransition(bodies, id).None?
    decreases |bodies|
  {
    hide EventIn;
    hide TransitionIn;
    if bodies != [] {
      var front, last := bodies[..|bodies| - 1], bodies[|bodies| - 1];
      assert bodies == front + [last];
      FirstEventExtends(front, last, id);
      NoTransitionBeforeEvent(front, id);
    }
  }

  /** The index of a log, record by record: an id is known exactly when the log holds an event frame of it; its
    * record is the first such frame under the status of the last transition after it. */
  lemma {:induction false} LogMeaning(bodies: seq<bytes>, id: bytes)
    ensures var records := Folded(EMPTY, bodies).records;
            && (id in records <==> FirstEvent(bodies, id).Some?)
            && (id in records ==> Meaning(bodies, id) == Some(records[id]))
    decreases |bodies|
  {
    hide EventIn;
    hide TransitionIn;
    hide Applied;
    if bodies != [] {
      var front, last := bodies[..|bodies| - 1], bodies[|bodies| - 1];
      assert bodies == front + [last];
      LogMeaning(front, id);
      FoldAppend(EMPTY, front, [last]);
      FoldOne(Folded(EMPTY, front), last);
      hide Folded;
      FirstEventExtends(front, last, id);
      NoTransitionBeforeEvent(front, id);
      AppliedMeaning(Folded(EMPTY, front), last, id);
      hide FirstEvent;
    }
  }

  lemma AppliedMeaning(s: IndexState, body: bytes, id: bytes)
    ensures var records' := Applied(s, body, |body| + FRAME_OVERHEAD).records;
            && (id in records' <==> id in s.records || EventIn(body, id).Some?)
            && (id in s.records ==>
                  records'[id] == (match TransitionIn(body, id) case None => s.records[id] case Some(t) => Merged(s.records[id], t)))
            && (id !in s.records && EventIn(body, id).Some? ==> records'[id] == EventIn(body, id).value)
  {
    hide KindOf;
    hide DecodeEvent;
    hide DecodeTransition;
  }

  // --- Records the device itself wrote ---

  /** A body one of the two encoders produced, whatever the strings were. */
  ghost predicate Written(body: bytes) {
    (exists r :: body == EncodeEvent(r)) || (exists t :: body == EncodeTransition(t))
  }

  /** A body of a record or transition that survives its encoding. */
  ghost predicate Faithful(body: bytes) {
    || (exists r :: Encodable(r) && body == EncodeEvent(r))
    || (exists t :: EncodableTransition(t) && body == EncodeTransition(t))
  }

  /** Every record sits under its own id and survives its encoding. */
  ghost predicate Sound(records: map<bytes, Record>) {
    forall id | id in records :: records[id].eventId == id && Encodable(records[id])
  }

  lemma EventSound(s: IndexState, r: Record, size: nat)
    requires Sound(s.records) && Encodable(r)
    ensures Sound(Applied(s, EncodeEvent(r), size).records)
  {
    EventKind(r);
    EventRoundTrip(r);
    hide KindOf;
    hide DecodeEvent;
    hide EncodeEvent;
    hide Encodable;
  }

  lemma TransitionSound(s: IndexState, t: Transition, size: nat)
    requires Sound(s.records) && EncodableTransition(t)
    ensures Sound(Applied(s, EncodeTransition(t), size).records)
    ensures Sound(AppendedTransition(s, t, size).records)
  {
    TransitionKind(t);
    TransitionRoundTrip(t);
    hide KindOf;
    hide DecodeTransition;
    hide EncodeTransition;
    hide Clean;
  }

  lemma AppliedSound(s: IndexState, body: bytes, size: nat)
    requires Sound(s.records) && Faithful(body)
    ensures Sound(Applied(s, body, size).records)
  {
    hide Applied;
    hide Sound;
    hide Encodable;
    hide EncodableTransition;
    hide EncodeEvent;
    hide EncodeTransition;
    if r :| Encodable(r) && body == EncodeEvent(r) {
      EventSound(s, r, size);
    } else {
      var t :| EncodableTransition(t) && body == EncodeTransition(t);
      TransitionSound(s, t, size);
    }
  }

  lemma {:induction false} FoldSound(s: IndexState, bodies: seq<bytes>)
    requires Sound(s.records) && forall b <- bodies :: Faithful(b)
    ensures Sound(Folded(s, bodies).records)
    decreases |bodies|
  {
    hide Applied;
    hide Faithful;
    if bodies != [] {
      AppliedSound(s, bodies[0], |bodies[0]| + FRAME_OVERHEAD);
      FoldSound(Applied(s, bodies[0], |bodies[0]| + FRAME_OVERHEAD), bodies[1..]);
    }
  }

  // --- Compaction never grows the log ---

  /** Whatever is kept, its fresh frames fit in the bytes in use. */
  ghost predicate Bounded(s: IndexState) {
    forall keep: seq<bytes> | Distinct(keep) :: KeptBytes(s.records, keep) <= s.used
  }

  function SizeUnder(records: map<bytes, Record>, id: bytes): (n: nat) {
    if id in records then FrameSize(records[id]) else 0
  }

  lemma {:induction false} KeptBytesWithout(records: map<bytes, Record>, id: bytes, m: Record, keep: seq<bytes>)
    requires id !in keep
    ensures KeptBytes(records[id := m], keep) == KeptBytes(records, keep)
    decreases |keep|
  {
    hide FrameSize;
    if keep != [] {
      assert keep[0] in keep;
      KeptBytesWithout(records, id, m, keep[1..]);
    }
  }

  lemma {:induction false} KeptBytesUpdate(records: map<bytes, Record>, id: bytes, m: Record, keep: seq<bytes>, growth: nat)
    requires Distinct(keep) && FrameSize(m) <= SizeUnder(records, id) + growth
    ensures KeptBytes(records[id := m], keep) <= KeptBytes(records, keep) + growth
    decreases |keep|
  {
    hide FrameSize;
    if keep != [] {
      if keep[0] == id {
        KeptBytesWithout(records, id, m, keep[1..]);
      } else {
        KeptBytesUpdate(records, id, m, keep[1..], growth);
      }
    }
  }

  lemma UpdateBounded(s: IndexState, id: bytes, m: Record, size: nat)
    requires Bounded(s) && FrameSize(m) <= SizeUnder(s.records, id) + size
    ensures Bounded(IndexState(s.records[id := m], s.used + size))
  {
    hide FrameSize;
    forall keep: seq<bytes> | Distinct(keep)
      ensures KeptBytes(s.records[id := m], keep) <= s.used + size
    {
      KeptBytesUpdate(s.records, id, m, keep, size);
    }
  }

  lemma MergeBounded(s: IndexState, t: Transition, size: nat)
    requires Bounded(s) && size >= |EncodeTransition(t)|
    ensures Bounded(AppendedTransition(s, t, size))
  {
    hide EncodeTransition;
    hide EncodeEvent;
    if t.eventId in s.records {
      MergedNoLonger(s.records[t.eventId], Merged(s.records[t.eventId], t), t);
      UpdateBounded(s, t.eventId, Merged(s.records[t.eventId], t), size);
    }
  }

  lemma EventAppendBounded(s: IndexState, r: Record)
    requires Bounded(s)
    ensures Bounded(AppendedEvent(s, r, FrameSize(r)))
  {
    hide FrameSize;
    UpdateBounded(s, r.eventId, r, FrameSize(r));
  }

  lemma AppliedBounded(s: IndexState, body: bytes)
    requires Bounded(s) && Written(body)
    ensures Bounded(Applied(s, body, |body| + FRAME_OVERHEAD))
  {
    hide Bounded;
    if r :| body == EncodeEvent(r) {
      AppliedEventBounded(s, r);
    } else {
      var t :| body == EncodeTransition(t);
      AppliedTransitionBounded(s, t);
    }
    hide Applied;
  }

  lemma AppliedEventBounded(s: IndexState, r: Record)
    requires Bounded(s)
    ensures Bounded(Applied(s, EncodeEvent(r), |EncodeEvent(r)| + FRAME_OVERHEAD))
  {
    var body := EncodeEvent(r);
    var size := |body| + FRAME_OVERHEAD;
    EventKind(r);
    EventReadBack(r);
    DistortedNoLonger(r);
    hide EncodeEvent;
    hide DecodeEvent;
    hide KindOf;
    hide Distorted;
    hide Bounded;
    if DecodeEvent(body).Some? {
      var d := DecodeEvent(body).value;
      UpdateBounded(s, d.eventId, d, size);
    }
    GrownBounded(s, size);
  }

  lemma AppliedTransitionBounded(s: IndexState, t: Transition)
    requires Bounded(s)
    ensures Bounded(Applied(s, EncodeTransition(t), |EncodeTransition(t)| + FRAME_OVERHEAD))
  {
    var body := EncodeTransition(t);
    var size := |body| + FRAME_OVERHEAD;
    TransitionKind(t);
    TransitionReadBack(t);
    DistortedTransitionNoLonger(t);
    hide EncodeTransition;
    hide DecodeTransition;
    hide KindOf;
    hide DistortedTransition;
    hide Bounded;
    if DecodeTransition(body).Some? {
      MergeBounded(s, DecodeTransition(body).value, size);
    }
    GrownBounded(s, size);
  }

  lemma GrownBounded(s: IndexState, size: nat)
    requires Bounded(s)
    ensures Bounded(s.(used := s.used + size))
  {
  }

  lemma {:induction false} FoldBounded(s: IndexState, bodies: seq<bytes>)
    requires Bounded(s) && forall b <- bodies :: Written(b)
    ensures Bounded(Folded(s, bodies))
    decreases |bodies|
  {
    hide Applied;
    hide Written;
    hide Bounded;
    if bodies != [] {
      AppliedBounded(s, bodies[0]);
      FoldBounded(Applied(s, bodies[0], |bodies[0]| + FRAME_OVERHEAD), bodies[1..]);
    }
  }

  lemma {:induction false} NothingKept(keep: seq<bytes>)
    ensures KeptBytes(map[], keep) == 0
    decreases |keep|
  {
    if keep != [] {
      NothingKept(keep[1..]);
    }
  }

  lemma {:induction false} RestrictedBytes(records: map<bytes, Record>, keep: seq<bytes>, part: seq<bytes>)
    requires Distinct(part)
    ensures KeptBytes(Restricted(records, keep), part) <= KeptBytes(records, keep)
    decreases |keep|
  {
    hide FrameSize;
    if keep == [] {
      assert Restricted(records, keep) == map[];
      NothingKept(part);
    } else {
      RestrictedBytes(records, keep[1..], part);
      assert keep == [keep[0]] + keep[1..];
      if keep[0] in records {
        assert Restricted(records, keep) == Restricted(records, keep[1..])[keep[0] := records[keep[0]]];
        KeptBytesUpdate(Restricted(records, keep[1..]), keep[0], records[keep[0]], part, FrameSize(records[keep[0]]));
      } else {
        assert Restricted(records, keep) == Restricted(records, keep[1..]);
      }
    }
  }

  lemma RebuiltBounded(s: IndexState, keep: seq<bytes>)
    ensures Bounded(Rebuilt(s, keep))
  {
    hide KeptBytes;
    hide Restricted;
    forall part: seq<bytes> | Distinct(part)
      ensures KeptBytes(Rebuilt(s, keep).records, part) <= Rebuilt(s, keep).used
    {
      RestrictedBytes(s.records, keep, part);
    }
  }

  /** What happens to an index: a frame of the device's own is scanned, an event or a transition is appended, a
    * compaction is taken over. */
  datatype IndexEvent = SCANNED(body: bytes) | EVENT_APPENDED(r: Record) | TRANSITION_APPENDED(t: Transition) | REBUILT(keep: seq<bytes>)

  function After(s: IndexState, e: IndexEvent): (s': IndexState) {
    match e
    case SCANNED(body) => Applied(s, body, |body| + FRAME_OVERHEAD)
    case EVENT_APPENDED(r) => AppendedEvent(s, r, FrameSize(r))
    case TRANSITION_APPENDED(t) => AppendedTransition(s, t, |EncodeTransition(t)| + FRAME_OVERHEAD)
    case REBUILT(keep) => Rebuilt(s, keep)
  }

  function Reached(run: seq<IndexEvent>): (s: IndexState) {
    if run == [] then EMPTY else After(Reached(run[..|run| - 1]), run[|run| - 1])
  }

  /** Whatever led to an index, and whatever is kept of it, compacting it gives a log no longer than the bytes in use. */
  lemma {:induction false} ReachableNeverGrows(run: seq<IndexEvent>, keep: seq<bytes>)
    requires forall e <- run :: e.SCANNED? ==> Written(e.body)
    requires Distinct(keep)
    ensures Bounded(Reached(run))
    ensures |Log(KeptBodies(Reached(run).records, keep))| <= Reached(run).used
    decreases |run|
  {
    hide Applied;
    hide Written;
    hide AppendedEvent;
    hide AppendedTransition;
    hide Rebuilt;
    hide Log;
    hide KeptBodies;
    KeptLogLength(Reached(run).records, keep);
    if run == [] {
      forall none: seq<bytes> | Distinct(none)
        ensures KeptBytes(map[], none) <= 0
      {
        NothingKept(none);
      }
    } else {
      var s, e := Reached(run[..|run| - 1]), run[|run| - 1];
      ReachableNeverGrows(run[..|run| - 1], keep);
      hide KeptBytes;
      match e {
        case SCANNED(body) => AppliedBounded(s, body);
        case EVENT_APPENDED(r) => EventAppendBounded(s, r);
        case TRANSITION_APPENDED(t) => MergeBounded(s, t, |EncodeTransition(t)| + FRAME_OVERHEAD);
        case REBUILT(ids) => RebuiltBounded(s, ids);
      }
    }
  }

  /** Compacting the index of any log the device wrote gives a log that is no longer. */
  lemma CompactionNeverGrows(bodies: seq<bytes>, policy: CompactionPolicy, keep: seq<bytes>)
    requires forall b <- bodies :: Written(b)
    requires KeepList(Folded(EMPTY, bodies).records, policy, keep)
    ensures |Log(KeptBodies(Folded(EMPTY, bodies).records, keep))| <= |Log(bodies)|
    ensures Rebuilt(Folded(EMPTY, bodies), keep).used <= Folded(EMPTY, bodies).used
  {
    hide Folded;
    hide Log;
    hide KeptOf;
    forall none: seq<bytes> | Distinct(none)
      ensures KeptBytes(map[], none) <= 0
    {
      NothingKept(none);
    }
    FoldBounded(EMPTY, bodies);
    FoldCountsBytes(EMPTY, bodies);
    KeptLogLength(Folded(EMPTY, bodies).records, keep);
  }

  lemma {:induction false} KeptLogLength(records: map<bytes, Record>, keep: seq<bytes>)
    ensures |Log(KeptBodies(records, keep))| == KeptBytes(records, keep)
    decreases |keep|
  {
    hide EncodeEvent;
    hide Frame;
    if keep != [] {
      KeptLogLength(records, keep[1..]);
      if keep[0] in records {
        var bodies := KeptBodies(records, keep);
        assert bodies == [EncodeEvent(records[keep[0]])] + KeptBodies(records, keep[1..]);
        assert bodies[1..] == KeptBodies(records, keep[1..]);
        assert Log(bodies) == Frame(bodies[0]) + Log(bodies[1..]);
      } else {
        assert KeptBodies(records, keep) == KeptBodies(records, keep[1..]);
      }
    }
  }

  // --- What a compaction keeps ---

  lemma FoldKeptStep(done: IndexState, records: map<bytes, Record>, keep: seq<bytes>)
    requires Sound(records) && keep != [] && keep[0] in records && keep[0] !in done.records
    ensures Folded(done, KeptBodies(records, keep)) ==
            Folded(AppendedEvent(done, records[keep[0]], FrameSize(records[keep[0]])), KeptBodies(records, keep[1..]))
    ensures records[keep[0]].eventId == keep[0]
  {
    hide Applied;
    var r := records[keep[0]];
    AppendedEventAgrees(done, r);
    hide EncodeEvent;
    hide Encodable;
    hide AppendedEvent;
    var bodies := KeptBodies(records, keep);
    assert bodies == [EncodeEvent(r)] + KeptBodies(records, keep[1..]);
    assert bodies[1..] == KeptBodies(records, keep[1..]);
  }

  lemma KeepTail(keep: seq<bytes>, ids: set<bytes>)
    requires Distinct(keep) && keep != [] && Elements(keep) <= ids
    ensures Distinct(keep[1..]) && Elements(keep[1..]) <= ids && keep[0] !in keep[1..]
    ensures forall id <- keep[1..] :: id in keep
  {
    assert forall id <- keep[1..] :: id in Elements(keep);
  }

  lemma RestrictStep(done: map<bytes, Record>, records: map<bytes, Record>, keep: seq<bytes>)
    requires keep != [] && keep[0] in records && keep[0] !in keep[1..]
    ensures done[keep[0] := records[keep[0]]] + Restricted(records, keep[1..])
         == done + Restricted(records, keep)
  {
    assert keep == [keep[0]] + keep[1..];
  }

  /** The index rebuilt after a compaction is the fold of the compacted log. */
  lemma {:induction false} FoldKept(done: IndexState, records: map<bytes, Record>, keep: seq<bytes>)
    requires Sound(records) && Distinct(keep) && Elements(keep) <= records.Keys
    requires forall id <- keep :: id !in done.records
    ensures Folded(done, KeptBodies(records, keep)) ==
            IndexState(done.records + Restricted(records, keep), done.used + KeptBytes(records, keep))
    decreases |keep|
  {
    if keep == [] {
      assert done.records + map[] == done.records;
    } else {
      assert keep[0] in Elements(keep);
      FoldKeptStep(done, records, keep);
      var r := records[keep[0]];
      assert KeptBytes(records, keep) == FrameSize(r) + KeptBytes(records, keep[1..]);
      hide Folded;
      hide FrameSize;
      hide KeptBytes;
      hide KeptBodies;
      hide Sound;
      var next := AppendedEvent(done, r, FrameSize(r));
      KeepTail(keep, records.Keys);
      hide Distinct;
      hide Elements;
      FoldKept(next, records, keep[1..]);
      RestrictStep(done.records, records, keep);
    }
  }

  lemma RebuiltIsFold(s: IndexState, keep: seq<bytes>)
    requires Sound(s.records) && Distinct(keep) && Elements(keep) <= s.records.Keys
    ensures Folded(EMPTY, KeptBodies(s.records, keep)) == Rebuilt(s, keep)
  {
    hide Folded;
    hide KeptBytes;
    hide KeptBodies;
    hide Sound;
    FoldKept(EMPTY, s.records, keep);
  }

  /** Every unanswered record survives a compaction with its latest status, and nothing is invented. */
  lemma UnansweredKept(s: IndexState, policy: CompactionPolicy, keep: seq<bytes>)
    requires KeepList(s.records, policy, keep)
    ensures var s' := Rebuilt(s, keep);
            && s'.records.Keys == Elements(keep)
            && (forall id | id in s.records && Unanswered(s.records[id]) :: id in s'.records)
            && forall id | id in s'.records :: id in s.records && s'.records[id] == s.records[id]
  {
    hide KeptBytes;
    assert KeptOf(s.records, Elements(keep), policy, PENDING) && KeptOf(s.records, Elements(keep), policy, IN_FLIGHT);
    forall id | id in s.records && Unanswered(s.records[id])
      ensures id in keep
    {
      assert id in Bucket(s.records, s.records[id].syncStatus);
      assert id in Elements(keep);
    }
    assert forall id <- keep :: id in Elements(keep);
  }

  /** Of each terminal status exactly the retention count survives, or all when there are fewer, and nothing
    * dropped is newer than what was kept. */
  lemma TerminalRetention(s: IndexState, policy: CompactionPolicy, keep: seq<bytes>, status: SyncStatus)
    requires KeepList(s.records, policy, keep) && Terminal(status)
    ensures var s' := Rebuilt(s, keep);
            && |Bucket(s'.records, status)| == Min(Retention(policy, status).value, |Bucket(s.records, status)|)
            && forall a, b | a in Bucket(s'.records, status) && b in Bucket(s.records, status) && b !in s'.records ::
                 s.records[b].createdUptimeMs <= s'.records[a].createdUptimeMs
  {
    hide KeptBytes;
    var s' := Rebuilt(s, keep);
    assert KeptOf(s.records, Elements(keep), policy, status);
    assert Bucket(s'.records, status) == Bucket(s.records, status) * Elements(keep);
  }

  /** Under the policy the firmware runs with, five of each terminal status stay. */
  lemma DefaultRetention(s: IndexState, keep: seq<bytes>, status: SyncStatus)
    requires KeepList(s.records, DEFAULT_POLICY, keep) && Terminal(status)
    ensures |Bucket(Rebuilt(s, keep).records, status)| == Min(5, |Bucket(s.records, status)|)
  {
    TerminalRetention(s, DEFAULT_POLICY, keep, status);
    hide Rebuilt;
    hide KeepList;
  }

  lemma SubsetFull<T>(a: set<T>, b: set<T>)
    requires a <= b && |a| == |b|
    ensures a == b
  {
    assert b == a + (b - a);
  }

  /** Selecting again right after a compaction keeps everything, so the next compaction is skipped. */
  lemma ReselectDropsNothing(s: IndexState, policy: CompactionPolicy, keep: seq<bytes>, again: seq<bytes>)
    requires KeepList(s.records, policy, keep)
    requires KeepList(Rebuilt(s, keep).records, policy, again)
    ensures Elements(again) == Rebuilt(s, keep).records.Keys
    ensures |again| == |Rebuilt(s, keep).records|
  {
    hide KeptBytes;
    var s' := Rebuilt(s, keep);
    forall id | id in s'.records
      ensures id in Elements(again)
    {
      var status := s'.records[id].syncStatus;
      var bucket := Bucket(s'.records, status);
      assert id in bucket && KeptOf(s'.records, Elements(again), policy, status);
      if Terminal(status) {
        TerminalRetention(s, policy, keep, status);
        SubsetFull(bucket * Elements(again), bucket);
      }
    }
    ElementsCount(again);
    assert |s'.records| == |s'.records.Keys|;
  }
}
