/** The in-memory index of the journal: the fold of the log's frames, the admission of new events, the replay
  * list and the choice of what a compaction keeps. */
module JournalIndex {
  import opened Bytes
  import opened Frames
  import opened Json
  import opened JournalRecord

  datatype AppendDecision = ACCEPT | DUPLICATE_EVENT | FULL

  datatype CompactionPolicy = CompactionPolicy(acked: nat, rejected: nat, conflict: nat, humanReview: nat)

  const DEFAULT_POLICY := CompactionPolicy(5, 5, 5, 5)

  datatype IndexState = IndexState(records: map<bytes, Record>, used: nat)

  const EMPTY := IndexState(map[], 0)

  // --- Specification ---

  function Merged(r: Record, t: Transition): (m: Record) {
    r.(syncStatus := t.syncStatus, retryCount := t.retryCount, lastAttemptUptimeMs := t.lastAttemptUptimeMs,
       lastErrorCode := t.lastErrorCode)
  }

  function AppendedTransition(s: IndexState, t: Transition, size: nat): (s': IndexState) {
    IndexState(if t.eventId in s.records then s.records[t.eventId := Merged(s.records[t.eventId], t)] else s.records, s.used + size)
  }

  function AppendedEvent(s: IndexState, r: Record, size: nat): (s': IndexState) {
    IndexState(s.records[r.eventId := r], s.used + size)
  }

  /** One scanned frame: the first record of an event id wins, a transition updates the record it names. */
  function Applied(s: IndexState, body: bytes, size: nat): (s': IndexState) {
    match KindOf(body)
    case EVENT =>
      (match DecodeEvent(body)
       case Some(r) => if r.eventId in s.records then s.(used := s.used + size) else AppendedEvent(s, r, size)
       case None => s.(used := s.used + size))
    case TRANSITION =>
      (match DecodeTransition(body)
       case Some(t) => AppendedTransition(s, t, size)
       case None => s.(used := s.used + size))
    case UNKNOWN => s.(used := s.used + size)
  }

  /** The index a boot builds from the frames of a log. */
  function Folded(s: IndexState, bodies: seq<bytes>): (s': IndexState)
    decreases |bodies|
  {
    if bodies == [] then s else Folded(Applied(s, bodies[0], |bodies[0]| + FRAME_OVERHEAD), bodies[1..])
  }

  predicate Terminal(s: SyncStatus) {
    s == ACKED || s == REJECTED || s == CONFLICT || s == HUMAN_REVIEW
  }

  predicate Unanswered(r: Record) {
    r.syncStatus == PENDING || r.syncStatus == IN_FLIGHT
  }

  function Retention(p: CompactionPolicy, s: SyncStatus): (n: Option<nat>)
    ensures n.Some? <==> Terminal(s)
  {
    match s
    case ACKED => Some(p.acked)
    case REJECTED => Some(p.rejected)
    case CONFLICT => Some(p.conflict)
    case HUMAN_REVIEW => Some(p.humanReview)
    case _ => None
  }

  ghost predicate Distinct<T>(s: seq<T>) {
    forall i, j | 0 <= i < j < |s| :: s[i] != s[j]
  }

  ghost function Bucket(records: map<bytes, Record>, s: SyncStatus): set<bytes> {
    set id | id in records && records[id].syncStatus == s
  }

  ghost function Elements<T>(s: seq<T>): set<T> {
    set x | x in s
  }

  /** What survives of one status: everything unanswered; of a terminal status the newest ones, as many as the
    * policy retains. */
  ghost predicate KeptOf(records: map<bytes, Record>, kept: set<bytes>, policy: CompactionPolicy, s: SyncStatus) {
    var bucket := Bucket(records, s);
    match Retention(policy, s)
    case None => bucket <= kept
    case Some(n) =>
      && |bucket * kept| == Min(n, |bucket|)
      && forall a, b | a in bucket && a in kept && b in bucket && b !in kept ::
           records[b].createdUptimeMs <= records[a].createdUptimeMs
  }

  ghost predicate KeepList(records: map<bytes, Record>, policy: CompactionPolicy, keep: seq<bytes>) {
    && Distinct(keep)
    && Elements(keep) <= records.Keys
    && forall s :: KeptOf(records, Elements(keep), policy, s)
  }

  /** No terminal status has more records than the policy retains. */
  ghost predicate NothingToDrop(records: map<bytes, Record>, policy: CompactionPolicy) {
    && |Bucket(records, ACKED)| <= policy.acked && |Bucket(records, REJECTED)| <= policy.rejected
    && |Bucket(records, CONFLICT)| <= policy.conflict && |Bucket(records, HUMAN_REVIEW)| <= policy.humanReview
  }

  /** The replay order: the unanswered records by the sequence number they were created with. */
  ghost predicate ReplayList(records: map<bytes, Record>, ids: seq<bytes>) {
    && Distinct(ids)
    && (forall id :: id in ids <==> id in records && Unanswered(records[id]))
    && forall i, j | 0 <= i < j < |ids| :: records[ids[i]].deviceSeq <= records[ids[j]].deviceSeq
  }

  function FrameSize(r: Record): (n: nat) {
    |EncodeEvent(r)| + FRAME_OVERHEAD
  }

  /** The size of the compacted log: one event frame per kept record. */
  function KeptBytes(records: map<bytes, Record>, keep: seq<bytes>): (n: nat) {
    if keep == [] then 0
    else (if keep[0] in records then FrameSize(records[keep[0]]) else 0) + KeptBytes(records, keep[1..])
  }

  function Restricted(records: map<bytes, Record>, ids: seq<bytes>): (r: map<bytes, Record>) {
    map id | id in records && id in ids :: records[id]
  }

  function Rebuilt(s: IndexState, keep: seq<bytes>): (s': IndexState) {
    IndexState(Restricted(s.records, keep), KeptBytes(s.records, keep))
  }

  function KeptBodies(records: map<bytes, Record>, keep: seq<bytes>): (bodies: seq<bytes>) {
    if keep == [] then []
    else (if keep[0] in records then [EncodeEvent(records[keep[0]])] else []) + KeptBodies(records, keep[1..])
  }

  // --- The class ---

  class EventJournalIndex {
    const capacity: nat
    var records: map<bytes, Record>
    var used: nat

    constructor (capacity: nat)
      ensures this.capacity == capacity && State() == EMPTY
    {
      this.capacity := capacity;
      records, used := map[], 0;
    }

    ghost function State(): (s: IndexState)
      reads this
    {
      IndexState(records, used)
    }

    /** apply_scanned_frame. */
    method ApplyScannedFrame(body: bytes, size: nat)
      modifies this
      ensures State() == Applied(old(State()), body, size)
    {
      hide DecodeEvent;
      hide DecodeTransition;
      hide KindOf;
      used := used + size;
      var kind := JournalBodyKind(body);
      if kind == EVENT {
        var r := DecodeJournalEvent(body);
        if r.None? || r.value.eventId in records {
          return;
        }
        records := records[r.value.eventId := r.value];
      } else if kind == TRANSITION {
        var t := DecodeJournalTransition(body);
        if t.None? || t.value.eventId !in records {
          return;
        }
        records := records[t.value.eventId := Merged(records[t.value.eventId], t.value)];
      }
    }

    /** decide_append. */
    method DecideAppend(eventId: bytes, size: nat) returns (d: AppendDecision)
      ensures d == DUPLICATE_EVENT <==> eventId in records
      ensures d == FULL <==> eventId !in records && used + size > capacity
    {
      return if eventId in records then DUPLICATE_EVENT else if used + size > capacity then FULL else ACCEPT;
    }

    /** record_appended_event. */
    method RecordAppendedEvent(r: Record, size: nat)
      modifies this
      ensures State() == AppendedEvent(old(State()), r, size)
    {
      records := records[r.eventId := r];
      used := used + size;
    }

    /** record_appended_transition. */
    method RecordAppendedTransition(t: Transition, size: nat)
      modifies this
      ensures State() == AppendedTransition(old(State()), t, size)
    {
      if t.eventId in records {
        records := records[t.eventId := Merged(records[t.eventId], t)];
      }
      used := used + size;
    }

    /** The loops over the records that filter by status. */
    method IdsWithStatus(wanted: set<SyncStatus>) returns (ids: seq<bytes>)
      ensures Distinct(ids)
      ensures forall id :: id in ids <==> id in records && records[id].syncStatus in wanted
    {
      ids := [];
      var todo := records.Keys;
      while todo != {}
        invariant todo <= records.Keys && Distinct(ids)
        invariant forall id :: id in ids <==> id in records && id !in todo && records[id].syncStatus in wanted
        decreases |todo|
      {
        var id :| id in todo;
        todo := todo - {id};
        if records[id].syncStatus in wanted {
          ids := ids + [id];
        }
      }
    }

    /** pending_in_device_seq_order. */
    method PendingInDeviceSeqOrder() returns (ids: seq<bytes>)
      ensures ReplayList(records, ids)
    {
      var found := IdsWithStatus({PENDING, IN_FLIGHT});
      assert forall id <- found :: id in records;
      ids := SortIds(found, map id | id in records :: records[id].deviceSeq as int);
    }

    /** The bucket of one terminal status, newest first, cut at the retention count. */
    method CollectAndTrim(status: SyncStatus, retention: nat) returns (ids: seq<bytes>)
      ensures Newest(records, status, retention, ids)
    {
      var found := IdsWithStatus({status});
      var sorted := SortIds(found, map id | id in records :: -(records[id].createdUptimeMs as int));
      assert Elements(found) == Bucket(records, status);
      ElementsCount(found);
      var n := Min(retention, |sorted|);
      ids := sorted[..n];
      assert forall i | 0 <= i < n :: sorted[i] == ids[i] && ids[i] in ids;
      assert forall id <- ids :: id in sorted && id in found;
    }

    /** select_records_to_keep. */
    method SelectRecordsToKeep(policy: CompactionPolicy) returns (keep: seq<bytes>)
      ensures KeepList(records, policy, keep)
    {
      var open := IdsWithStatus({PENDING, IN_FLIGHT});
      var acked := CollectAndTrim(ACKED, policy.acked);
      var rejected := CollectAndTrim(REJECTED, policy.rejected);
      var conflict := CollectAndTrim(CONFLICT, policy.conflict);
      var review := CollectAndTrim(HUMAN_REVIEW, policy.humanReview);
      JoinDistinct(records, open, acked, {PENDING, IN_FLIGHT}, {ACKED});
      keep := open + acked;
      JoinDistinct(records, keep, rejected, {PENDING, IN_FLIGHT, ACKED}, {REJECTED});
      keep := keep + rejected;
      JoinDistinct(records, keep, conflict, {PENDING, IN_FLIGHT, ACKED, REJECTED}, {CONFLICT});
      keep := keep + conflict;
      JoinDistinct(records, keep, review, {PENDING, IN_FLIGHT, ACKED, REJECTED, CONFLICT}, {HUMAN_REVIEW});
      keep := keep + review;
      EveryPartKept(records, keep, policy, acked, rejected, conflict, review);
    }

    /** rebuild_after_compaction. */
    method RebuildAfterCompaction(keep: seq<bytes>)
      modifies this
      ensures State() == Rebuilt(old(State()), keep)
    {
      var kept: map<bytes, Record> := map[];
      var bytesUsed := 0;
      for i := 0 to |keep|
        modifies {}
        invariant forall id :: id in kept <==> id in records && id in keep[..i]
        invariant forall id | id in kept :: kept[id] == records[id]
        invariant bytesUsed + KeptBytes(records, keep[i..]) == KeptBytes(records, keep)
      {
        assert keep[i..][1..] == keep[i + 1..];
        assert keep[..i + 1] == keep[..i] + [keep[i]];
        if keep[i] in records {
          kept := kept[keep[i] := records[keep[i]]];
          var body := EncodeJournalEvent(records[keep[i]]);
          bytesUsed := bytesUsed + |body| + FRAME_OVERHEAD;
        }
      }
      assert keep[..|keep|] == keep && keep[|keep|..] == [];
      records, used := kept, bytesUsed;
      assert records == Rebuilt(old(State()), keep).records;
    }
  }

  // --- The parts of a keep-list ---

  ghost predicate Newest(records: map<bytes, Record>, status: SyncStatus, retention: nat, ids: seq<bytes>) {
    && Distinct(ids)
    && (forall id <- ids :: id in records && records[id].syncStatus == status)
    && |ids| == Min(retention, |Bucket(records, status)|)
    && forall a, b | a in ids && b in records && records[b].syncStatus == status && b !in ids ::
         records[b].createdUptimeMs <= records[a].createdUptimeMs
  }

  ghost predicate OfStatus(records: map<bytes, Record>, ids: seq<bytes>, statuses: set<SyncStatus>) {
    forall id <- ids :: id in records && records[id].syncStatus in statuses
  }

  lemma JoinDistinct(records: map<bytes, Record>, a: seq<bytes>, b: seq<bytes>, of: set<SyncStatus>, other: set<SyncStatus>)
    requires Distinct(a) && Distinct(b) && of !! other
    requires OfStatus(records, a, of) && OfStatus(records, b, other)
    ensures Distinct(a + b) && OfStatus(records, a + b, of + other)
  {
    forall i, j | 0 <= i < |a| && 0 <= j < |b|
      ensures a[i] != b[j]
    {
      assert a[i] in a && b[j] in b;
    }
  }

  lemma PartKept(records: map<bytes, Record>, keep: seq<bytes>, policy: CompactionPolicy, status: SyncStatus, part: seq<bytes>)
    requires Terminal(status) && Newest(records, status, Retention(policy, status).value, part)
    requires PartOf(records, keep, status, part)
    ensures KeptOf(records, Elements(keep), policy, status)
  {
    assert Bucket(records, status) * Elements(keep) == Elements(part);
    ElementsCount(part);
    assert forall id :: id in Elements(keep) <==> id in keep;
  }

  /** `part` holds the kept ids of one status. */
  ghost predicate PartOf(records: map<bytes, Record>, keep: seq<bytes>, status: SyncStatus, part: seq<bytes>) {
    forall id | id in records && records[id].syncStatus == status :: id in keep <==> id in part
  }

  lemma EveryPartKept(records: map<bytes, Record>, keep: seq<bytes>, policy: CompactionPolicy, acked: seq<bytes>,
                      rejected: seq<bytes>, conflict: seq<bytes>, review: seq<bytes>)
    requires Newest(records, ACKED, policy.acked, acked) && Newest(records, REJECTED, policy.rejected, rejected)
    requires Newest(records, CONFLICT, policy.conflict, conflict) && Newest(records, HUMAN_REVIEW, policy.humanReview, review)
    requires PartOf(records, keep, ACKED, acked) && PartOf(records, keep, REJECTED, rejected)
    requires PartOf(records, keep, CONFLICT, conflict) && PartOf(records, keep, HUMAN_REVIEW, review)
    requires forall id | id in records && (records[id].syncStatus == PENDING || records[id].syncStatus == IN_FLIGHT) :: id in keep
    ensures forall s :: KeptOf(records, Elements(keep), policy, s)
  {
    forall s
      ensures KeptOf(records, Elements(keep), policy, s)
    {
      match s {
        case PENDING =>
        case IN_FLIGHT =>
        case ACKED => PartKept(records, keep, policy, s, acked);
        case REJECTED => PartKept(records, keep, policy, s, rejected);
        case CONFLICT => PartKept(records, keep, policy, s, conflict);
        case HUMAN_REVIEW => PartKept(records, keep, policy, s, review);
      }
    }
  }

  /** A keep-list leaves something out exactly when some terminal status is over its retention. */
  lemma DropsExactly(records: map<bytes, Record>, policy: CompactionPolicy, keep: seq<bytes>)
    requires KeepList(records, policy, keep)
    ensures |keep| == |records| <==> NothingToDrop(records, policy)
  {
    var kept := Elements(keep);
    ElementsCount(keep);
    assert |records| == |records.Keys|;
    forall s
      ensures match Retention(policy, s)
              case None => Bucket(records, s) <= kept
              case Some(n) => |Bucket(records, s)| <= n <==> Bucket(records, s) <= kept
    {
      assert KeptOf(records, kept, policy, s);
      var bucket := Bucket(records, s);
      if bucket <= kept {
        assert bucket * kept == bucket;
      } else if |bucket * kept| == |bucket| {
        SubsetOfSize(bucket * kept, bucket);
      }
    }
    if kept == records.Keys {
      forall s
        ensures Bucket(records, s) <= kept
      {
      }
      assert |Bucket(records, ACKED)| <= policy.acked && |Bucket(records, REJECTED)| <= policy.rejected;
    } else {
      var id :| id in records && id !in kept;
      assert id in Bucket(records, records[id].syncStatus);
      if |kept| == |records.Keys| {
        SubsetOfSize(kept, records.Keys);
      }
    }
  }

  lemma SubsetOfSize<T>(a: set<T>, b: set<T>)
    requires a <= b && |a| == |b|
    ensures a == b
  {
    assert b == a + (b - a);
    assert |b| == |a| + |b - a|;
  }

  // --- Sorting ---

  ghost predicate SortedBy<T>(ids: seq<T>, rank: map<T, int>) {
    && (forall id <- ids :: id in rank)
    && forall i, j | 0 <= i < j < |ids| :: rank[ids[i]] <= rank[ids[j]]
  }

  ghost predicate Ordering(ids: seq<bytes>, rank: map<bytes, int>, sorted: seq<bytes>) {
    Distinct(sorted) && |sorted| == |ids| && (forall id :: id in sorted <==> id in ids) && SortedBy(sorted, rank)
  }

  /** std::sort by a rank: ties come out in any order. */
  method SortIds(ids: seq<bytes>, rank: map<bytes, int>) returns (sorted: seq<bytes>)
    requires Distinct(ids) && forall id <- ids :: id in rank
    ensures Ordering(ids, rank, sorted)
  {
    sorted := [];
    var todo := set id | id in ids;
    ElementsCount(ids);
    while todo != {}
      invariant forall id :: id in ids <==> id in todo || id in sorted
      invariant Distinct(sorted) && SortedBy(sorted, rank)
      invariant |sorted| + |todo| == |ids|
      invariant forall i | 0 <= i < |sorted| :: sorted[i] !in todo
      invariant forall i, id | 0 <= i < |sorted| && id in todo :: rank[sorted[i]] <= rank[id]
      decreases |todo|
    {
      LeastExists(todo, rank);
      var id :| id in todo && forall x | x in todo :: rank[id] <= rank[x];
      todo := todo - {id};
      sorted := sorted + [id];
    }
  }

  lemma LeastExists(ids: set<bytes>, rank: map<bytes, int>)
    requires ids != {} && ids <= rank.Keys
    ensures exists id :: id in ids && forall x | x in ids :: rank[id] <= rank[x]
  {
    var id :| id in ids;
    if ids != {id} {
      LeastExists(ids - {id}, rank);
      var least :| least in ids - {id} && forall x | x in ids - {id} :: rank[least] <= rank[x];
      assert rank[least] <= rank[id] || forall x | x in ids :: rank[id] <= rank[x];
    }
  }

  lemma {:induction false} ElementsCount<T>(s: seq<T>)
    requires forall i, j | 0 <= i < j < |s| :: s[i] != s[j]
    ensures |Elements(s)| == |s|
  {
    if s != [] {
      var front, last := s[..|s| - 1], s[|s| - 1];
      ElementsCount(front);
      assert Elements(s) == Elements(front) + {last};
    }
  }
}
