/** Runs in which an operator's event is made durable, the operator is told so, and the event is lost. */
module LossRuns {
  import opened Bytes
  import opened Frames
  import opened JournalFile
  import opened JournalRecord
  import opened JournalIndex
  import opened IndexLaws
  import opened EventJournal
  import opened JournalDurability
  import opened JournalProgress
  import opened KioskRuntime
  import opened KioskSystem
  import opened SystemFrames
  import opened SystemJournal
  import opened SystemLaws
  import opened ReplayPass
  import opened SystemRuns
  import B = BusinessEvent
  import N = NetworkWorker
  import ProtocolCodec
  import Q = SequenceReservation

  /** What holds of every state of every run holds of a state that steps lead to. */
  lemma Reached(e: Env, s: System)
    requires e.block >= 1 && Leads(e, Start(e), s)
    ensures Inv(e, s)
  {
    hide Inv;
    hide Can;
    hide Next;
    var steps, states :| Stretch(e, steps, states) && states[0] == Start(e) && states[|steps|] == s;
    assert Run(e, steps, states);
    RunKeeps(e, steps, states);
  }

  // --- The events of a shift ---

  /** The answer that sends an event to review: an HTTP status in the 400s. */
  const REFUSED := N.HttpOutcome(false, false, N.HTTP_4XX)

  function Rec(events: seq<ProtocolCodec.KioskEvent>, i: nat): (r: Record)
    requires i < |events|
  {
    B.RecordOf(events[i])
  }

  function Review(r: Record): (t: Transition) {
    NoteOf(Result(Request(N.BUSINESS_EVENT, r), REFUSED, Garbled))
  }

  /** The journal bytes of the first `n` events and their notes. */
  function Volume(events: seq<ProtocolCodec.KioskEvent>, n: nat): (bytes: nat)
    requires n <= |events|
  {
    if n == 0 then 0
    else Volume(events, n - 1) + FrameSize(Rec(events, n - 1)) + |Frame(EncodeTransition(Review(Rec(events, n - 1))))|
  }

  /** Events that a device can make, one after the other, before it has seen any state of the server. */
  ghost predicate Shift(e: Env, events: seq<ProtocolCodec.KioskEvent>) {
    && e.block >= 1 && Volume(events, |events|) <= e.capacity && Volume(events, |events|) < U32_BOUND
    && (forall i | 0 <= i < |events| ::
          events[i].eventType.SCAN? && Made(e, None, events[i], Rec(events, i)) && Rec(events, i).deviceSeq == i + 1)
    && (forall i, j | 0 <= i < j < |events| :: Rec(events, i).eventId != Rec(events, j).eventId)
    && (forall i, j | 0 <= i < j < |events| :: Rec(events, i).createdUptimeMs <= Rec(events, j).createdUptimeMs)
  }

  lemma {:induction false} VolumeRises(events: seq<ProtocolCodec.KioskEvent>, m: nat, n: nat)
    requires m <= n <= |events|
    ensures Volume(events, m) <= Volume(events, n)
    decreases n
  {
    hide FrameSize;
    hide Frame;
    hide Rec;
    hide Review;
    hide EncodeTransition;
    if m < n {
      VolumeRises(events, m, n - 1);
    }
  }

  function Ids(events: seq<ProtocolCodec.KioskEvent>, a: nat, b: nat): (ids: seq<bytes>)
    requires a <= b <= |events|
    ensures |ids| == b - a
  {
    seq(b - a, i requires 0 <= i < b - a => Rec(events, a + i).eventId)
  }

  /** The records of the first `n` events, each given up for review. */
  function Reviewed(events: seq<ProtocolCodec.KioskEvent>, n: nat): (records: map<bytes, Record>)
    requires n <= |events|
  {
    if n == 0 then map[]
    else Reviewed(events, n - 1)[Rec(events, n - 1).eventId := Merged(Rec(events, n - 1), Review(Rec(events, n - 1)))]
  }

  lemma MergedReview(r: Record)
    ensures Merged(r, Review(r)).syncStatus == HUMAN_REVIEW && Merged(r, Review(r)).createdUptimeMs == r.createdUptimeMs
  {
    hide CodeOf;
  }

  ghost predicate OwnIds(events: seq<ProtocolCodec.KioskEvent>) {
    forall i, j | 0 <= i < j < |events| :: Rec(events, i).eventId != Rec(events, j).eventId
  }

  lemma {:induction false} ReviewedAt(events: seq<ProtocolCodec.KioskEvent>, n: nat, i: nat)
    requires OwnIds(events) && i < n <= |events|
    ensures var r := Rec(events, i); r.eventId in Reviewed(events, n) && Reviewed(events, n)[r.eventId] == Merged(r, Review(r))
    decreases n
  {
    hide Rec;
    hide Review;
    hide Merged;
    if i < n - 1 {
      ReviewedAt(events, n - 1, i);
      assert Rec(events, i).eventId != Rec(events, n - 1).eventId;
    }
  }

  lemma ReviewedShape(e: Env, events: seq<ProtocolCodec.KioskEvent>, n: nat)
    requires Shift(e, events) && n <= |events|
    ensures Reviewed(events, n).Keys == Elements(Ids(events, 0, n))
    ensures forall i | 0 <= i < n :: Rec(events, i).eventId in Reviewed(events, n)
              && Reviewed(events, n)[Rec(events, i).eventId].syncStatus == HUMAN_REVIEW
              && Reviewed(events, n)[Rec(events, i).eventId].createdUptimeMs == Rec(events, i).createdUptimeMs
  {
    assert OwnIds(events) by {
      hide Made;
      hide Rec;
      hide Volume;
    }
    hide *;
    ReviewedKeys(events, n);
    forall i | 0 <= i < n
      ensures Rec(events, i).eventId in Reviewed(events, n)
      ensures Reviewed(events, n)[Rec(events, i).eventId].syncStatus == HUMAN_REVIEW
      ensures Reviewed(events, n)[Rec(events, i).eventId].createdUptimeMs == Rec(events, i).createdUptimeMs
    {
      ReviewedAt(events, n, i);
      MergedReview(Rec(events, i));
    }
  }

  lemma {:induction false} ReviewedKeys(events: seq<ProtocolCodec.KioskEvent>, n: nat)
    requires n <= |events|
    ensures Reviewed(events, n).Keys == Elements(Ids(events, 0, n))
    decreases n
  {
    hide Rec;
    hide Review;
    hide Merged;
    if n > 0 {
      ReviewedKeys(events, n - 1);
      assert Ids(events, 0, n) == Ids(events, 0, n - 1) + [Rec(events, n - 1).eventId];
    }
  }

  /** The device is idle, the first `n` events are journaled and settled, and no other. */
  ghost predicate Settled(e: Env, events: seq<ProtocolCodec.KioskEvent>, n: nat, s: System)
    requires n <= |events|
  {
    && s.kiosk == BOOTED.(index := IndexState(Reviewed(events, n), Volume(events, n))) && Bounded(s.kiosk.index)
    && s.created.Keys == Reviewed(events, n).Keys && s.answered <= s.created.Keys && !s.active
    && Q.Safe(s.counter) && s.counter.current == n
    && Ready(s.disk) && |LogBytes(s.disk)| == Volume(events, n) && TMP !in s.disk
  }

  lemma StartSettled(e: Env, events: seq<ProtocolCodec.KioskEvent>)
    requires e.block >= 1
    ensures Settled(e, events, 0, Start(e))
  {
    StartReady(e);
    StartCounter(e);
    forall none: seq<bytes> | Distinct(none)
      ensures KeptBytes(map[], none) <= 0
    {
      NothingKept(none);
    }
    hide KeptBytes;
    hide Ready;
  }

  /** What appending a frame does to a flash that is ready for it. */
  lemma FlashMore(d: Disk, body: bytes)
    requires Ready(d) && TMP !in d && |LogBytes(d)| + |Frame(body)| < U32_BOUND
    ensures var d' := Grown(d, DAT, Frame(body)); Ready(d') && TMP !in d' && |LogBytes(d')| == |LogBytes(d)| + |Frame(body)|
  {
    BootGrown(d, body);
    hide Boot;
    hide Frame;
    hide Ready;
    hide LogBytes;
  }

  /** The state after one more event was made durable, sent, refused on the way and noted for review. */
  function AfterReview(e: Env, s: System, r: Record): (s': System) {
    var note := Review(r);
    s.(kiosk := s.kiosk.(index := AppendedTransition(AppendedEvent(s.kiosk.index, r, FrameSize(r)), note,
                                                    |Frame(EncodeTransition(note))|)),
       disk := Grown(Grown(s.disk, DAT, Frame(EncodeEvent(r))), DAT, Frame(EncodeTransition(note))),
       counter := Q.Next(s.counter, e.block), created := s.created[r.eventId := r], window := s.window + {r.eventId},
       answered := s.answered + {r.eventId})
  }

  lemma FreshId(e: Env, events: seq<ProtocolCodec.KioskEvent>, n: nat)
    requires Shift(e, events) && n < |events|
    ensures Rec(events, n).eventId !in Reviewed(events, n)
  {
    ReviewedShape(e, events, n);
    IdsDiffer(e, events, n);
    hide Shift;
    hide Rec;
    hide Reviewed;
    assert Rec(events, n).eventId in Reviewed(events, n) <==> Rec(events, n).eventId in Reviewed(events, n).Keys;
  }

  lemma IdsDiffer(e: Env, events: seq<ProtocolCodec.KioskEvent>, n: nat)
    requires Shift(e, events) && n < |events|
    ensures Rec(events, n).eventId !in Ids(events, 0, n)
  {
    hide Made;
    hide Rec;
    hide Volume;
    forall i | 0 <= i < n
      ensures Ids(events, 0, n)[i] != Rec(events, n).eventId
    {
      assert Ids(events, 0, n)[i] == Rec(events, 0 + i).eventId;
    }
  }

  /** There is room for the next event and its note. */
  lemma NextFits(e: Env, events: seq<ProtocolCodec.KioskEvent>, n: nat)
    requires Shift(e, events) && n < |events|
    ensures var total := Volume(events, n) + FrameSize(Rec(events, n)) + |Frame(EncodeTransition(Review(Rec(events, n))))|;
            total == Volume(events, n + 1) <= e.capacity && total < U32_BOUND
    ensures FrameSize(Rec(events, n)) == |Frame(EncodeEvent(Rec(events, n)))|
  {
    VolumeRises(events, n + 1, |events|);
    hide EncodeEvent;
    hide EncodeTransition;
    hide B.RecordOf;
    hide Made;
  }

  lemma SettleOne(e: Env, events: seq<ProtocolCodec.KioskEvent>, n: nat, a: System, s: System) returns (s': System)
    requires Shift(e, events) && n < |events| && Leads(e, a, s) && Settled(e, events, n, s)
    ensures Leads(e, a, s') && Settled(e, events, n + 1, s')
  {
    var r := Rec(events, n);
    NextFits(e, events, n);
    FreshId(e, events, n);
    NextNumber(e, s.counter);
    FlashMore(s.disk, EncodeEvent(r));
    assert events[n].eventType.SCAN? && Made(e, None, events[n], r) && r.deviceSeq == n + 1;
    hide Shift;
    hide Leads;
    hide Made;
    hide Rec;
    hide Reviewed;
    hide Volume;
    hide FrameSize;
    hide Frame;
    hide EncodeEvent;
    hide EncodeTransition;
    hide Ready;
    hide LogBytes;
    hide Bounded;
    hide Q.Next;
    s' := ReviewOne(e, a, s, events[n], r);
    SettledNow(e, events, n, s, s');
  }

  lemma ReviewOne(e: Env, a: System, s: System, event: ProtocolCodec.KioskEvent, r: Record) returns (s': System)
    requires Leads(e, a, s) && s.kiosk == BOOTED.(index := s.kiosk.index)
    requires event.eventType.SCAN? && Made(e, None, event, r) && r.deviceSeq == Q.Next(s.counter, e.block).current
    requires r.eventId !in s.created && r.eventId !in s.kiosk.index.records && s.kiosk.index.used + FrameSize(r) <= e.capacity
    requires Ready(s.disk) && |LogBytes(s.disk)| + |Frame(EncodeEvent(r))| < U32_BOUND
    requires var d := Grown(s.disk, DAT, Frame(EncodeEvent(r)));
             Ready(d) && |LogBytes(d)| + |Frame(EncodeTransition(Review(r)))| < U32_BOUND
    ensures Leads(e, a, s') && s' == AfterReview(e, s, r)
  {
    var res := Result(Request(N.BUSINESS_EVENT, r), REFUSED, Garbled);
    hide Leads;
    hide Made;
    hide FrameSize;
    hide Frame;
    hide EncodeEvent;
    hide EncodeTransition;
    hide Ready;
    hide LogBytes;
    hide Q.Next;
    s' := SendNext(e, a, s, event, r);
    assert s.kiosk.worker.high + [Request(N.BUSINESS_EVENT, r)] == [Request(N.BUSINESS_EVENT, r)];
    s' := TakeHigh(e, a, s', Request(N.BUSINESS_EVENT, r));
    s' := Finish(e, a, s', REFUSED, Garbled);
    s' := Deposit(e, a, s');
    assert StatusAfter(res) == HUMAN_REVIEW && Final(res) && NoteOf(res) == Review(r);
    hide StatusAfter;
    hide Final;
    s' := PollNoted(e, a, s', res);
  }

  lemma SettledNow(e: Env, events: seq<ProtocolCodec.KioskEvent>, n: nat, s: System, s': System)
    requires n < |events| && Settled(e, events, n, s) && s' == AfterReview(e, s, Rec(events, n))
    requires FrameSize(Rec(events, n)) == |Frame(EncodeEvent(Rec(events, n)))|
    requires Volume(events, n) + FrameSize(Rec(events, n)) + |Frame(EncodeTransition(Review(Rec(events, n))))|
             == Volume(events, n + 1) < U32_BOUND
    requires Q.Safe(Q.Next(s.counter, e.block)) && Q.Next(s.counter, e.block).current == n + 1
    ensures Settled(e, events, n + 1, s')
  {
    hide Rec;
    hide FrameSize;
    hide Frame;
    hide EncodeEvent;
    hide EncodeTransition;
    hide Ready;
    hide LogBytes;
    hide Bounded;
    hide Volume;
    hide Q.Next;
    var r := Rec(events, n);
    var note := Review(r);
    assert note.eventId == r.eventId;
    assert Reviewed(events, n + 1) == Reviewed(events, n)[r.eventId := Merged(r, note)];
    hide Review;
    hide Reviewed;
    hide Merged;
    NowIndex(s.kiosk.index, r, note);
    NowFlash(s.disk, EncodeEvent(r), EncodeTransition(note));
    assert s'.created.Keys == s.created.Keys + {r.eventId} == Reviewed(events, n + 1).Keys;
    hide AppendedEvent;
    hide AppendedTransition;
  }

  lemma NowIndex(index: IndexState, r: Record, note: Transition)
    requires Bounded(index) && note.eventId == r.eventId
    ensures var size := |Frame(EncodeTransition(note))|;
            var now := AppendedTransition(AppendedEvent(index, r, FrameSize(r)), note, size);
            && now == IndexState(index.records[r.eventId := Merged(r, note)], index.used + FrameSize(r) + size)
            && Bounded(now)
  {
    EventAppendBounded(index, r);
    MergeBounded(AppendedEvent(index, r, FrameSize(r)), note, |Frame(EncodeTransition(note))|);
    hide FrameSize;
    hide EncodeTransition;
    hide Bounded;
    hide Frame;
    assert index.records[r.eventId := r][r.eventId := Merged(r, note)] == index.records[r.eventId := Merged(r, note)];
  }

  lemma NowFlash(d: Disk, body: bytes, more: bytes)
    requires Ready(d) && TMP !in d && |LogBytes(d)| + |Frame(body)| + |Frame(more)| < U32_BOUND
    ensures var d' := Grown(Grown(d, DAT, Frame(body)), DAT, Frame(more));
            Ready(d') && TMP !in d' && |LogBytes(d')| == |LogBytes(d)| + |Frame(body)| + |Frame(more)|
  {
    FlashMore(d, body);
    FlashMore(Grown(d, DAT, Frame(body)), more);
    hide *;
  }

  lemma ShiftBlock(e: Env, events: seq<ProtocolCodec.KioskEvent>)
    requires Shift(e, events)
    ensures e.block >= 1
  {
    hide Made;
    hide Rec;
    hide Volume;
  }

  lemma {:induction false} SettleAll(e: Env, events: seq<ProtocolCodec.KioskEvent>, n: nat) returns (s: System)
    requires Shift(e, events) && n <= |events|
    ensures Leads(e, Start(e), s) && Settled(e, events, n, s)
    decreases n
  {
    hide *;
    if n == 0 {
      ShiftBlock(e, events);
      s := Start(e);
      Stays(e, s);
      StartSettled(e, events);
    } else {
      s := SettleAll(e, events, n - 1);
      s := SettleOne(e, events, n - 1, Start(e), s);
    }
  }

  // --- Dropped by a compaction ---

  /** One settled event more than the firmware's policy keeps; then one that waits, and one that will be dropped. */
  const SETTLED: nat := DEFAULT_POLICY.humanReview + 1

  function WaitingIndex(events: seq<ProtocolCodec.KioskEvent>): (records: map<bytes, Record>)
    requires |events| == SETTLED + 2
  {
    Reviewed(events, SETTLED)[Rec(events, SETTLED).eventId := Rec(events, SETTLED)]
  }

  lemma IdsDistinct(e: Env, events: seq<ProtocolCodec.KioskEvent>, a: nat, b: nat)
    requires Shift(e, events) && a <= b <= |events|
    ensures Distinct(Ids(events, a, b)) && |Elements(Ids(events, a, b))| == b - a
  {
    hide Made;
    hide Rec;
    hide Volume;
    var ids := Ids(events, a, b);
    forall i, j | 0 <= i < j < |ids|
      ensures ids[i] != ids[j]
    {
      assert ids[i] == Rec(events, a + i).eventId && ids[j] == Rec(events, a + j).eventId;
    }
    ElementsCount(ids);
  }

  lemma IdsSplit(events: seq<ProtocolCodec.KioskEvent>, a: nat, m: nat, b: nat)
    requires a <= m <= b <= |events|
    ensures Ids(events, a, b) == Ids(events, a, m) + Ids(events, m, b)
    ensures Elements(Ids(events, a, b)) == Elements(Ids(events, a, m)) + Elements(Ids(events, m, b))
  {
    hide Rec;
    assert Ids(events, a, b) == Ids(events, a, m) + Ids(events, m, b);
  }

  lemma OneId(events: seq<ProtocolCodec.KioskEvent>, a: nat)
    requires a < |events|
    ensures Ids(events, a, a + 1) == [Rec(events, a).eventId] && Elements(Ids(events, a, a + 1)) == {Rec(events, a).eventId}
  {
    hide Rec;
    assert Ids(events, a, a + 1) == [Rec(events, a).eventId];
  }

  /** The status buckets of the waiting index, and what the oldest reviewed record is. */
  lemma WaitingShape(e: Env, events: seq<ProtocolCodec.KioskEvent>)
    requires Shift(e, events) && |events| == SETTLED + 2
    ensures var records := WaitingIndex(events);
            && records.Keys == Elements(Ids(events, 0, SETTLED + 1))
            && Bucket(records, HUMAN_REVIEW) == Elements(Ids(events, 0, SETTLED))
            && Bucket(records, PENDING) == Elements(Ids(events, SETTLED, SETTLED + 1))
            && (forall status | status != PENDING && status != HUMAN_REVIEW :: Bucket(records, status) == {})
            && (forall i | 0 <= i < SETTLED :: Rec(events, i).eventId in records
                  && records[Rec(events, i).eventId].createdUptimeMs == Rec(events, i).createdUptimeMs)
  {
    hide Shift;
    hide Rec;
    ReviewedShape(e, events, SETTLED);
    FreshId(e, events, SETTLED);
    IdsSplit(events, 0, SETTLED, SETTLED + 1);
    OneId(events, SETTLED);
    StatusesOf(e, events);
    var base, id := Reviewed(events, SETTLED), Rec(events, SETTLED).eventId;
    hide Reviewed;
    hide Ids;
    assert forall x | x in base :: x in base.Keys && base[x].syncStatus == HUMAN_REVIEW;
    assert id !in base.Keys;
    BucketsOf(base, id, Rec(events, SETTLED));
  }

  lemma StatusesOf(e: Env, events: seq<ProtocolCodec.KioskEvent>)
    requires Shift(e, events) && |events| == SETTLED + 2
    ensures forall x | x in Reviewed(events, SETTLED) :: Reviewed(events, SETTLED)[x].syncStatus == HUMAN_REVIEW
    ensures Rec(events, SETTLED).syncStatus == PENDING
  {
    hide Shift;
    hide Rec;
    hide Reviewed;
    ReviewedShape(e, events, SETTLED);
    PendingRec(events, SETTLED);
    forall x | x in Reviewed(events, SETTLED)
      ensures Reviewed(events, SETTLED)[x].syncStatus == HUMAN_REVIEW
    {
      assert x in Reviewed(events, SETTLED).Keys;
      var i := IdAt(events, SETTLED, x);
    }
  }

  lemma IdAt(events: seq<ProtocolCodec.KioskEvent>, n: nat, id: bytes) returns (i: nat)
    requires n <= |events| && id in Elements(Ids(events, 0, n))
    ensures i < n && Rec(events, i).eventId == id
  {
    hide Rec;
    i :| i < n && Ids(events, 0, n)[i] == id;
    assert Ids(events, 0, n)[i] == Rec(events, 0 + i).eventId;
  }

  lemma PendingRec(events: seq<ProtocolCodec.KioskEvent>, i: nat)
    requires i < |events|
    ensures Rec(events, i).syncStatus == PENDING
  {
    hide ProtocolCodec.EncodeBody;
    hide B.HexWord;
  }

  lemma BucketsOf(base: map<bytes, Record>, id: bytes, r: Record)
    requires id !in base && r.syncStatus == PENDING && forall x | x in base :: base[x].syncStatus == HUMAN_REVIEW
    ensures var records := base[id := r];
            && records.Keys == base.Keys + {id}
            && Bucket(records, HUMAN_REVIEW) == base.Keys && Bucket(records, PENDING) == {id}
            && forall status | status != PENDING && status != HUMAN_REVIEW :: Bucket(records, status) == {}
  {
  }

  /** What the policy keeps of it: all but the oldest of the settled events. */
  lemma WaitingKept(e: Env, events: seq<ProtocolCodec.KioskEvent>)
    requires Shift(e, events) && |events| == SETTLED + 2
    ensures KeepList(WaitingIndex(events), DEFAULT_POLICY, Ids(events, 1, SETTLED + 1))
    ensures |WaitingIndex(events)| == SETTLED + 1
  {
    assert SETTLED > 1;
    hide *;
    var records, keep := WaitingIndex(events), Ids(events, 1, SETTLED + 1);
    var some, first := Elements(Ids(events, 1, SETTLED)), Rec(events, 0).eventId;
    WaitingShape(e, events);
    FrontId(e, events, SETTLED);
    FrontId(e, events, SETTLED + 1);
    LastId(events);
    Oldest(e, events);
    IdsDistinct(e, events, 1, SETTLED + 1);
    assert |records| == |records.Keys|;
    AllButFirst(records, keep, some, first);
  }

  lemma FrontId(e: Env, events: seq<ProtocolCodec.KioskEvent>, b: nat)
    requires Shift(e, events) && 1 <= b <= |events|
    ensures Elements(Ids(events, 0, b)) == {Rec(events, 0).eventId} + Elements(Ids(events, 1, b))
    ensures |Elements(Ids(events, 0, b))| == b && |Elements(Ids(events, 1, b))| == b - 1
  {
    hide *;
    IdsSplit(events, 0, 1, b);
    OneId(events, 0);
    IdsDistinct(e, events, 0, b);
    IdsDistinct(e, events, 1, b);
  }

  lemma LastId(events: seq<ProtocolCodec.KioskEvent>)
    requires |events| > SETTLED
    ensures Elements(Ids(events, 1, SETTLED)) <= Elements(Ids(events, 1, SETTLED + 1))
    ensures Elements(Ids(events, SETTLED, SETTLED + 1)) <= Elements(Ids(events, 1, SETTLED + 1))
  {
    assert SETTLED > 1;
    hide *;
    IdsSplit(events, 1, SETTLED, SETTLED + 1);
  }

  lemma AllButFirst(records: map<bytes, Record>, keep: seq<bytes>, some: set<bytes>, first: bytes)
    requires Distinct(keep) && |Elements(keep)| == SETTLED
    requires records.Keys == {first} + Elements(keep) && |records| == SETTLED + 1
    requires Bucket(records, HUMAN_REVIEW) == {first} + some && some <= Elements(keep)
    requires |some| == SETTLED - 1 && |{first} + some| == SETTLED
    requires Bucket(records, PENDING) <= Elements(keep)
    requires forall other | other != PENDING && other != HUMAN_REVIEW :: Bucket(records, other) == {}
    requires forall x | x in Bucket(records, HUMAN_REVIEW) :: first in records && x in records
               && records[first].createdUptimeMs <= records[x].createdUptimeMs
    ensures KeepList(records, DEFAULT_POLICY, keep)
  {
    var kept := Elements(keep);
    hide *;
    FirstNotKept(records, first, kept);
    forall status
      ensures KeptOf(records, kept, DEFAULT_POLICY, status)
    {
      KeptStatus(records, kept, some, first, status);
    }
    KeptAll(records, keep);
  }

  lemma KeptAll(records: map<bytes, Record>, keep: seq<bytes>)
    requires Distinct(keep) && Elements(keep) <= records.Keys
    requires forall status :: KeptOf(records, Elements(keep), DEFAULT_POLICY, status)
    ensures KeepList(records, DEFAULT_POLICY, keep)
  {
    hide KeptOf;
    hide Elements;
    hide Distinct;
  }

  lemma Oldest(e: Env, events: seq<ProtocolCodec.KioskEvent>)
    requires Shift(e, events) && |events| == SETTLED + 2
    ensures forall x | x in Bucket(WaitingIndex(events), HUMAN_REVIEW) ::
              Rec(events, 0).eventId in WaitingIndex(events)
              && WaitingIndex(events)[Rec(events, 0).eventId].createdUptimeMs <= WaitingIndex(events)[x].createdUptimeMs
  {
    hide Shift;
    hide Rec;
    hide WaitingIndex;
    hide Ids;
    WaitingShape(e, events);
    Rising(e, events);
    forall x | x in Bucket(WaitingIndex(events), HUMAN_REVIEW)
      ensures WaitingIndex(events)[Rec(events, 0).eventId].createdUptimeMs <= WaitingIndex(events)[x].createdUptimeMs
    {
      var i := IdAt(events, SETTLED, x);
    }
  }

  lemma Rising(e: Env, events: seq<ProtocolCodec.KioskEvent>)
    requires Shift(e, events) && |events| > 0
    ensures forall i | 0 <= i < |events| :: Rec(events, 0).createdUptimeMs <= Rec(events, i).createdUptimeMs
  {
    hide Made;
    hide Rec;
    hide Volume;
  }

  lemma FirstNotKept(records: map<bytes, Record>, first: bytes, kept: set<bytes>)
    requires records.Keys == {first} + kept && |records| == SETTLED + 1 && |kept| == SETTLED
    ensures first !in kept
  {
    assert |records.Keys| == SETTLED + 1;
    assert first in kept ==> {first} + kept == kept;
  }

  lemma KeptStatus(records: map<bytes, Record>, kept: set<bytes>, some: set<bytes>, first: bytes, status: SyncStatus)
    requires Bucket(records, HUMAN_REVIEW) == {first} + some && some <= kept && first !in kept
    requires |some| == SETTLED - 1 && |{first} + some| == SETTLED
    requires Bucket(records, PENDING) <= kept
    requires forall other | other != PENDING && other != HUMAN_REVIEW :: Bucket(records, other) == {}
    requires forall x | x in Bucket(records, HUMAN_REVIEW) :: first in records && x in records
               && records[first].createdUptimeMs <= records[x].createdUptimeMs
    ensures KeptOf(records, kept, DEFAULT_POLICY, status)
  {
    if status == HUMAN_REVIEW {
      assert Bucket(records, status) * kept == some;
      forall a, b | a in Bucket(records, status) && a in kept && b in Bucket(records, status) && b !in kept
        ensures records[b].createdUptimeMs <= records[a].createdUptimeMs
      {
        assert b == first;
      }
    } else if status != PENDING {
      assert Bucket(records, status) * kept == {};
    }
  }

  /** begin_compaction, in such a state. */
  lemma Begun(e: Env, a: System, s: System, keep: seq<bytes>) returns (s': System)
    requires Leads(e, a, s) && !s.active && TMP !in s.disk
    requires KeepList(s.kiosk.index.records, DEFAULT_POLICY, keep) && |keep| != |s.kiosk.index.records|
    ensures Leads(e, a, s')
    ensures s' == s.(active := true, keep := keep, next := 0, window := {}, start := s'.start, image := map[])
  {
    hide Leads;
    hide KeepList;
    hide Inv;
    var end := Journal(s).(active := true, keep := keep, next := 0);
    assert s.disk - {TMP} == s.disk;
    var step := BEGIN(DEFAULT_POLICY, true, end);
    assert BeginStep(Journal(s), DEFAULT_POLICY, true, end);
    hide BeginStep;
    s' := Next(e, s, step);
    Goes(e, a, s, step);
  }

  /** The whole rewrite in one tick. */
  lemma OneTick(j: JournalState) returns (end: JournalState)
    requires j.active && j.next == 0 && 0 < |j.keep| <= RECORDS_PER_TICK && TMP !in j.disk
    requires Distinct(j.keep) && (forall id <- j.keep :: id in j.index.records)
    requires Bounded(j.index) && j.index.used < U32_BOUND
    ensures TickStep(j, SWAPPED, end) && |TickLog(j)| < U32_BOUND
  {
    var bodies := KeptBodies(j.index.records, j.keep);
    OneChunk(j);
    KeptCount(j.index.records, j.keep);
    KeptLogLength(j.index.records, j.keep);
    assert KeptBytes(j.index.records, j.keep) <= j.index.used;
    hide *;
    AllStorable(bodies);
    RecoverLog(bodies);
    end := JournalState(OfView(LogFiles(Some(TickLog(j)), None)), Rebuilt(j.index, j.keep), false, [], 0);
    WholeTick(j, end);
  }

  lemma OneChunk(j: JournalState)
    requires j.next == 0 && 0 < |j.keep| <= RECORDS_PER_TICK && TMP !in j.disk && (forall id <- j.keep :: id in j.index.records)
    ensures Chunk(j) == j.keep && ChunkEnd(j.index.records, Chunk(j)) == |j.keep|
    ensures TickLog(j) == Log(KeptBodies(j.index.records, j.keep))
    ensures KeptBodies(j.index.records, j.keep) != [] ==> TMP in TempWritten(j.disk, KeptBodies(j.index.records, Chunk(j)))
  {
    assert Chunk(j) == j.keep;
    hide Chunk;
    FreshTemp(j.disk, KeptBodies(j.index.records, j.keep));
    hide KeptBodies;
    hide TempWritten;
    hide Log;
  }

  lemma WholeTick(j: JournalState, end: JournalState)
    requires j.active && j.next == 0 && 0 < |j.keep| <= RECORDS_PER_TICK
    requires ChunkEnd(j.index.records, Chunk(j)) == |j.keep| && |Recovered(TickLog(j))| >= |j.keep|
    requires TMP in TempWritten(j.disk, KeptBodies(j.index.records, Chunk(j)))
    requires end == JournalState(OfView(LogFiles(Some(TickLog(j)), None)), Rebuilt(j.index, j.keep), false, [], 0)
    ensures TickStep(j, SWAPPED, end)
  {
    hide TickLog;
    hide Chunk;
    hide ChunkEnd;
    hide KeptBodies;
    hide TempWritten;
    hide Recovered;
    hide Rebuilt;
  }

  lemma Swapped(e: Env, a: System, s: System, end: JournalState) returns (s': System)
    requires Leads(e, a, s) && s.next <= |s.keep| && TickStep(Journal(s), SWAPPED, end) && |TickLog(Journal(s))| < U32_BOUND
    ensures Leads(e, a, s') && s'.lost == s.lost + s.window && s'.created == s.created && s'.answered == s.answered
  {
    hide Leads;
    hide TickLog;
    hide TickStep;
    var step := TICK(SWAPPED, end);
    s' := Next(e, s, step);
    Goes(e, a, s, step);
  }

  /** A durable event is dropped. The journal holds more settled events than the policy keeps, a compaction begins, an
    * operator acts, and the compaction swaps: the event that was made durable in between is in memory no more, nor on
    * flash, though nobody has answered it. */
  lemma DroppedRun(e: Env, events: seq<ProtocolCodec.KioskEvent>) returns (s: System)
    requires Shift(e, events) && |events| == SETTLED + 2
    ensures Leads(e, Start(e), s)
    ensures var id := Rec(events, SETTLED + 1).eventId;
            id in s.created && id in Missing(s, s.kiosk.index.records) && id in Missing(s, OnFlash(s.disk))
  {
    var a := Start(e);
    var before := Waiting(e, events);
    WaitingKept(e, events);
    ShiftBlock(e, events);
    var id := Rec(events, SETTLED + 1).eventId;
    hide *;
    s := DroppedIn(e, events, before);
    Reached(e, s);
    InvParts(e, s);
    MissingNow(e, s);
    LostIsMissing(s, id);
  }

  lemma LostIsMissing(s: System, id: bytes)
    requires id in s.lost && id !in s.answered
    requires Missing(s, s.kiosk.index.records) == s.lost - s.answered && Missing(s, OnFlash(s.disk)) == s.lost + s.buried - s.answered
    ensures id in Missing(s, s.kiosk.index.records) && id in Missing(s, OnFlash(s.disk))
  {
    hide Missing;
    hide OnFlash;
  }

  /** The settled events, and one that waits in the queue. */
  ghost predicate WaitingState(e: Env, events: seq<ProtocolCodec.KioskEvent>, s: System)
    requires |events| == SETTLED + 2
  {
    && s.kiosk == BOOTED.(index := s.kiosk.index, worker := s.kiosk.worker) && |s.kiosk.worker.high| == 1
    && s.kiosk.index.records == WaitingIndex(events) && Bounded(s.kiosk.index)
    && s.kiosk.index.used + FrameSize(Rec(events, SETTLED + 1)) <= Volume(events, SETTLED + 2)
    && s.created.Keys == WaitingIndex(events).Keys && s.answered <= s.created.Keys && !s.active
    && Q.Safe(s.counter) && s.counter.current == SETTLED + 1
    && Ready(s.disk) && TMP !in s.disk && |LogBytes(s.disk)| == s.kiosk.index.used
  }

  lemma Waiting(e: Env, events: seq<ProtocolCodec.KioskEvent>) returns (s: System)
    requires Shift(e, events) && |events| == SETTLED + 2
    ensures Leads(e, Start(e), s) && WaitingState(e, events, s)
  {
    var s0 := SettleAll(e, events, SETTLED);
    s := WaitingFrom(e, events, s0);
    hide *;
  }

  lemma WaitingFrom(e: Env, events: seq<ProtocolCodec.KioskEvent>, s0: System) returns (s: System)
    requires Shift(e, events) && |events| == SETTLED + 2
    requires Leads(e, Start(e), s0) && Settled(e, events, SETTLED, s0)
    ensures Leads(e, Start(e), s) && WaitingState(e, events, s)
  {
    hide Leads;
    hide Made;
    hide Rec;
    hide Reviewed;
    hide Volume;
    hide FrameSize;
    hide Frame;
    hide EncodeEvent;
    hide EncodeTransition;
    hide Ready;
    hide LogBytes;
    hide Bounded;
    hide Q.Next;
    var r := Rec(events, SETTLED);
    assert events[SETTLED].eventType.SCAN? && Made(e, None, events[SETTLED], r) && r.deviceSeq == SETTLED + 1;
    hide Shift;
    NextFits(e, events, SETTLED);
    NextFits(e, events, SETTLED + 1);
    FreshId(e, events, SETTLED);
    NextNumber(e, s0.counter);
    FlashMore(s0.disk, EncodeEvent(r));
    EventAppendBounded(s0.kiosk.index, r);
    s := SendNext(e, Start(e), s0, events[SETTLED], r);
  }

  lemma DroppedIn(e: Env, events: seq<ProtocolCodec.KioskEvent>, before: System) returns (s: System)
    requires Shift(e, events) && |events| == SETTLED + 2
    requires Leads(e, Start(e), before) && WaitingState(e, events, before)
    requires KeepList(WaitingIndex(events), DEFAULT_POLICY, Ids(events, 1, SETTLED + 1)) && |WaitingIndex(events)| == SETTLED + 1
    ensures Leads(e, Start(e), s)
    ensures var id := Rec(events, SETTLED + 1).eventId; id in s.created && id in s.lost && id !in s.answered
  {
    var a, keep, r := Start(e), Ids(events, 1, SETTLED + 1), Rec(events, SETTLED + 1);
    DropFits(e, events, before);
    KeepWithin(WaitingIndex(events), keep);
    NextNumber(e, before.counter);
    EventAppendBounded(before.kiosk.index, r);
    hide Shift;
    hide Leads;
    hide Made;
    hide Rec;
    hide Ids;
    hide WaitingIndex;
    hide KeepList;
    hide Volume;
    hide FrameSize;
    hide Frame;
    hide EncodeEvent;
    hide Ready;
    hide LogBytes;
    hide Bounded;
    hide Q.Next;
    s := Begun(e, a, before, keep);
    s := SendNext(e, a, s, events[SETTLED + 1], r);
    var end := OneTick(Journal(s));
    hide TickStep;
    hide TickLog;
    s := Swapped(e, a, s, end);
  }

  lemma KeepWithin(records: map<bytes, Record>, keep: seq<bytes>)
    requires KeepList(records, DEFAULT_POLICY, keep)
    ensures Distinct(keep) && forall id <- keep :: id in records
  {
    hide KeptOf;
    assert forall id <- keep :: id in Elements(keep);
  }

  lemma DropFits(e: Env, events: seq<ProtocolCodec.KioskEvent>, s: System)
    requires Shift(e, events) && |events| == SETTLED + 2 && WaitingState(e, events, s)
    ensures var r := Rec(events, SETTLED + 1);
            && events[SETTLED + 1].eventType.SCAN? && Made(e, None, events[SETTLED + 1], r) && r.deviceSeq == SETTLED + 2
            && r.eventId !in s.created && r.eventId !in s.kiosk.index.records
            && s.kiosk.index.used + FrameSize(r) <= e.capacity && s.kiosk.index.used + FrameSize(r) < U32_BOUND
            && FrameSize(r) == |Frame(EncodeEvent(r))|
  {
    NextFits(e, events, SETTLED + 1);
    WaitingShape(e, events);
    IdsDiffer(e, events, SETTLED + 1);
    hide Made;
    hide Rec;
    hide WaitingIndex;
    hide Ids;
    hide Volume;
    hide FrameSize;
    hide Frame;
    hide EncodeEvent;
    hide Ready;
    hide LogBytes;
    hide Bounded;
  }
}
