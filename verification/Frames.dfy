/** The on-disk frame of the event journal, the scan of a log, and what the scan reports when the tail of the
  * log is torn or a committed frame is damaged. */
module Frames {
  import opened Bytes
  import opened Crc32

  const COMMIT_MARKER: byte := '\U{C3}'
  const FRAME_OVERHEAD := 9

  datatype Outcome = OK | INCOMPLETE | CRC_FAIL | BAD_COMMIT_MARKER

  /** What scan_journal hands to its callback, once per frame it meets. */
  datatype ScanFrame = ScanFrame(offset: nat, frameSize: nat, body: bytes, outcome: Outcome)

  /** The longest body: its size is a 32-bit size_t on the device. */
  ghost predicate Storable(body: bytes) {
    |body| < U32_BOUND
  }

  function Frame(body: bytes): (s: bytes)
    ensures |s| == |body| + FRAME_OVERHEAD
  {
    U32ToBytes(|body|) + body + U32ToBytes(Crc(body)) + [COMMIT_MARKER]
  }

  /** The log that holds exactly these bodies, one committed frame each. */
  function Log(bodies: seq<bytes>): (s: bytes) {
    if bodies == [] then [] else Frame(bodies[0]) + Log(bodies[1..])
  }

  datatype Head = CleanEnd | Damaged(outcome: Outcome) | Committed(body: bytes, size: nat)

  /** One round of the scan loop at the start of `s`. */
  function ReadHead(s: bytes): (h: Head)
    ensures h.Committed? ==> FRAME_OVERHEAD <= h.size <= |s| && |h.body| + FRAME_OVERHEAD == h.size
    ensures h.Damaged? ==> h.outcome != OK
  {
    if s == [] then CleanEnd
    else if |s| < 4 then Damaged(INCOMPLETE)
    else
      var n := BytesToU32(s[..4]);
      if |s| < 8 + n then Damaged(INCOMPLETE)
      else if BytesToU32(s[4 + n..8 + n]) != Crc(s[4..4 + n]) then Damaged(CRC_FAIL)
      else if |s| < 9 + n then Damaged(INCOMPLETE)
      else if s[8 + n] != COMMIT_MARKER then Damaged(BAD_COMMIT_MARKER)
      else Committed(s[4..4 + n], 9 + n)
  }

  function Scan(s: bytes, offset: nat): (frames: seq<ScanFrame>)
    decreases |s|
  {
    match ReadHead(s)
    case CleanEnd => []
    case Damaged(outcome) => [ScanFrame(offset, 0, [], outcome)]
    case Committed(body, size) => [ScanFrame(offset, size, body, OK)] + Scan(s[size..], offset + size)
  }

  /** The bodies a reboot recovers from a log: those of the frames reported OK. */
  function Recovered(s: bytes): (bodies: seq<bytes>)
    decreases |s|
  {
    match ReadHead(s)
    case CleanEnd => []
    case Damaged(_) => []
    case Committed(body, size) => [body] + Recovered(s[size..])
  }

  /** The report of an undamaged log: every body at its exact offset. */
  function Intact(bodies: seq<bytes>, offset: nat): (frames: seq<ScanFrame>)
    ensures |frames| == |bodies|
  {
    if bodies == [] then []
    else
      var size := |bodies[0]| + FRAME_OVERHEAD;
      [ScanFrame(offset, size, bodies[0], OK)] + Intact(bodies[1..], offset + size)
  }

  lemma ReadParts(len: bytes, body: bytes, crc: bytes, marker: byte, rest: bytes)
    requires |len| == 4 && BytesToU32(len) == |body| && |crc| == 4
    ensures ReadHead(len + body + crc + [marker] + rest) ==
            if BytesToU32(crc) != Crc(body) then Damaged(CRC_FAIL)
            else if marker != COMMIT_MARKER then Damaged(BAD_COMMIT_MARKER)
            else Committed(body, |body| + FRAME_OVERHEAD)
  {
    var s, n := len + body + crc + [marker] + rest, |body|;
    assert s[..4] == len && s[4..4 + n] == body && s[4 + n..8 + n] == crc && s[8 + n] == marker;
  }

  lemma ReadFrame(body: bytes, rest: bytes)
    requires Storable(body)
    ensures ReadHead(Frame(body) + rest) == Committed(body, |Frame(body)|)
  {
    U32RoundTrip(|body|);
    U32RoundTrip(Crc(body));
    ReadParts(U32ToBytes(|body|), body, U32ToBytes(Crc(body)), COMMIT_MARKER, rest);
  }

  lemma ReadNothing()
    ensures ReadHead([]) == CleanEnd
  {
  }

  /** A frame cut anywhere before its last byte is never taken for a committed one. */
  lemma ReadTorn(body: bytes, k: nat)
    requires Storable(body) && k < |Frame(body)|
    ensures ReadHead(Frame(body)[..k]) == if k == 0 then CleanEnd else Damaged(INCOMPLETE)
  {
    var s, n := Frame(body)[..k], |body|;
    if k >= 4 {
      U32RoundTrip(n);
      assert s[..4] == U32ToBytes(n);
    }
    if k == 8 + n {
      U32RoundTrip(Crc(body));
      assert s[4..4 + n] == body && s[4 + n..8 + n] == U32ToBytes(Crc(body));
    }
  }

  lemma ScanStep(body: bytes, more: bytes, offset: nat)
    requires Storable(body)
    ensures var f := Frame(body);
            && Scan(f + more, offset) == [ScanFrame(offset, |f|, body, OK)] + Scan(more, offset + |f|)
            && Recovered(f + more) == [body] + Recovered(more)
  {
    hide Frame;
    hide ReadHead;
    ReadFrame(body, more);
    assert (Frame(body) + more)[|Frame(body)|..] == more;
  }

  lemma Regroup<T>(a: seq<T>, b: seq<T>, c: seq<T>)
    ensures a + b + c == a + (b + c)
  {
  }

  lemma {:induction false} ScanLog(bodies: seq<bytes>, tail: bytes, offset: nat)
    requires forall b <- bodies :: Storable(b)
    ensures Scan(Log(bodies) + tail, offset) == Intact(bodies, offset) + Scan(tail, offset + |Log(bodies)|)
    ensures Recovered(Log(bodies) + tail) == bodies + Recovered(tail)
    decreases |bodies|
  {
    hide *;
    if bodies == [] {
      NoLog(offset);
      assert [] + tail == tail;
    } else {
      FirstOfLog(bodies, offset);
      assert Storable(bodies[0]) && forall b <- bodies[1..] :: Storable(b);
      var f, log := Frame(bodies[0]), Log(bodies[1..]);
      ScanStep(bodies[0], log + tail, offset);
      ScanLog(bodies[1..], tail, offset + |f|);
      Regroup(f, log, tail);
      Joined(Scan(f + (log + tail), offset), ScanFrame(offset, |f|, bodies[0], OK), Scan(log + tail, offset + |f|),
             Intact(bodies[1..], offset + |f|), Scan(tail, offset + |f| + |log|));
      Joined(Recovered(f + (log + tail)), bodies[0], Recovered(log + tail), bodies[1..], Recovered(tail));
    }
  }

  lemma NoLog(offset: nat)
    ensures Log([]) == [] && Intact([], offset) == []
  {
  }

  lemma FirstOfLog(bodies: seq<bytes>, offset: nat)
    requires bodies != []
    ensures Log(bodies) == Frame(bodies[0]) + Log(bodies[1..]) && |Log(bodies)| == |Frame(bodies[0])| + |Log(bodies[1..])|
    ensures Intact(bodies, offset) ==
            [ScanFrame(offset, |Frame(bodies[0])|, bodies[0], OK)] + Intact(bodies[1..], offset + |Frame(bodies[0])|)
    ensures bodies == [bodies[0]] + bodies[1..]
  {
    hide Frame;
  }

  lemma Joined<T>(whole: seq<T>, first: T, more: seq<T>, others: seq<T>, rest: seq<T>)
    requires whole == [first] + more && more == others + rest
    ensures whole == [first] + others + rest
  {
  }

  lemma {:induction false} LogAppend(front: seq<bytes>, back: seq<bytes>)
    ensures Log(front + back) == Log(front) + Log(back)
    decreases |front|
  {
    hide Frame;
    if front == [] {
      assert front + back == back;
    } else {
      assert (front + back)[1..] == front[1..] + back;
      LogAppend(front[1..], back);
    }
  }

  lemma LogOne(body: bytes)
    ensures Log([body]) == Frame(body)
  {
    assert [body][1..] == [];
  }

  /** What follows the intact frames ends the scan when it does not start with a committed frame. */
  lemma ScanStops(bodies: seq<bytes>, tail: bytes)
    requires forall b <- bodies :: Storable(b)
    requires !ReadHead(tail).Committed?
    ensures Scan(Log(bodies) + tail, 0) == Intact(bodies, 0) +
            (if ReadHead(tail).CleanEnd? then [] else [ScanFrame(|Log(bodies)|, 0, [], ReadHead(tail).outcome)])
    ensures Recovered(Log(bodies) + tail) == bodies
  {
    hide ReadHead;
    ScanLog(bodies, tail, 0);
    hide Log;
    hide Intact;
    assert bodies + [] == bodies;
  }

  /** Reading back a whole log gives its bodies. */
  lemma RecoverLog(bodies: seq<bytes>)
    requires forall b <- bodies :: Storable(b)
    ensures Recovered(Log(bodies)) == bodies
    ensures Scan(Log(bodies), 0) == Intact(bodies, 0)
  {
    ReadNothing();
    hide ReadHead;
    hide Scan;
    hide Recovered;
    ScanStops(bodies, []);
    hide Log;
    hide Intact;
    assert Log(bodies) + [] == Log(bodies);
    assert Intact(bodies, 0) + [] == Intact(bodies, 0);
  }

  /** A crash after `k` bytes of one appended frame: the old frames at their exact offsets and at most one
    * INCOMPLETE report; a completed append adds exactly one frame. */
  lemma TornAppend(bodies: seq<bytes>, body: bytes, k: nat)
    requires forall b <- bodies :: Storable(b)
    requires Storable(body) && k <= |Frame(body)|
    ensures var log, tail := Log(bodies), Frame(body)[..k];
            && Recovered(log + tail) == (if k == |Frame(body)| then bodies + [body] else bodies)
            && Scan(log + tail, 0) ==
               if k == 0 then Intact(bodies, 0)
               else if k == |Frame(body)| then Intact(bodies, 0) + [ScanFrame(|log|, k, body, OK)]
               else Intact(bodies, 0) + [ScanFrame(|log|, 0, [], INCOMPLETE)]
  {
    var tail := Frame(body)[..k];
    if k == |Frame(body)| {
      assert tail == Frame(body);
      hide *;
      WholeAppended(bodies, body);
    } else {
      ReadTorn(body, k);
      hide *;
      ScanStops(bodies, tail);
      assert Intact(bodies, 0) + [] == Intact(bodies, 0);
    }
  }

  lemma WholeAppended(bodies: seq<bytes>, body: bytes)
    requires (forall b <- bodies :: Storable(b)) && Storable(body)
    ensures Recovered(Log(bodies) + Frame(body)) == bodies + [body]
    ensures Scan(Log(bodies) + Frame(body), 0) == Intact(bodies, 0) + [ScanFrame(|Log(bodies)|, |Frame(body)|, body, OK)]
  {
    hide *;
    ScanLog(bodies, Frame(body), 0);
    ScanOne(body, |Log(bodies)|);
  }

  lemma ScanOne(body: bytes, offset: nat)
    requires Storable(body)
    ensures Recovered(Frame(body)) == [body]
    ensures Scan(Frame(body), offset) == [ScanFrame(offset, |Frame(body)|, body, OK)]
  {
    ReadNothing();
    hide Frame;
    hide ReadHead;
    var f := Frame(body);
    ScanStep(body, [], offset);
    assert f + [] == f;
    assert Recovered([]) == [] && Scan([], offset + |f|) == [];
  }

  /** The bytes of a committed frame whose body, CRC or marker were overwritten. */
  function Overwritten(size: nat, body: bytes, crc: bytes, marker: byte): bytes {
    U32ToBytes(size) + body + crc + [marker]
  }

  /** A frame damaged in place stops the scan: the frames before it are delivered, the damage is reported
    * once at its offset, and nothing after it is delivered. */
  lemma DamageStopsScan(bodies: seq<bytes>, size: nat, body: bytes, crc: bytes, marker: byte, rest: bytes)
    requires forall b <- bodies :: Storable(b)
    requires Storable(body) && size == |body| && |crc| == 4
    requires BytesToU32(crc) != Crc(body) || marker != COMMIT_MARKER
    ensures var report := if BytesToU32(crc) != Crc(body) then CRC_FAIL else BAD_COMMIT_MARKER;
            && Scan(Log(bodies) + (Overwritten(size, body, crc, marker) + rest), 0) ==
               Intact(bodies, 0) + [ScanFrame(|Log(bodies)|, 0, [], report)]
            && Recovered(Log(bodies) + (Overwritten(size, body, crc, marker) + rest)) == bodies
  {
    U32RoundTrip(size);
    ReadParts(U32ToBytes(size), body, crc, marker, rest);
    ScanStops(bodies, Overwritten(size, body, crc, marker) + rest);
  }

  /** Overwriting up to four adjacent bytes of a committed body is always caught by its CRC. */
  lemma BodyBurstCaught(bodies: seq<bytes>, before: bytes, window: bytes, changed: bytes, after: bytes, rest: bytes)
    requires forall b <- bodies :: Storable(b)
    requires |window| == |changed| <= 4 && window != changed
    requires Storable(before + window + after)
    ensures var body, body' := before + window + after, before + changed + after;
            var s := Log(bodies) + (Overwritten(|body|, body', U32ToBytes(Crc(body)), COMMIT_MARKER) + rest);
            && Scan(s, 0) == Intact(bodies, 0) + [ScanFrame(|Log(bodies)|, 0, [], CRC_FAIL)]
            && Recovered(s) == bodies
  {
    hide Crc;
    var body, body' := before + window + after, before + changed + after;
    BurstDetected(before, window, changed, after);
    U32RoundTrip(Crc(body));
    DamageStopsScan(bodies, |body|, body', U32ToBytes(Crc(body)), COMMIT_MARKER, rest);
  }

  /** Overwriting the stored CRC or the marker byte of a committed frame is caught as well. */
  lemma TrailerDamageCaught(bodies: seq<bytes>, body: bytes, crc: bytes, marker: byte, rest: bytes)
    requires forall b <- bodies :: Storable(b)
    requires Storable(body) && |crc| == 4
    requires crc != U32ToBytes(Crc(body)) || marker != COMMIT_MARKER
    ensures var report := if crc != U32ToBytes(Crc(body)) then CRC_FAIL else BAD_COMMIT_MARKER;
            var s := Log(bodies) + (Overwritten(|body|, body, crc, marker) + rest);
            && Scan(s, 0) == Intact(bodies, 0) + [ScanFrame(|Log(bodies)|, 0, [], report)]
            && Recovered(s) == bodies
  {
    hide Crc;
    U32RoundTrip(Crc(body));
    if BytesToU32(crc) == Crc(body) {
      U32Injective(crc, U32ToBytes(Crc(body)));
    }
    DamageStopsScan(bodies, |body|, body, crc, marker, rest);
  }
}
