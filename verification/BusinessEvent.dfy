/** What send_business_event makes of an operator's action: the event, its body, and the journal record that carries it.
  * Whatever was scanned, the record survives the journal and its body fits the queue slot. */
module BusinessEvent {
  import opened Bytes
  import opened Crc32
  import opened Json
  import opened JournalRecord
  import opened ProtocolCodec
  import N = NetworkWorker
  import R = BodyReader
  import S = MockBackend
  import P = StateProjection

  /** Who sends, what the clock says, and what the operator did. */
  datatype Device = Device(deviceId: bytes, hardwareId: bytes, bootId: bytes)
  datatype Clock = Clock(uptimeMs: u32, status: TimeSyncStatus, ageS: u32, iso: bytes)
  datatype Action = Action(eventType: EventType, raw: bytes, good: Option<i32>, defect: Option<i32>, rework: Option<i32>)

  const HEX: bytes := "0123456789abcdef"
  const ID_BYTES := 16
  const BOOT_ID_BYTES := 8

  function HexByte(b: byte): (s: bytes) {
    [HEX[b as int / 16], HEX[b as int % 16]]
  }

  function HexOf(draws: seq<byte>): (s: bytes) {
    if draws == [] then [] else HexByte(draws[0]) + HexOf(draws[1..])
  }

  /** generate_random_hex_id, from the bytes drawn. */
  method GenerateRandomHexId(draws: seq<byte>) returns (id: bytes)
    ensures id == HexOf(draws)
  {
    id := [];
    for i := 0 to |draws|
      invariant id + HexOf(draws[i..]) == HexOf(draws)
    {
      assert draws[i..][1..] == draws[i + 1..];
      id := id + [HEX[draws[i] as int / 16]] + [HEX[draws[i] as int % 16]];
    }
  }

  /** The %08x conversion. */
  function HexWord(n: u32): (s: bytes) {
    HexByte(ToByte(n / 16777216)) + HexByte(ToByte(n / 65536 % 256)) + HexByte(ToByte(n / 256 % 256)) + HexByte(ToByte(n % 256))
  }

  predicate Plain(s: bytes) {
    forall c <- s :: c as int >= 0x20
  }

  lemma PlainJoin(a: bytes, b: bytes)
    requires Plain(a) && Plain(b)
    ensures Plain(a + b)
  {
  }

  lemma PlainHexByte(b: byte)
    ensures Plain(HexByte(b))
  {
    assert forall c <- HEX :: c as int >= 0x20;
    assert HEX[b as int / 16] in HEX && HEX[b as int % 16] in HEX;
  }

  predicate LowerHex(s: bytes) {
    forall c <- s :: '0' <= c <= '9' || 'a' <= c <= 'f'
  }

  lemma HexByteLower(b: byte)
    ensures LowerHex(HexByte(b))
  {
    assert LowerHex(HEX);
    assert HEX[b as int / 16] in HEX && HEX[b as int % 16] in HEX;
  }

  /** Two lower-case hexadecimal digits a byte. */
  lemma {:induction false} HexShape(draws: seq<byte>)
    ensures |HexOf(draws)| == 2 * |draws| && Plain(HexOf(draws)) && LowerHex(HexOf(draws))
    decreases |draws|
  {
    if draws != [] {
      HexShape(draws[1..]);
      HexByteLower(draws[0]);
      PlainHexByte(draws[0]);
      PlainJoin(HexByte(draws[0]), HexOf(draws[1..]));
    }
  }

  /** Different draws give different ids. */
  lemma {:induction false} HexTellsApart(a: seq<byte>, b: seq<byte>)
    requires |a| == |b|
    ensures HexOf(a) == HexOf(b) <==> a == b
    decreases |a|
  {
    if a != [] {
      HexTellsApart(a[1..], b[1..]);
      HexByteTellsApart(a[0], b[0]);
      assert HexOf(a)[..2] == HexByte(a[0]) && HexOf(a)[2..] == HexOf(a[1..]);
      assert HexOf(b)[..2] == HexByte(b[0]) && HexOf(b)[2..] == HexOf(b[1..]);
      assert a == [a[0]] + a[1..] && b == [b[0]] + b[1..];
    }
  }

  lemma HexByteTellsApart(a: byte, b: byte)
    ensures HexByte(a) == HexByte(b) <==> a == b
  {
    HexDigitTellsApart(a as int / 16, b as int / 16);
    HexDigitTellsApart(a as int % 16, b as int % 16);
    assert HexByte(a)[0] == HEX[a as int / 16] && HexByte(a)[1] == HEX[a as int % 16];
    assert HexByte(b)[0] == HEX[b as int / 16] && HexByte(b)[1] == HEX[b as int % 16];
  }

  lemma HexDigitTellsApart(a: nat, b: nat)
    requires a < 16 && b < 16
    ensures HEX[a] == HEX[b] <==> a == b
    ensures R.HexValue(HEX[a]) == Some(a)
  {
  }

  /** The number that eight hexadecimal digits stand for. */
  function HexNumber(s: bytes): (n: Option<nat>) {
    if s == [] then Some(0)
    else
      var front, last := HexNumber(s[..|s| - 1]), R.HexValue(s[|s| - 1]);
      if front.None? || last.None? then None else Some(16 * front.value + last.value)
  }

  lemma HexNumberStep(s: bytes, n: nat, b: byte)
    requires HexNumber(s) == Some(n)
    ensures HexNumber(s + HexByte(b)) == Some(256 * n + b as int)
  {
    HexDigitTellsApart(b as int / 16, b as int % 16);
    HexDigitTellsApart(b as int % 16, b as int / 16);
    var one := s + [HEX[b as int / 16]];
    assert one[..|one| - 1] == s;
    var two := one + [HEX[b as int % 16]];
    assert two[..|two| - 1] == one && two == s + HexByte(b);
  }

  lemma Quarters(n: u32)
    ensures n / 16777216 < 256
    ensures 256 * (n / 16777216) + n / 65536 % 256 == n / 65536
    ensures 256 * (n / 65536) + n / 256 % 256 == n / 256
    ensures 256 * (n / 256) + n % 256 == n
  {
    assert n / 65536 / 256 == n / 16777216;
    assert n / 256 / 256 == n / 65536;
  }

  lemma TwoBytes(a: byte, b: byte)
    ensures HexNumber(HexByte(a) + HexByte(b)) == Some(256 * (a as int) + b as int)
  {
    var none: bytes := [];
    assert HexNumber(none) == Some(0) && none + HexByte(a) == HexByte(a);
    HexNumberStep(none, 0, a);
    hide *;
    HexNumberStep(HexByte(a), a as int, b);
  }

  lemma FourBytes(a: byte, b: byte, c: byte, d: byte)
    ensures HexNumber(HexByte(a) + HexByte(b) + HexByte(c) + HexByte(d)) ==
            Some(256 * (256 * (256 * (a as int) + b as int) + c as int) + d as int)
  {
    hide *;
    TwoBytes(a, b);
    var front := HexByte(a) + HexByte(b);
    HexNumberStep(front, 256 * (a as int) + b as int, c);
    HexNumberStep(front + HexByte(c), 256 * (256 * (a as int) + b as int) + c as int, d);
  }

  /** The eight digits stand for the word they were printed from. */
  lemma HexWordReads(n: u32)
    ensures HexNumber(HexWord(n)) == Some(n)
  {
    Quarters(n);
    hide HexByte;
    hide HexNumber;
    FourBytes(ToByte(n / 16777216), ToByte(n / 65536 % 256), ToByte(n / 256 % 256), ToByte(n % 256));
  }

  lemma HexWordShape(n: u32)
    ensures |HexWord(n)| == 8 && Plain(HexWord(n))
  {
    var a, b, c, d := ToByte(n / 16777216), ToByte(n / 65536 % 256), ToByte(n / 256 % 256), ToByte(n % 256);
    PlainHexByte(a);
    PlainHexByte(b);
    PlainHexByte(c);
    PlainHexByte(d);
    hide HexByte;
    PlainJoin(HexByte(a), HexByte(b));
    PlainJoin(HexByte(a) + HexByte(b), HexByte(c));
    PlainJoin(HexByte(a) + HexByte(b) + HexByte(c), HexByte(d));
  }

  /** The version the device claims to act on: that of the projection, or 0. */
  function Claimed(projection: Option<P.Snapshot>): (version: nat) {
    if projection.Some? then projection.value.version else 0
  }

  /** The event of an action: id and sequence number are drawn once and kept for every resend. */
  function ComposedEvent(dev: Device, clock: Clock, action: Action, draws: seq<byte>, seqNo: u64, version: u64,
                         workflow: u32): (e: KioskEvent)
  {
    KioskEvent(1, dev.deviceId, dev.hardwareId, dev.bootId, HexOf(draws), seqNo, action.eventType,
               clock.iso, clock.uptimeMs, clock.status, clock.ageS, version, workflow, 0,
               if action.eventType == SCAN then "GM65" else "KEYPAD", action.raw,
               action.good, action.defect, action.rework)
  }

  /** The journal record of an event, pending. */
  function RecordOf(e: KioskEvent): (r: Record) {
    Record(1, e.eventId, e.deviceSeq, e.bootId, TypeName(e.eventType), EncodeBody(e), HexWord(Crc(EncodeBody(e))),
           e.expectedStateVersion, e.uptimeMs % U32_BOUND, SyncName(e.syncStatus), 0, 0, [], PENDING)
  }

  /** The part of send_business_event that fills the record in. */
  method ComposeRecord(e: KioskEvent) returns (r: Record)
    ensures r == RecordOf(e)
  {
    hide EncodeBody;
    hide Crc;
    hide HexWord;
    var body := EncodeEventJson(e);
    var crc := ComputeCrc(body);
    r := Record(1, e.eventId, e.deviceSeq, e.bootId, TypeName(e.eventType), body, HexWord(crc),
                e.expectedStateVersion, e.uptimeMs % U32_BOUND, SyncName(e.syncStatus), 0, 0, [], PENDING);
  }

  /** An event within the limits of the device: a scan line, ids and names of bounded length, counters below 2^63. */
  ghost predicate Bounded(e: KioskEvent) {
    && |e.raw| <= 128
    && |e.deviceId| + |e.hardwareId| + |e.bootId| + |e.eventId| + |e.timestamp| + |e.source| <= 203
    && e.eventId != [] && |e.eventId| < N.MAX_EVENT_ID_BYTES && Clean(e.eventId) && Clean(e.bootId)
    && e.deviceSeq <= INT64_MAX && e.expectedStateVersion <= INT64_MAX
  }

  /** What the device composes is within its limits: names of up to 124 bytes, a scan line, an ISO time. */
  lemma ComposedIsBounded(dev: Device, clock: Clock, action: Action, draws: seq<byte>, bootDraws: seq<byte>,
                          seqNo: u64, version: u64, workflow: u32)
    requires |draws| == ID_BYTES && |bootDraws| == BOOT_ID_BYTES && dev.bootId == HexOf(bootDraws)
    requires |dev.deviceId| + |dev.hardwareId| <= 124 && |clock.iso| <= 25 && |action.raw| <= 128
    requires seqNo <= INT64_MAX && version <= INT64_MAX
    ensures Bounded(ComposedEvent(dev, clock, action, draws, seqNo, version, workflow))
  {
    HexShape(draws);
    HexShape(bootDraws);
    hide HexOf;
  }

  /** Every record the device makes of such an event survives its encoding in the journal, field by field, and its id and
    * body are copied into a queue slot whole. */
  lemma RecordIsSound(e: KioskEvent)
    requires Bounded(e)
    ensures var r := RecordOf(e);
            && r.syncStatus == PENDING && Encodable(r)
            && |r.eventId| < N.MAX_EVENT_ID_BYTES && |r.payload| < N.MAX_BODY_BYTES
            && r.eventId == e.eventId && r.deviceSeq == e.deviceSeq
  {
    BodyFits(e);
    var body := EncodeBody(e);
    assert Clean(body) && |body| < N.MAX_BODY_BYTES;
    NamesClean(e);
    hide EncodeBody;
    HexWordShape(Crc(body));
    hide Crc;
    hide HexWord;
  }

  lemma NamesClean(e: KioskEvent)
    ensures Clean(TypeName(e.eventType)) && TypeName(e.eventType) != [] && Clean(SyncName(e.syncStatus))
  {
    TypeNameClean(e.eventType);
    SyncNameClean(e.syncStatus);
    hide *;
  }

  lemma TypeNameClean(t: EventType)
    ensures Clean(TypeName(t)) && TypeName(t) != []
  {
    match t {
      case SCAN =>
      case FINISH_REQUESTED =>
      case QUANTITY_SUBMITTED =>
      case CANCEL_REQUESTED =>
    }
  }

  lemma SyncNameClean(s: TimeSyncStatus)
    ensures Clean(SyncName(s))
  {
    match s {
      case UNSYNCED =>
      case SYNCING =>
      case SYNCED =>
      case STALE =>
      case FAILED =>
    }
  }

  /** So it is read back after any reboot as the very record that was made, and sent as the very body. */
  lemma RecordReadsBack(e: KioskEvent)
    requires Bounded(e)
    ensures DecodeEvent(EncodeEvent(RecordOf(e))) == Some(RecordOf(e))
    ensures N.EventRequest(N.OFFLINE_REPLAY, e.eventId, e.deviceSeq, RecordOf(e).payload) ==
            N.NetworkRequest(N.OFFLINE_REPLAY, e.eventId, e.deviceSeq, EncodeBody(e))
  {
    WholeInSlot(e);
    RecordIsSound(e);
    hide *;
    EventRoundTrip(RecordOf(e));
  }

  lemma WholeInSlot(e: KioskEvent)
    requires Bounded(e)
    ensures N.EventRequest(N.OFFLINE_REPLAY, e.eventId, e.deviceSeq, RecordOf(e).payload) ==
            N.NetworkRequest(N.OFFLINE_REPLAY, e.eventId, e.deviceSeq, EncodeBody(e))
  {
    RecordIsSound(e);
    assert '\0' !in e.eventId;
    hide EncodeBody;
    hide HexWord;
    hide Crc;
    hide Bounded;
    hide N.EventRequest;
    N.WholeSlot(N.OFFLINE_REPLAY, e.eventId, e.deviceSeq, RecordOf(e).payload);
  }

  // --- What arrives ---

  /** The request that an event stands for. */
  function RequestMeant(e: KioskEvent): (r: S.Request) {
    S.Request(R.SenderOf(e), e.eventId, R.Meant(e), e.quantityGood, Some(e.expectedStateVersion), EncodeBody(e))
  }

  /** The handler makes of the record's payload the request that the event stands for. */
  lemma RecordIsRead(e: KioskEvent)
    ensures R.RequestOf(RecordOf(e).payload) == RequestMeant(e)
  {
    R.RequestIsMeant(e);
    hide R.RequestOf;
    hide EncodeBody;
    hide Crc;
    hide HexWord;
  }

  /** The record of an event under its own id and number, pending, with the checksum of its body in hexadecimal. */
  lemma RecordTells(e: KioskEvent)
    ensures var r := RecordOf(e);
            && r.version == 1 && r.eventId == e.eventId && r.deviceSeq == e.deviceSeq && r.bootId == e.bootId
            && R.EventNamed(R.Str(r.eventType), e.raw) == R.Meant(e) && R.StatusNamed(R.Str(r.timeSyncStatus)) == Some(e.syncStatus)
            && HexNumber(r.payloadHash) == Some(Crc(r.payload)) && r.expectedStateVersion == e.expectedStateVersion
            && r.createdUptimeMs == e.uptimeMs % 0x1_0000_0000 && r.syncStatus == PENDING
            && r.retryCount == 0 && r.lastAttemptUptimeMs == 0 && r.lastErrorCode == []
  {
    HexWordReads(Crc(EncodeBody(e)));
    NamesRead(e);
    hide R.EventNamed;
    hide R.StatusNamed;
    hide R.Meant;
    hide TypeName;
    hide SyncName;
    hide Crc;
    hide HexWord;
    hide EncodeBody;
    hide HexNumber;
  }

  lemma NamesRead(e: KioskEvent)
    ensures R.EventNamed(R.Str(TypeName(e.eventType)), e.raw) == R.Meant(e)
    ensures R.StatusNamed(R.Str(SyncName(e.syncStatus))) == Some(e.syncStatus)
  {
  }

  /** From the key press or the scan to the server: an action is journaled, and however often it is sent, read by the server,
    * as what the operator did, on this device, at that time, on the state then shown. */
  lemma ActionArrives(dev: Device, clock: Clock, action: Action, draws: seq<byte>, seqNo: u64, version: u64, workflow: u32)
    requires dev.deviceId != []
    ensures var body := RecordOf(ComposedEvent(dev, clock, action, draws, seqNo, version, workflow)).payload;
            var trusted := clock.status == SYNCED || clock.status == STALE;
            R.Read(body) == Some(R.Reading(
              Some(1), dev.deviceId, Some(dev.hardwareId), Some(dev.bootId), Some(HexOf(draws)), Some(seqNo),
              (match action.eventType
               case SCAN => S.SCAN(action.raw)
               case FINISH_REQUESTED => S.FINISH_REQUESTED
               case QUANTITY_SUBMITTED => S.QUANTITY_SUBMITTED
               case CANCEL_REQUESTED => S.CANCEL_REQUESTED),
              if trusted then Some(clock.iso) else None, Some(clock.uptimeMs), Some(clock.status), Some(clock.ageS),
              Some(version), Some(workflow), Some(0), Some(if action.eventType.SCAN? then "GM65" else "KEYPAD"),
              action.good, action.defect, action.rework))
  {
    R.BodyIsRead(ComposedEvent(dev, clock, action, draws, seqNo, version, workflow));
    hide R.Read;
    hide EncodeBody;
    hide Crc;
    hide HexWord;
    hide HexOf;
  }
}
