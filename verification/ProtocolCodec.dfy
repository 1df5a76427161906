/** The event body as it goes to the server. It is printed once, journaled, and sent again as printed: what is
  * proved here is that it survives the journal unchanged and fits the queue slot whole. */
module ProtocolCodec {
  import opened Bytes
  import opened Json
  import opened JournalRecord
  import NetworkWorker

  datatype EventType = SCAN | FINISH_REQUESTED | QUANTITY_SUBMITTED | CANCEL_REQUESTED
  datatype TimeSyncStatus = UNSYNCED | SYNCING | SYNCED | STALE | FAILED

  type i32 = n: int | -0x8000_0000 <= n < 0x8000_0000

  datatype KioskEvent = KioskEvent(
    protocolVersion: u32, deviceId: bytes, hardwareId: bytes, bootId: bytes, eventId: bytes, deviceSeq: u64, eventType: EventType,
    timestamp: bytes, uptimeMs: u64, syncStatus: TimeSyncStatus, syncAgeS: u32, expectedStateVersion: u64, workflowVersion: u32,
    uiBundleVersion: u32, source: bytes, raw: bytes,
    quantityGood: Option<i32>, quantityDefect: Option<i32>, quantityRework: Option<i32>)

  function TypeName(t: EventType): (name: bytes) {
    match t
    case SCAN => "SCAN"
    case FINISH_REQUESTED => "FINISH_REQUESTED"
    case QUANTITY_SUBMITTED => "QUANTITY_SUBMITTED"
    case CANCEL_REQUESTED => "CANCEL_REQUESTED"
  }

  function SyncName(s: TimeSyncStatus): (name: bytes) {
    match s
    case UNSYNCED => "UNSYNCED"
    case SYNCING => "SYNCING"
    case SYNCED => "SYNCED"
    case STALE => "STALE"
    case FAILED => "FAILED"
  }

  /** The %d conversion. */
  function Signed(n: int): (s: bytes) {
    if n < 0 then ['-'] + Decimal(-n) else Decimal(n)
  }

  function Quoted(s: bytes): (q: bytes) {
    [QUOTE] + s + [QUOTE]
  }

  function Member(name: bytes, text: bytes): (m: bytes) {
    Needle(name) + text
  }

  function TextMember(name: bytes, s: bytes): (m: bytes) {
    Member(name, Quoted(Escape(s)))
  }

  /** The members after the first, each behind its comma, and the closing brace. */
  function Rest(members: seq<bytes>): (s: bytes) {
    if members == [] then ['}'] else [','] + members[0] + Rest(members[1..])
  }

  function Object(members: seq<bytes>): (s: bytes)
    requires members != []
  {
    ['{'] + members[0] + Rest(members[1..])
  }

  function Optional(name: bytes, q: Option<i32>): (members: seq<bytes>) {
    match q case None => [] case Some(n) => [Member(name, Signed(n))]
  }

  function DeviceObject(e: KioskEvent): (s: bytes) {
    Object([TextMember("device_id", e.deviceId), TextMember("hardware_id", e.hardwareId), TextMember("boot_id", e.bootId)])
  }

  function EventObject(e: KioskEvent): (s: bytes) {
    Object([TextMember("event_id", e.eventId), Member("device_seq", Decimal(e.deviceSeq)),
            Member("type", Quoted(TypeName(e.eventType)))])
  }

  /** No timestamp is made up while the clock is not trusted. */
  function TimestampText(e: KioskEvent): (s: bytes) {
    if e.syncStatus == SYNCED || e.syncStatus == STALE then Quoted(Escape(e.timestamp)) else "null"
  }

  function TimeObject(e: KioskEvent): (s: bytes) {
    Object([Member("timestamp_device", TimestampText(e)), Member("uptime_ms", Decimal(e.uptimeMs)),
            Member("sync_status", Quoted(SyncName(e.syncStatus))), Member("sync_age_s", Decimal(e.syncAgeS))])
  }

  function ContextObject(e: KioskEvent): (s: bytes) {
    Object([Member("expected_state_version", Decimal(e.expectedStateVersion)),
            Member("workflow_version", Decimal(e.workflowVersion)), Member("ui_bundle_version", Decimal(e.uiBundleVersion))])
  }

  function Quantities(e: KioskEvent): (members: seq<bytes>) {
    Optional("quantity_good", e.quantityGood) + Optional("quantity_defect", e.quantityDefect)
    + Optional("quantity_rework", e.quantityRework)
  }

  function PayloadObject(e: KioskEvent): (s: bytes) {
    Object([TextMember("source", e.source), TextMember("raw", e.raw)] + Quantities(e))
  }

  function EncodeBody(e: KioskEvent): (s: bytes) {
    Object([Member("protocol_version", Decimal(e.protocolVersion)), Member("device", DeviceObject(e)),
            Member("event", EventObject(e)), Member("time", TimeObject(e)), Member("context", ContextObject(e)),
            Member("payload", PayloadObject(e))])
  }

  // --- Sizes and bytes ---

  /** Printable and no longer than `n`. */
  ghost predicate Fits(s: bytes, n: nat) {
    |s| <= n && forall c <- s :: c as int >= 0x20
  }

  lemma FitsJoin(a: bytes, m: nat, b: bytes, n: nat)
    requires Fits(a, m) && Fits(b, n)
    ensures Fits(a + b, m + n)
  {
  }

  lemma NeedleFits(name: bytes)
    requires IsKey(name)
    ensures Fits(Needle(name), |name| + 3)
  {
    FitsJoin([QUOTE], 1, name, |name|);
    FitsJoin([QUOTE] + name, |name| + 1, [QUOTE, ':'], 2);
  }

  lemma MemberFits(name: bytes, text: bytes, n: nat)
    requires IsKey(name) && Fits(text, n)
    ensures Fits(Member(name, text), |name| + 3 + n)
  {
    hide Needle;
    NeedleFits(name);
    FitsJoin(Needle(name), |name| + 3, text, n);
  }

  lemma QuotedFits(s: bytes, n: nat)
    requires Fits(s, n)
    ensures Fits(Quoted(s), n + 2)
  {
    FitsJoin([QUOTE], 1, s, n);
    FitsJoin([QUOTE] + s, n + 1, [QUOTE], 1);
  }

  /** An escaped string holds no control byte and is at most six times as long. */
  lemma TextMemberFits(name: bytes, s: bytes)
    requires IsKey(name)
    ensures Fits(TextMember(name, s), |name| + 5 + 6 * |s|)
  {
    EscapeHidesQuotes(s);
    hide Escape;
    hide Quoted;
    QuotedFits(Escape(s), 6 * |s|);
    MemberFits(name, Quoted(Escape(s)), 6 * |s| + 2);
  }

  function Total(bounds: seq<nat>): (n: nat) {
    if bounds == [] then 0 else bounds[0] + 1 + Total(bounds[1..])
  }

  lemma {:induction false} RestFits(members: seq<bytes>, bounds: seq<nat>)
    requires |members| == |bounds| && forall i | 0 <= i < |members| :: Fits(members[i], bounds[i])
    ensures Fits(Rest(members), 1 + Total(bounds))
    decreases |members|
  {
    if members != [] {
      RestFits(members[1..], bounds[1..]);
      FitsJoin([','], 1, members[0], bounds[0]);
      FitsJoin([','] + members[0], 1 + bounds[0], Rest(members[1..]), 1 + Total(bounds[1..]));
    }
  }

  lemma ObjectFits(members: seq<bytes>, bounds: seq<nat>)
    requires members != [] && |members| == |bounds| && forall i | 0 <= i < |members| :: Fits(members[i], bounds[i])
    ensures Fits(Object(members), 1 + Total(bounds))
  {
    RestFits(members[1..], bounds[1..]);
    hide Rest;
    FitsJoin(['{'], 1, members[0], bounds[0]);
    FitsJoin(['{'] + members[0], 1 + bounds[0], Rest(members[1..]), 1 + Total(bounds[1..]));
  }

  lemma {:induction false} DecimalFits(n: nat, digits: nat)
    requires digits > 0 && n < Pow10(digits)
    ensures Fits(Decimal(n), digits)
    decreases digits
  {
    assert Pow10(0) == 1 && Pow10(digits) == 10 * Pow10(digits - 1);
    if n >= 10 {
      DecimalFits(n / 10, digits - 1);
    }
    assert forall c <- Decimal(n) :: IsDigit(c);
  }

  lemma Powers()
    ensures Pow10(10) > 0xFFFF_FFFF && Pow10(20) > 0xFFFF_FFFF_FFFF_FFFF
  {
    assert Pow10(2) == 100;
    assert Pow10(4) == 100 * Pow10(2);
    assert Pow10(6) == 100 * Pow10(4);
    assert Pow10(8) == 100 * Pow10(6);
    assert Pow10(10) == 100 * Pow10(8);
    assert Pow10(12) == 100 * Pow10(10);
    assert Pow10(14) == 100 * Pow10(12);
    assert Pow10(16) == 100 * Pow10(14);
    assert Pow10(18) == 100 * Pow10(16);
    assert Pow10(20) == 100 * Pow10(18);
  }

  lemma NumberFits(n: nat)
    ensures n < 0x1_0000_0000 ==> Fits(Decimal(n), 10)
    ensures n < 0x1_0000_0000_0000_0000 ==> Fits(Decimal(n), 20)
  {
    Powers();
    hide Pow10;
    if n < 0x1_0000_0000 {
      DecimalFits(n, 10);
    }
    if n < 0x1_0000_0000_0000_0000 {
      DecimalFits(n, 20);
    }
  }

  lemma SignedFits(n: i32)
    ensures Fits(Signed(n), 11)
  {
    var v: int := n;
    var magnitude: nat := if v < 0 then -v else v;
    NumberFits(magnitude);
  }

  lemma {:induction false} TotalJoins(a: seq<nat>, b: seq<nat>)
    ensures Total(a + b) == Total(a) + Total(b)
    decreases |a|
  {
    if a == [] {
      assert a + b == b;
    } else {
      assert (a + b)[1..] == a[1..] + b;
      TotalJoins(a[1..], b);
    }
  }

  lemma TotalOne(n: nat)
    ensures Total([n]) == n + 1
  {
    assert [n][1..] == [];
  }

  lemma TotalThree(a: nat, b: nat, c: nat)
    ensures Total([a, b, c]) == a + b + c + 3
  {
    assert [a, b, c] == [a] + [b] + [c];
    TotalOne(a);
    TotalOne(b);
    TotalOne(c);
    hide Total;
    TotalJoins([a], [b]);
    TotalJoins([a] + [b], [c]);
  }

  lemma DeviceFits(e: KioskEvent)
    ensures Fits(DeviceObject(e), 46 + 6 * (|e.deviceId| + |e.hardwareId| + |e.bootId|))
  {
    hide TextMember;
    hide Object;
    hide Fits;
    hide Total;
    TextMemberFits("device_id", e.deviceId);
    TextMemberFits("hardware_id", e.hardwareId);
    TextMemberFits("boot_id", e.bootId);
    TotalThree(14 + 6 * |e.deviceId|, 16 + 6 * |e.hardwareId|, 12 + 6 * |e.bootId|);
    ObjectFits([TextMember("device_id", e.deviceId), TextMember("hardware_id", e.hardwareId), TextMember("boot_id", e.bootId)],
               [14 + 6 * |e.deviceId|, 16 + 6 * |e.hardwareId|, 12 + 6 * |e.bootId|]);
  }

  lemma NameFits(name: bytes, n: nat)
    requires |name| <= n && forall i | 0 <= i < |name| :: name[i] as int >= 0x20
    ensures Fits(name, n)
  {
  }

  lemma TypeNameFits(t: EventType)
    ensures Fits(Quoted(TypeName(t)), 20)
  {
    NameFits(TypeName(t), 18);
    QuotedFits(TypeName(t), 18);
  }

  lemma SyncNameFits(s: TimeSyncStatus)
    ensures Fits(Quoted(SyncName(s)), 10)
  {
    NameFits(SyncName(s), 8);
    QuotedFits(SyncName(s), 8);
  }

  lemma EventFits(e: KioskEvent)
    ensures Fits(EventObject(e), 80 + 6 * |e.eventId|)
  {
    hide TextMember;
    hide Member;
    hide Object;
    hide Fits;
    hide Total;
    hide TypeName;
    hide Decimal;
    TextMemberFits("event_id", e.eventId);
    NumberFits(e.deviceSeq);
    MemberFits("device_seq", Decimal(e.deviceSeq), 20);
    TypeNameFits(e.eventType);
    MemberFits("type", Quoted(TypeName(e.eventType)), 20);
    TotalThree(13 + 6 * |e.eventId|, 33, 27);
    var members := [TextMember("event_id", e.eventId), Member("device_seq", Decimal(e.deviceSeq)),
                    Member("type", Quoted(TypeName(e.eventType)))];
    ObjectFits(members, [13 + 6 * |e.eventId|, 33, 27]);
    FitsMore(Object(members), 77 + 6 * |e.eventId|, 80 + 6 * |e.eventId|);
  }

  lemma FitsMore(s: bytes, n: nat, m: nat)
    requires Fits(s, n) && n <= m
    ensures Fits(s, m)
  {
  }

  lemma TimestampFits(e: KioskEvent)
    ensures Fits(TimestampText(e), 4 + 6 * |e.timestamp|)
  {
    EscapeHidesQuotes(e.timestamp);
    hide Escape;
    QuotedFits(Escape(e.timestamp), 6 * |e.timestamp|);
    NameFits("null", 4);
  }

  lemma TotalFour(a: nat, b: nat, c: nat, d: nat)
    ensures Total([a, b, c, d]) == a + b + c + d + 4
  {
    assert [a, b, c, d] == [a, b, c] + [d];
    TotalThree(a, b, c);
    TotalOne(d);
    hide Total;
    TotalJoins([a, b, c], [d]);
  }

  lemma TimeFits(e: KioskEvent)
    ensures Fits(TimeObject(e), 108 + 6 * |e.timestamp|)
  {
    hide TimestampText;
    hide Member;
    hide Object;
    hide Fits;
    hide Total;
    hide SyncName;
    hide Decimal;
    TimestampFits(e);
    MemberFits("timestamp_device", TimestampText(e), 4 + 6 * |e.timestamp|);
    NumberFits(e.uptimeMs);
    MemberFits("uptime_ms", Decimal(e.uptimeMs), 20);
    SyncNameFits(e.syncStatus);
    MemberFits("sync_status", Quoted(SyncName(e.syncStatus)), 10);
    NumberFits(e.syncAgeS);
    MemberFits("sync_age_s", Decimal(e.syncAgeS), 10);
    TotalFour(23 + 6 * |e.timestamp|, 32, 24, 23);
    var members := [Member("timestamp_device", TimestampText(e)), Member("uptime_ms", Decimal(e.uptimeMs)),
                    Member("sync_status", Quoted(SyncName(e.syncStatus))), Member("sync_age_s", Decimal(e.syncAgeS))];
    ObjectFits(members, [23 + 6 * |e.timestamp|, 32, 24, 23]);
    FitsMore(Object(members), 107 + 6 * |e.timestamp|, 108 + 6 * |e.timestamp|);
  }

  lemma ContextFits(e: KioskEvent)
    ensures Fits(ContextObject(e), 110)
  {
    hide Member;
    hide Object;
    hide Fits;
    hide Total;
    hide Decimal;
    StateVersionFits(e.expectedStateVersion);
    WorkflowVersionFits(e.workflowVersion);
    BundleVersionFits(e.uiBundleVersion);
    TotalThree(45, 29, 30);
    var members := [Member("expected_state_version", Decimal(e.expectedStateVersion)),
                    Member("workflow_version", Decimal(e.workflowVersion)), Member("ui_bundle_version", Decimal(e.uiBundleVersion))];
    ObjectFits(members, [45, 29, 30]);
    FitsMore(Object(members), 108, 110);
  }

  lemma StateVersionFits(n: u64)
    ensures Fits(Member("expected_state_version", Decimal(n)), 45)
  {
    NumberFits(n);
    MemberFits("expected_state_version", Decimal(n), 20);
  }

  lemma WorkflowVersionFits(n: u32)
    ensures Fits(Member("workflow_version", Decimal(n)), 29)
  {
    NumberFits(n);
    MemberFits("workflow_version", Decimal(n), 10);
  }

  lemma BundleVersionFits(n: u32)
    ensures Fits(Member("ui_bundle_version", Decimal(n)), 30)
  {
    NumberFits(n);
    MemberFits("ui_bundle_version", Decimal(n), 10);
  }

  lemma OptionalFits(name: bytes, q: Option<i32>) returns (bounds: seq<nat>)
    requires IsKey(name)
    ensures |bounds| == |Optional(name, q)| && forall i | 0 <= i < |bounds| :: Fits(Optional(name, q)[i], bounds[i])
    ensures Total(bounds) <= |name| + 15
  {
    match q {
      case None =>
        bounds := [];
      case Some(n) =>
        SignedFits(n);
        MemberFits(name, Signed(n), 11);
        TotalOne(|name| + 14);
        bounds := [|name| + 14];
    }
  }

  lemma PayloadFits(e: KioskEvent)
    ensures Fits(PayloadObject(e), 122 + 6 * (|e.source| + |e.raw|))
  {
    hide TextMember;
    hide Object;
    hide Fits;
    hide Optional;
    hide Total;
    TextMemberFits("source", e.source);
    TextMemberFits("raw", e.raw);
    var good := OptionalFits("quantity_good", e.quantityGood);
    var defect := OptionalFits("quantity_defect", e.quantityDefect);
    var rework := OptionalFits("quantity_rework", e.quantityRework);
    var first: seq<nat> := [11 + 6 * |e.source|, 8 + 6 * |e.raw|];
    TotalOne(11 + 6 * |e.source|);
    TotalOne(8 + 6 * |e.raw|);
    TotalJoins([11 + 6 * |e.source|], [8 + 6 * |e.raw|]);
    assert first == [11 + 6 * |e.source|] + [8 + 6 * |e.raw|];
    TotalJoins(first, good + defect + rework);
    TotalJoins(good + defect, rework);
    TotalJoins(good, defect);
    var members := [TextMember("source", e.source), TextMember("raw", e.raw)] + Quantities(e);
    var bounds := first + (good + defect + rework);
    forall i | 0 <= i < |members|
      ensures Fits(members[i], bounds[i])
    {
      QuantityMember(e, good, defect, rework, i - 2);
    }
    ObjectFits(members, bounds);
    FitsMore(Object(members), 1 + Total(bounds), 122 + 6 * (|e.source| + |e.raw|));
  }

  lemma QuantityMember(e: KioskEvent, good: seq<nat>, defect: seq<nat>, rework: seq<nat>, i: int)
    requires var g, d, r := Optional("quantity_good", e.quantityGood), Optional("quantity_defect", e.quantityDefect),
                            Optional("quantity_rework", e.quantityRework);
             && |good| == |g| && (forall k | 0 <= k < |g| :: Fits(g[k], good[k]))
             && |defect| == |d| && (forall k | 0 <= k < |d| :: Fits(d[k], defect[k]))
             && |rework| == |r| && (forall k | 0 <= k < |r| :: Fits(r[k], rework[k]))
    ensures |Quantities(e)| == |good + defect + rework|
    ensures 0 <= i < |Quantities(e)| ==> Fits(Quantities(e)[i], (good + defect + rework)[i])
  {
    hide Fits;
    hide Optional;
  }

  function StringBytes(e: KioskEvent): (n: nat) {
    |e.deviceId| + |e.hardwareId| + |e.bootId| + |e.eventId| + |e.timestamp| + |e.source| + |e.raw|
  }

  /** A body holds no control byte, and escaping makes it at most six times its strings longer. */
  lemma BodyFits(e: KioskEvent)
    ensures Fits(EncodeBody(e), 572 + 6 * StringBytes(e))
  {
    hide Member;
    hide Object;
    hide Fits;
    hide Total;
    hide Decimal;
    hide DeviceObject;
    hide EventObject;
    hide TimeObject;
    hide ContextObject;
    hide PayloadObject;
    NumberFits(e.protocolVersion);
    MemberFits("protocol_version", Decimal(e.protocolVersion), 10);
    DeviceFits(e);
    MemberFits("device", DeviceObject(e), 46 + 6 * (|e.deviceId| + |e.hardwareId| + |e.bootId|));
    EventFits(e);
    MemberFits("event", EventObject(e), 80 + 6 * |e.eventId|);
    TimeFits(e);
    MemberFits("time", TimeObject(e), 108 + 6 * |e.timestamp|);
    ContextFits(e);
    MemberFits("context", ContextObject(e), 110);
    PayloadFits(e);
    MemberFits("payload", PayloadObject(e), 122 + 6 * (|e.source| + |e.raw|));
    var members := [Member("protocol_version", Decimal(e.protocolVersion)), Member("device", DeviceObject(e)),
                    Member("event", EventObject(e)), Member("time", TimeObject(e)), Member("context", ContextObject(e)),
                    Member("payload", PayloadObject(e))];
    var a: seq<nat> := [29, 55 + 6 * (|e.deviceId| + |e.hardwareId| + |e.bootId|), 88 + 6 * |e.eventId|];
    var b: seq<nat> := [115 + 6 * |e.timestamp|, 120, 132 + 6 * (|e.source| + |e.raw|)];
    TotalThree(a[0], a[1], a[2]);
    TotalThree(b[0], b[1], b[2]);
    TotalJoins(a, b);
    assert a == [a[0], a[1], a[2]] && b == [b[0], b[1], b[2]];
    ObjectFits(members, a + b);
    FitsMore(Object(members), 1 + Total(a + b), 572 + 6 * StringBytes(e));
  }

  /** Byte-exact resend: with a scan line of 128 bytes and identifiers and names of at most 203 bytes together, the
    * body is copied into the queue slot whole, so it leaves the device exactly as it was journaled. */
  lemma BodyIsSentWhole(e: KioskEvent)
    requires |e.raw| <= 128
    requires |e.deviceId| + |e.hardwareId| + |e.bootId| + |e.eventId| + |e.timestamp| + |e.source| <= 203
    ensures NetworkWorker.FillBody(EncodeBody(e)) == EncodeBody(e)
  {
    BodyFits(e);
  }

  /** The body survives the journal, whatever the scanner read: it is clean, so a record that carries it reads back
    * with the same body and the same bytes are sent after any number of reboots. */
  lemma BodySurvivesJournal(e: KioskEvent, r: Record)
    requires r.payload == EncodeBody(e) && r.version == 1 && r.eventId != [] && r.eventType != []
    ensures Clean(r.payload)
    ensures DecodeEvent(EncodeEvent(r)).Some? && DecodeEvent(EncodeEvent(r)).value.payload == EncodeBody(e)
  {
    BodyFits(e);
    hide EncodeBody;
    EventReadBack(r);
    ReadBackIdentity(r.payload);
    hide DecodeEvent;
    hide EncodeEvent;
    hide ReadBack;
  }

  // --- The printer ---

  lemma MemberEmitted(members: seq<bytes>, i: nat, out: bytes)
    requires i < |members|
    ensures out + ([','] + members[i]) + Rest(members[i + 1..]) == out + Rest(members[i..])
  {
    assert members[i..][1..] == members[i + 1..];
    var printed, tail := [','] + members[i], Rest(members[i + 1..]);
    assert Rest(members[i..]) == printed + tail;
    hide Rest;
    assert out + (printed + tail) == out + printed + tail;
  }

  /** One more member of an object. */
  method Emit(out: bytes, member: bytes, ghost members: seq<bytes>, ghost i: nat) returns (r: bytes)
    requires i < |members| && members[i] == member
    ensures r + Rest(members[i + 1..]) == out + Rest(members[i..])
  {
    r := out + ([','] + member);
    MemberEmitted(members, i, out);
  }

  /** The end of an object whose members have all been printed. */
  method Close(out: bytes, ghost members: seq<bytes>) returns (r: bytes)
    ensures r == out + Rest(members[|members|..])
  {
    r := out + ['}'];
    assert members[|members|..] == [];
  }

  method EncodeDevice(e: KioskEvent) returns (out: bytes)
    ensures out == DeviceObject(e)
  {
    hide Quoted;
    hide Escape;
    hide Rest;
    hide Member;
    var deviceId := JsonEscape(e.deviceId);
    var hardwareId := JsonEscape(e.hardwareId);
    var bootId := JsonEscape(e.bootId);
    ghost var ms := [TextMember("device_id", e.deviceId), TextMember("hardware_id", e.hardwareId), TextMember("boot_id", e.bootId)];
    out := ['{'] + Member("device_id", Quoted(deviceId));
    out := Emit(out, Member("hardware_id", Quoted(hardwareId)), ms, 1);
    out := Emit(out, Member("boot_id", Quoted(bootId)), ms, 2);
    out := Close(out, ms);
  }

  method EncodeEventInfo(e: KioskEvent) returns (out: bytes)
    ensures out == EventObject(e)
  {
    hide Quoted;
    hide Escape;
    hide Rest;
    hide Member;
    hide TypeName;
    hide Decimal;
    var eventId := JsonEscape(e.eventId);
    ghost var ms := [TextMember("event_id", e.eventId), Member("device_seq", Decimal(e.deviceSeq)),
                     Member("type", Quoted(TypeName(e.eventType)))];
    out := ['{'] + Member("event_id", Quoted(eventId));
    out := Emit(out, Member("device_seq", Decimal(e.deviceSeq)), ms, 1);
    out := Emit(out, Member("type", Quoted(TypeName(e.eventType))), ms, 2);
    out := Close(out, ms);
  }

  method EncodeTime(e: KioskEvent) returns (out: bytes)
    ensures out == TimeObject(e)
  {
    hide Quoted;
    hide Escape;
    hide Rest;
    hide Member;
    hide SyncName;
    hide Decimal;
    ghost var ms := [Member("timestamp_device", TimestampText(e)), Member("uptime_ms", Decimal(e.uptimeMs)),
                     Member("sync_status", Quoted(SyncName(e.syncStatus))), Member("sync_age_s", Decimal(e.syncAgeS))];
    var timestamp: bytes := "null";
    if e.syncStatus == SYNCED || e.syncStatus == STALE {
      var escaped := JsonEscape(e.timestamp);
      timestamp := Quoted(escaped);
    }
    out := ['{'] + Member("timestamp_device", timestamp);
    out := Emit(out, Member("uptime_ms", Decimal(e.uptimeMs)), ms, 1);
    out := Emit(out, Member("sync_status", Quoted(SyncName(e.syncStatus))), ms, 2);
    out := Emit(out, Member("sync_age_s", Decimal(e.syncAgeS)), ms, 3);
    out := Close(out, ms);
  }

  method EncodeContext(e: KioskEvent) returns (out: bytes)
    ensures out == ContextObject(e)
  {
    hide Rest;
    hide Member;
    hide Decimal;
    ghost var ms := [Member("expected_state_version", Decimal(e.expectedStateVersion)),
                     Member("workflow_version", Decimal(e.workflowVersion)), Member("ui_bundle_version", Decimal(e.uiBundleVersion))];
    out := ['{'] + Member("expected_state_version", Decimal(e.expectedStateVersion));
    out := Emit(out, Member("workflow_version", Decimal(e.workflowVersion)), ms, 1);
    out := Emit(out, Member("ui_bundle_version", Decimal(e.uiBundleVersion)), ms, 2);
    out := Close(out, ms);
  }

  /** A quantity is printed when it is present, also when it is zero. */
  method EmitQuantity(out: bytes, name: bytes, q: Option<i32>, ghost members: seq<bytes>, ghost i: nat) returns (r: bytes)
    requires i + |Optional(name, q)| <= |members| && members[i..i + |Optional(name, q)|] == Optional(name, q)
    ensures r + Rest(members[i + |Optional(name, q)|..]) == out + Rest(members[i..])
  {
    hide Rest;
    r := out;
    if q.Some? {
      assert members[i] == members[i..i + 1][0];
      r := Emit(out, Member(name, Signed(q.value)), members, i);
    }
  }

  method EncodePayload(e: KioskEvent) returns (out: bytes)
    ensures out == PayloadObject(e)
  {
    hide Quoted;
    hide Escape;
    hide Rest;
    hide Member;
    hide Optional;
    var source := JsonEscape(e.source);
    var raw := JsonEscape(e.raw);
    ghost var first := [TextMember("source", e.source), TextMember("raw", e.raw)];
    ghost var g, d, r := Optional("quantity_good", e.quantityGood), Optional("quantity_defect", e.quantityDefect),
                         Optional("quantity_rework", e.quantityRework);
    ghost var ms := first + Quantities(e);
    out := ['{'] + Member("source", Quoted(source));
    out := Emit(out, Member("raw", Quoted(raw)), ms, 1);
    assert ms[2..2 + |g|] == g;
    out := EmitQuantity(out, "quantity_good", e.quantityGood, ms, 2);
    assert ms[2 + |g|..2 + |g| + |d|] == d;
    out := EmitQuantity(out, "quantity_defect", e.quantityDefect, ms, 2 + |g|);
    assert ms[2 + |g| + |d|..2 + |g| + |d| + |r|] == r;
    out := EmitQuantity(out, "quantity_rework", e.quantityRework, ms, 2 + |g| + |d|);
    assert |ms| == 2 + |g| + |d| + |r|;
    out := Close(out, ms);
  }

  /** encode_event_json. */
  method EncodeEventJson(e: KioskEvent) returns (out: bytes)
    ensures out == EncodeBody(e)
  {
    hide Rest;
    hide Member;
    hide Decimal;
    hide DeviceObject;
    hide EventObject;
    hide TimeObject;
    hide ContextObject;
    hide PayloadObject;
    ghost var ms := [Member("protocol_version", Decimal(e.protocolVersion)), Member("device", DeviceObject(e)),
                     Member("event", EventObject(e)), Member("time", TimeObject(e)), Member("context", ContextObject(e)),
                     Member("payload", PayloadObject(e))];
    out := ['{'] + Member("protocol_version", Decimal(e.protocolVersion));
    var device := EncodeDevice(e);
    out := Emit(out, Member("device", device), ms, 1);
    var event := EncodeEventInfo(e);
    out := Emit(out, Member("event", event), ms, 2);
    var time := EncodeTime(e);
    out := Emit(out, Member("time", time), ms, 3);
    var context := EncodeContext(e);
    out := Emit(out, Member("context", context), ms, 4);
    var payload := EncodePayload(e);
    out := Emit(out, Member("payload", payload), ms, 5);
    out := Close(out, ms);
  }
}
