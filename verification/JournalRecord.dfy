/** The two kinds of journal body, an event and a status transition, and exactly which records survive being
  * written and read back. */
module JournalRecord {
  import opened Bytes
  import opened Json

  type u8 = n: nat | n < 0x100
  type u32 = n: nat | n < 0x1_0000_0000
  type u64 = n: nat | n < 0x1_0000_0000_0000_0000

  datatype SyncStatus = PENDING | IN_FLIGHT | ACKED | REJECTED | CONFLICT | HUMAN_REVIEW

  datatype Record = Record(
    version: u8, eventId: bytes, deviceSeq: u64, bootId: bytes, eventType: bytes, payload: bytes,
    payloadHash: bytes, expectedStateVersion: u64, createdUptimeMs: u32, timeSyncStatus: bytes,
    retryCount: u32, lastAttemptUptimeMs: u32, lastErrorCode: bytes, syncStatus: SyncStatus)

  datatype Transition = Transition(
    eventId: bytes, syncStatus: SyncStatus, retryCount: u32, lastAttemptUptimeMs: u32, lastErrorCode: bytes)

  datatype BodyKind = EVENT | TRANSITION | UNKNOWN

  function StatusName(s: SyncStatus): (name: bytes) {
    match s
    case PENDING => "PENDING"
    case IN_FLIGHT => "IN_FLIGHT"
    case ACKED => "ACKED"
    case REJECTED => "REJECTED"
    case CONFLICT => "CONFLICT"
    case HUMAN_REVIEW => "HUMAN_REVIEW"
  }

  function StatusFromName(name: bytes): (s: Option<SyncStatus>)
    ensures s.Some? ==> StatusName(s.value) == name
  {
    if name == "PENDING" then Some(PENDING)
    else if name == "IN_FLIGHT" then Some(IN_FLIGHT)
    else if name == "ACKED" then Some(ACKED)
    else if name == "REJECTED" then Some(REJECTED)
    else if name == "CONFLICT" then Some(CONFLICT)
    else if name == "HUMAN_REVIEW" then Some(HUMAN_REVIEW)
    else None
  }

  /** The keys of a journal body. */
  datatype Key =
    | KIND
    | RECORD_VERSION
    | EVENT_ID
    | DEVICE_SEQ
    | BOOT_ID
    | EVENT_TYPE
    | PAYLOAD
    | PAYLOAD_HASH
    | EXPECTED_STATE_VERSION
    | CREATED_UPTIME_MS
    | TIME_SYNC_STATUS
    | RETRY_COUNT
    | LAST_ATTEMPT_UPTIME_MS
    | LAST_ERROR_CODE
    | SYNC_STATUS

  function KeyText(k: Key): (text: bytes) {
    match k
    case KIND => "k"
    case RECORD_VERSION => "record_version"
    case EVENT_ID => "event_id"
    case DEVICE_SEQ => "device_seq"
    case BOOT_ID => "boot_id"
    case EVENT_TYPE => "event_type"
    case PAYLOAD => "payload"
    case PAYLOAD_HASH => "payload_hash"
    case EXPECTED_STATE_VERSION => "expected_state_version"
    case CREATED_UPTIME_MS => "created_uptime_ms"
    case TIME_SYNC_STATUS => "time_sync_status"
    case RETRY_COUNT => "retry_count"
    case LAST_ATTEMPT_UPTIME_MS => "last_attempt_uptime_ms"
    case LAST_ERROR_CODE => "last_error_code"
    case SYNC_STATUS => "sync_status"
  }

  /** Length and first letter tell the keys apart. */
  function KeyShape(k: Key): (shape: (nat, byte)) {
    match k
    case KIND => (1, 'k')
    case RECORD_VERSION => (14, 'r')
    case EVENT_ID => (8, 'e')
    case DEVICE_SEQ => (10, 'd')
    case BOOT_ID => (7, 'b')
    case EVENT_TYPE => (10, 'e')
    case PAYLOAD => (7, 'p')
    case PAYLOAD_HASH => (12, 'p')
    case EXPECTED_STATE_VERSION => (22, 'e')
    case CREATED_UPTIME_MS => (17, 'c')
    case TIME_SYNC_STATUS => (16, 't')
    case RETRY_COUNT => (11, 'r')
    case LAST_ATTEMPT_UPTIME_MS => (22, 'l')
    case LAST_ERROR_CODE => (15, 'l')
    case SYNC_STATUS => (11, 's')
  }

  lemma KeyTextShape(k: Key)
    ensures IsKey(KeyText(k)) && |KeyText(k)| == KeyShape(k).0 && KeyText(k)[0] == KeyShape(k).1
  {
    match k {
      case KIND => assert |KeyText(k)| == 1;
      case RECORD_VERSION => assert |KeyText(k)| == 14;
      case EVENT_ID => assert |KeyText(k)| == 8;
      case DEVICE_SEQ => assert |KeyText(k)| == 10;
      case BOOT_ID => assert |KeyText(k)| == 7;
      case EVENT_TYPE => assert |KeyText(k)| == 10;
      case PAYLOAD => assert |KeyText(k)| == 7;
      case PAYLOAD_HASH => assert |KeyText(k)| == 12;
      case EXPECTED_STATE_VERSION => assert |KeyText(k)| == 22;
      case CREATED_UPTIME_MS => assert |KeyText(k)| == 17;
      case TIME_SYNC_STATUS => assert |KeyText(k)| == 16;
      case RETRY_COUNT => assert |KeyText(k)| == 11;
      case LAST_ATTEMPT_UPTIME_MS => assert |KeyText(k)| == 22;
      case LAST_ERROR_CODE => assert |KeyText(k)| == 15;
      case SYNC_STATUS => assert |KeyText(k)| == 11;
    }
  }

  lemma KeyTextInjective(a: Key, b: Key)
    ensures KeyText(a) == KeyText(b) ==> a == b
  {
    hide KeyText;
    KeyTextShape(a);
    KeyTextShape(b);
  }

  // --- Encoding ---

  /** The keys of an event body, in the order in which they are printed. */
  const EVENT_KEYS: seq<Key> :=
    [KIND, RECORD_VERSION, EVENT_ID, DEVICE_SEQ, BOOT_ID, EVENT_TYPE, PAYLOAD, PAYLOAD_HASH,
     EXPECTED_STATE_VERSION, CREATED_UPTIME_MS, TIME_SYNC_STATUS, RETRY_COUNT, LAST_ATTEMPT_UPTIME_MS, LAST_ERROR_CODE, SYNC_STATUS]

  const TRANSITION_KEYS: seq<Key> :=
    [KIND, EVENT_ID, SYNC_STATUS, RETRY_COUNT, LAST_ATTEMPT_UPTIME_MS, LAST_ERROR_CODE]

  function EventValue(r: Record, k: Key): (v: Value) {
    match k
    case KIND => Text("E")
    case RECORD_VERSION => Number(r.version)
    case EVENT_ID => Text(r.eventId)
    case DEVICE_SEQ => Number(r.deviceSeq)
    case BOOT_ID => Text(r.bootId)
    case EVENT_TYPE => Text(r.eventType)
    case PAYLOAD => Text(r.payload)
    case PAYLOAD_HASH => Text(r.payloadHash)
    case EXPECTED_STATE_VERSION => Number(r.expectedStateVersion)
    case CREATED_UPTIME_MS => Number(r.createdUptimeMs)
    case TIME_SYNC_STATUS => Text(r.timeSyncStatus)
    case RETRY_COUNT => Number(r.retryCount)
    case LAST_ATTEMPT_UPTIME_MS => Number(r.lastAttemptUptimeMs)
    case LAST_ERROR_CODE => Text(r.lastErrorCode)
    case SYNC_STATUS => Text(StatusName(r.syncStatus))
  }

  /** Where a key stands in an event body. */
  function EventRank(k: Key): (i: nat)
    ensures i < |EVENT_KEYS|
  {
    match k
    case KIND => 0
    case RECORD_VERSION => 1
    case EVENT_ID => 2
    case DEVICE_SEQ => 3
    case BOOT_ID => 4
    case EVENT_TYPE => 5
    case PAYLOAD => 6
    case PAYLOAD_HASH => 7
    case EXPECTED_STATE_VERSION => 8
    case CREATED_UPTIME_MS => 9
    case TIME_SYNC_STATUS => 10
    case RETRY_COUNT => 11
    case LAST_ATTEMPT_UPTIME_MS => 12
    case LAST_ERROR_CODE => 13
    case SYNC_STATUS => 14
  }

  function TransitionValue(t: Transition, k: Key): (v: Value)
    requires k in TRANSITION_KEYS
  {
    match k
    case KIND => Text("T")
    case EVENT_ID => Text(t.eventId)
    case SYNC_STATUS => Text(StatusName(t.syncStatus))
    case RETRY_COUNT => Number(t.retryCount)
    case LAST_ATTEMPT_UPTIME_MS => Number(t.lastAttemptUptimeMs)
    case LAST_ERROR_CODE => Text(t.lastErrorCode)
  }

  function EventFields(r: Record): (fs: seq<Field>) {
    seq(|EVENT_KEYS|, i requires 0 <= i < |EVENT_KEYS| => Field(KeyText(EVENT_KEYS[i]), EventValue(r, EVENT_KEYS[i])))
  }

  function TransitionFields(t: Transition): (fs: seq<Field>) {
    seq(|TRANSITION_KEYS|, i requires 0 <= i < |TRANSITION_KEYS| =>
      Field(KeyText(TRANSITION_KEYS[i]), TransitionValue(t, TRANSITION_KEYS[i])))
  }

  function EncodeEvent(r: Record): (body: bytes) {
    PrintObject(EventFields(r))
  }

  function EncodeTransition(t: Transition): (body: bytes) {
    PrintObject(TransitionFields(t))
  }

  lemma FieldEmitted(fs: seq<Field>, i: nat, out: bytes, printed: bytes)
    requires i < |fs| && printed == [','] + Needle(fs[i].key) + Print(fs[i].value)
    ensures out + printed + PrintFields(fs[i + 1..], ',') == out + PrintFields(fs[i..], ',')
  {
    var tail := PrintFields(fs[i + 1..], ',');
    assert fs[i..][1..] == fs[i + 1..];
    assert PrintFields(fs[i..], ',') == printed + tail;
    hide PrintFields;
    hide Print;
    hide Needle;
    assert out + (printed + tail) == out + printed + tail;
  }

  lemma FirstField(fs: seq<Field>, out: bytes)
    requires fs != [] && out == ['{'] + Needle(fs[0].key) + Print(fs[0].value)
    ensures out + PrintFields(fs[1..], ',') == PrintObject(fs)
  {
  }

  lemma NoFields(fs: seq<Field>)
    requires fs == []
    ensures PrintFields(fs, ',') == ['}']
  {
  }

  /** The comma, the key and the escaped value of one string field. */
  method EmitText(out: bytes, key: Key, value: bytes, ghost fs: seq<Field>, ghost i: nat) returns (r: bytes)
    requires i < |fs| && fs[i] == Field(KeyText(key), Text(value))
    ensures r + PrintFields(fs[i + 1..], ',') == out + PrintFields(fs[i..], ',')
  {
    hide KeyText;
    hide PrintFields;
    var escaped := JsonEscape(value);
    var printed := [',', QUOTE] + KeyText(key) + [QUOTE, ':', QUOTE] + escaped + [QUOTE];
    r := out + printed;
    assert printed == [','] + Needle(KeyText(key)) + Print(Text(value));
    FieldEmitted(fs, i, out, printed);
  }

  /** The comma, the key and the decimal form of one number field. */
  method EmitNumber(out: bytes, key: Key, n: nat, ghost fs: seq<Field>, ghost i: nat) returns (r: bytes)
    requires i < |fs| && fs[i] == Field(KeyText(key), Number(n))
    ensures r + PrintFields(fs[i + 1..], ',') == out + PrintFields(fs[i..], ',')
  {
    hide KeyText;
    hide PrintFields;
    hide Decimal;
    var printed := [',', QUOTE] + KeyText(key) + [QUOTE, ':'] + Decimal(n);
    r := out + printed;
    assert printed == [','] + Needle(KeyText(key)) + Print(Number(n));
    FieldEmitted(fs, i, out, printed);
  }

  /** The status is printed as it is: none of its names needs an escape. */
  method EmitStatus(out: bytes, s: SyncStatus, ghost fs: seq<Field>, ghost i: nat) returns (r: bytes)
    requires i < |fs| && fs[i] == Field(KeyText(SYNC_STATUS), Text(StatusName(s)))
    ensures r + PrintFields(fs[i + 1..], ',') == out + PrintFields(fs[i..], ',')
  {
    EscapeStatus(s);
    hide KeyText;
    hide StatusName;
    hide PrintFields;
    var printed := [',', QUOTE] + KeyText(SYNC_STATUS) + [QUOTE, ':', QUOTE] + StatusName(s) + [QUOTE];
    r := out + printed;
    assert printed == [','] + Needle(KeyText(SYNC_STATUS)) + Print(Text(StatusName(s)));
    FieldEmitted(fs, i, out, printed);
  }

  lemma EscapeStatus(s: SyncStatus)
    ensures Escape(StatusName(s)) == StatusName(s) && Clean(StatusName(s))
  {
    forall i | 0 <= i < |StatusName(s)|
      ensures 'A' <= StatusName(s)[i] <= 'Z' || StatusName(s)[i] == '_'
    {
    }
    EscapePlain(StatusName(s));
  }

  lemma {:induction false} EscapePlain(s: bytes)
    requires forall i | 0 <= i < |s| :: 'A' <= s[i] <= 'Z' || s[i] == '_'
    ensures Escape(s) == s && Clean(s)
  {
    if s != [] {
      EscapePlain(s[1..]);
      assert s == [s[0]] + s[1..];
    }
  }

  lemma EventFieldsAt(r: Record)
    ensures |EventFields(r)| == |EVENT_KEYS|
    ensures forall k {:trigger KeyText(k)} :: EventFields(r)[EventRank(k)] == Field(KeyText(k), EventValue(r, k))
  {
    hide KeyText;
    hide EventValue;
    assert forall k :: EVENT_KEYS[EventRank(k)] == k;
  }

  lemma KindPrinted(letter: byte)
    requires 'A' <= letter <= 'Z'
    ensures ['{', QUOTE, 'k', QUOTE, ':', QUOTE, letter, QUOTE] == ['{'] + Needle(KeyText(KIND)) + Print(Text([letter]))
  {
    EscapePlain([letter]);
  }

  lemma EventStart(r: Record)
    ensures "{\"k\":\"E\"" + PrintFields(EventFields(r)[1..], ',') == EncodeEvent(r)
  {
    KindPrinted('E');
    hide KeyText;
    hide PrintFields;
    hide StatusName;
    FirstField(EventFields(r), "{\"k\":\"E\"");
  }

  lemma TransitionStart(t: Transition)
    ensures "{\"k\":\"T\"" + PrintFields(TransitionFields(t)[1..], ',') == EncodeTransition(t)
  {
    KindPrinted('T');
    hide KeyText;
    hide PrintFields;
    hide StatusName;
    FirstField(TransitionFields(t), "{\"k\":\"T\"");
  }

  /** encode_journal_event. */
  method EncodeJournalEvent(r: Record) returns (out: bytes)
    ensures out == EncodeEvent(r)
  {
    hide PrintFields;
    hide EncodeEvent;
    hide EventValue;
    hide KeyText;
    EventStart(r);
    out := EmitIdentity("{\"k\":\"E\"", r);
    out := EmitContext(out, r);
    out := EmitDelivery(out, r);
    NoFields(EventFields(r)[15..]);
    out := out + ['}'];
  }

  /** What the event is. */
  method EmitIdentity(start: bytes, r: Record) returns (out: bytes)
    ensures out + PrintFields(EventFields(r)[8..], ',') == start + PrintFields(EventFields(r)[1..], ',')
  {
    EventFieldsAt(r);
    hide EventFields;
    hide PrintFields;
    hide StatusName;
    hide KeyText;
    ghost var fs := EventFields(r);
    out := EmitNumber(start, RECORD_VERSION, r.version, fs, 1);
    out := EmitText(out, EVENT_ID, r.eventId, fs, 2);
    out := EmitNumber(out, DEVICE_SEQ, r.deviceSeq, fs, 3);
    out := EmitText(out, BOOT_ID, r.bootId, fs, 4);
    out := EmitText(out, EVENT_TYPE, r.eventType, fs, 5);
    out := EmitText(out, PAYLOAD, r.payload, fs, 6);
    out := EmitText(out, PAYLOAD_HASH, r.payloadHash, fs, 7);
  }

  /** When and against what state it was made. */
  method EmitContext(start: bytes, r: Record) returns (out: bytes)
    ensures out + PrintFields(EventFields(r)[11..], ',') == start + PrintFields(EventFields(r)[8..], ',')
  {
    EventFieldsAt(r);
    hide EventFields;
    hide PrintFields;
    hide StatusName;
    hide KeyText;
    ghost var fs := EventFields(r);
    out := EmitNumber(start, EXPECTED_STATE_VERSION, r.expectedStateVersion, fs, 8);
    out := EmitNumber(out, CREATED_UPTIME_MS, r.createdUptimeMs, fs, 9);
    out := EmitText(out, TIME_SYNC_STATUS, r.timeSyncStatus, fs, 10);
  }

  /** How far its delivery got. */
  method EmitDelivery(start: bytes, r: Record) returns (out: bytes)
    ensures out + PrintFields(EventFields(r)[15..], ',') == start + PrintFields(EventFields(r)[11..], ',')
  {
    EventFieldsAt(r);
    hide EventFields;
    hide PrintFields;
    hide StatusName;
    hide KeyText;
    ghost var fs := EventFields(r);
    out := EmitNumber(start, RETRY_COUNT, r.retryCount, fs, 11);
    out := EmitNumber(out, LAST_ATTEMPT_UPTIME_MS, r.lastAttemptUptimeMs, fs, 12);
    out := EmitText(out, LAST_ERROR_CODE, r.lastErrorCode, fs, 13);
    out := EmitStatus(out, r.syncStatus, fs, 14);
  }

  /** encode_journal_transition. */
  method EncodeJournalTransition(t: Transition) returns (out: bytes)
    ensures out == EncodeTransition(t)
  {
    hide PrintFields;
    hide EncodeTransition;
    hide StatusName;
    hide KeyText;
    ghost var fs := TransitionFields(t);
    out := "{\"k\":\"T\"";
    TransitionStart(t);
    out := EmitText(out, EVENT_ID, t.eventId, fs, 1);
    out := EmitStatus(out, t.syncStatus, fs, 2);
    out := EmitNumber(out, RETRY_COUNT, t.retryCount, fs, 3);
    out := EmitNumber(out, LAST_ATTEMPT_UPTIME_MS, t.lastAttemptUptimeMs, fs, 4);
    out := EmitText(out, LAST_ERROR_CODE, t.lastErrorCode, fs, 5);
    NoFields(fs[6..]);
    out := out + ['}'];
  }

  // --- Decoding ---

  function KindOf(body: bytes): (k: BodyKind) {
    var k := ExtractString(body, KeyText(KIND), []);
    if k == "E" then EVENT else if k == "T" then TRANSITION else UNKNOWN
  }

  /** static_cast from a signed 64-bit integer. */
  function AsU32(n: int): (r: u32) {
    n % 0x1_0000_0000
  }

  function AsU64(n: int): (r: u64) {
    n % 0x1_0000_0000_0000_0000
  }

  function DecodeEvent(body: bytes): (r: Option<Record>) {
    var eventId := ExtractString(body, KeyText(EVENT_ID), []);
    var eventType := ExtractString(body, KeyText(EVENT_TYPE), []);
    var status := StatusFromName(ExtractString(body, KeyText(SYNC_STATUS), []));
    if KindOf(body) != EVENT || ExtractInt(body, KeyText(RECORD_VERSION), -1) != 1 then None
    else if eventId == [] || eventType == [] || status.None? then None
    else Some(Record(
      1, eventId, AsU64(ExtractInt(body, KeyText(DEVICE_SEQ), 0)), ExtractString(body, KeyText(BOOT_ID), []), eventType,
      ExtractString(body, KeyText(PAYLOAD), []), ExtractString(body, KeyText(PAYLOAD_HASH), []),
      AsU64(ExtractInt(body, KeyText(EXPECTED_STATE_VERSION), 0)), AsU32(ExtractInt(body, KeyText(CREATED_UPTIME_MS), 0)),
      ExtractString(body, KeyText(TIME_SYNC_STATUS), []), AsU32(ExtractInt(body, KeyText(RETRY_COUNT), 0)),
      AsU32(ExtractInt(body, KeyText(LAST_ATTEMPT_UPTIME_MS), 0)), ExtractString(body, KeyText(LAST_ERROR_CODE), []),
      status.value))
  }

  function DecodeTransition(body: bytes): (t: Option<Transition>) {
    var eventId := ExtractString(body, KeyText(EVENT_ID), []);
    var status := StatusFromName(ExtractString(body, KeyText(SYNC_STATUS), []));
    if KindOf(body) != TRANSITION || eventId == [] || status.None? then None
    else Some(Transition(
      eventId, status.value, AsU32(ExtractInt(body, KeyText(RETRY_COUNT), 0)),
      AsU32(ExtractInt(body, KeyText(LAST_ATTEMPT_UPTIME_MS), 0)), ExtractString(body, KeyText(LAST_ERROR_CODE), [])))
  }

  method JournalBodyKind(body: bytes) returns (kind: BodyKind)
    ensures kind == KindOf(body)
  {
    var k := JsonExtractString(body, KeyText(KIND), []);
    return if k == "E" then EVENT else if k == "T" then TRANSITION else UNKNOWN;
  }

  /** decode_journal_event: None for a body it refuses. */
  method DecodeJournalEvent(body: bytes) returns (out: Option<Record>)
    ensures out == DecodeEvent(body)
  {
    hide ExtractString;
    hide ExtractInt;
    hide StatusFromName;
    var kind := JournalBodyKind(body);
    if kind != EVENT {
      return None;
    }
    var version := JsonExtractInt(body, KeyText(RECORD_VERSION), -1);
    if version != 1 {
      return None;
    }
    var eventId := JsonExtractString(body, KeyText(EVENT_ID), []);
    if eventId == [] {
      return None;
    }
    var eventType := JsonExtractString(body, KeyText(EVENT_TYPE), []);
    if eventType == [] {
      return None;
    }
    var name := JsonExtractString(body, KeyText(SYNC_STATUS), []);
    var status := StatusFromName(name);
    if status.None? {
      return None;
    }
    var deviceSeq := JsonExtractInt(body, KeyText(DEVICE_SEQ), 0);
    var bootId := JsonExtractString(body, KeyText(BOOT_ID), []);
    var payload := JsonExtractString(body, KeyText(PAYLOAD), []);
    var payloadHash := JsonExtractString(body, KeyText(PAYLOAD_HASH), []);
    var expected := JsonExtractInt(body, KeyText(EXPECTED_STATE_VERSION), 0);
    var created := JsonExtractInt(body, KeyText(CREATED_UPTIME_MS), 0);
    var timeSync := JsonExtractString(body, KeyText(TIME_SYNC_STATUS), []);
    var retry := JsonExtractInt(body, KeyText(RETRY_COUNT), 0);
    var attempt := JsonExtractInt(body, KeyText(LAST_ATTEMPT_UPTIME_MS), 0);
    var error := JsonExtractString(body, KeyText(LAST_ERROR_CODE), []);
    return Some(Record(1, eventId, AsU64(deviceSeq), bootId, eventType, payload, payloadHash, AsU64(expected),
                       AsU32(created), timeSync, AsU32(retry), AsU32(attempt), error, status.value));
  }

  /** decode_journal_transition. */
  method DecodeJournalTransition(body: bytes) returns (out: Option<Transition>)
    ensures out == DecodeTransition(body)
  {
    hide ExtractString;
    hide ExtractInt;
    hide StatusFromName;
    var kind := JournalBodyKind(body);
    if kind != TRANSITION {
      return None;
    }
    var eventId := JsonExtractString(body, KeyText(EVENT_ID), []);
    if eventId == [] {
      return None;
    }
    var name := JsonExtractString(body, KeyText(SYNC_STATUS), []);
    var status := StatusFromName(name);
    if status.None? {
      return None;
    }
    var retry := JsonExtractInt(body, KeyText(RETRY_COUNT), 0);
    var attempt := JsonExtractInt(body, KeyText(LAST_ATTEMPT_UPTIME_MS), 0);
    var error := JsonExtractString(body, KeyText(LAST_ERROR_CODE), []);
    return Some(Transition(eventId, status.value, AsU32(retry), AsU32(attempt), error));
  }

  // --- The round trip ---

  /** The records that come back unchanged. The strings may hold any bytes but the control bytes that lose
    * their escape; the two 64-bit counters are read as signed. */
  ghost predicate Encodable(r: Record) {
    && r.version == 1 && r.eventId != [] && r.eventType != []
    && r.deviceSeq <= INT64_MAX && r.expectedStateVersion <= INT64_MAX
    && Clean(r.eventId) && Clean(r.bootId) && Clean(r.eventType) && Clean(r.payload) && Clean(r.payloadHash)
    && Clean(r.timeSyncStatus) && Clean(r.lastErrorCode)
  }

  ghost predicate EncodableTransition(t: Transition) {
    t.eventId != [] && Clean(t.eventId) && Clean(t.lastErrorCode)
  }

  lemma {:induction false} GetAt(fs: seq<Field>, i: nat)
    requires i < |fs| && forall j | 0 <= j < i :: fs[j].key != fs[i].key
    ensures Get(fs, fs[i].key) == Some(fs[i].value)
  {
    if i != 0 {
      GetAt(fs[1..], i - 1);
    }
  }

  ghost predicate DistinctKeys(fs: seq<Field>) {
    && (forall f <- fs :: IsKey(f.key))
    && forall i, j | 0 <= j < i < |fs| :: fs[j].key != fs[i].key
  }

  /** Every text field of a printed object reads back as its ReadBack, every number field clamped. */
  lemma FieldsReadBack(fs: seq<Field>, i: nat, text: bytes, number: int)
    requires DistinctKeys(fs) && i < |fs|
    ensures match fs[i].value
            case Text(t) => ExtractString(PrintObject(fs), fs[i].key, text) == ReadBack(t)
            case Number(n) => ExtractInt(PrintObject(fs), fs[i].key, number) == Clamp(n)
  {
    GetAt(fs, i);
    assert fs[i] in fs;
    ExtractText(fs, fs[i].key, text);
    ExtractNumber(fs, fs[i].key, number);
  }

  function TransitionRank(k: Key): (i: nat) {
    match k
    case KIND => 0
    case EVENT_ID => 1
    case SYNC_STATUS => 2
    case RETRY_COUNT => 3
    case LAST_ATTEMPT_UPTIME_MS => 4
    case LAST_ERROR_CODE => 5
    case _ => 6
  }

  /** Every value of an event body is found under its key. */
  lemma EventExtract(r: Record, k: Key, text: bytes, number: int)
    ensures match EventValue(r, k)
            case Text(t) => ExtractString(EncodeEvent(r), KeyText(k), text) == ReadBack(t)
            case Number(n) => ExtractInt(EncodeEvent(r), KeyText(k), number) == Clamp(n)
  {
    hide KeyText;
    hide StatusName;
    hide PrintObject;
    hide ExtractString;
    hide ExtractInt;
    hide ReadBack;
    var fs, i := EventFields(r), EventRank(k);
    assert forall j | 0 <= j < |fs| :: EventRank(EVENT_KEYS[j]) == j;
    KeysDistinct(fs, EVENT_KEYS);
    assert EVENT_KEYS[i] == k;
    hide EventValue;
    FieldsReadBack(fs, i, text, number);
  }

  lemma TransitionExtract(t: Transition, k: Key, text: bytes, number: int)
    requires k in TRANSITION_KEYS
    ensures match TransitionValue(t, k)
            case Text(v) => ExtractString(EncodeTransition(t), KeyText(k), text) == ReadBack(v)
            case Number(n) => ExtractInt(EncodeTransition(t), KeyText(k), number) == Clamp(n)
  {
    hide KeyText;
    hide StatusName;
    hide PrintObject;
    hide ExtractString;
    hide ExtractInt;
    hide ReadBack;
    var fs, i := TransitionFields(t), TransitionRank(k);
    assert forall j | 0 <= j < |fs| :: TransitionRank(TRANSITION_KEYS[j]) == j;
    KeysDistinct(fs, TRANSITION_KEYS);
    assert TRANSITION_KEYS[i] == k;
    hide TransitionValue;
    FieldsReadBack(fs, i, text, number);
  }

  lemma KeysDistinct(fs: seq<Field>, keys: seq<Key>)
    requires |fs| == |keys| && forall i | 0 <= i < |fs| :: fs[i].key == KeyText(keys[i])
    requires forall i, j | 0 <= j < i < |keys| :: keys[j] != keys[i]
    ensures DistinctKeys(fs)
  {
    hide KeyText;
    forall i | 0 <= i < |fs|
      ensures IsKey(fs[i].key)
    {
      KeyTextShape(keys[i]);
    }
    forall i, j | 0 <= j < i < |fs|
      ensures fs[j].key != fs[i].key
    {
      KeyTextInjective(keys[j], keys[i]);
    }
  }

  lemma ReadBackStatus(s: SyncStatus)
    ensures StatusFromName(ReadBack(StatusName(s))) == Some(s)
  {
    EscapeStatus(s);
    ReadBackIdentity(StatusName(s));
  }

  lemma ReadBackLetter(c: byte)
    requires c as int >= 0x20
    ensures ReadBack([c]) == [c]
  {
    ReadBackIdentity([c]);
  }

  /** What a written event record is read back as. */
  function Distorted(r: Record): (d: Record) {
    r.(eventId := ReadBack(r.eventId), deviceSeq := Clamp(r.deviceSeq), bootId := ReadBack(r.bootId),
       eventType := ReadBack(r.eventType), payload := ReadBack(r.payload), payloadHash := ReadBack(r.payloadHash),
       expectedStateVersion := Clamp(r.expectedStateVersion), timeSyncStatus := ReadBack(r.timeSyncStatus),
       lastErrorCode := ReadBack(r.lastErrorCode))
  }

  lemma EventKind(r: Record)
    ensures KindOf(EncodeEvent(r)) == EVENT
  {
    hide EncodeEvent;
    hide ExtractString;
    hide KeyText;
    EventExtract(r, KIND, [], 0);
    ReadBackLetter('E');
  }

  lemma TransitionKind(t: Transition)
    ensures KindOf(EncodeTransition(t)) == TRANSITION
  {
    hide EncodeTransition;
    hide ExtractString;
    hide KeyText;
    TransitionExtract(t, KIND, [], 0);
    ReadBackLetter('T');
  }

  lemma EventReadBack(r: Record)
    ensures DecodeEvent(EncodeEvent(r)) ==
            if r.version != 1 || r.eventId == [] || r.eventType == [] then None else Some(Distorted(r))
  {
    ReadBackIdentity(r.eventId);
    ReadBackIdentity(r.eventType);
    ReadBackEmpty();
    hide EncodeEvent;
    hide ExtractString;
    hide ExtractInt;
    hide StatusName;
    hide StatusFromName;
    hide KeyText;
    hide ReadBack;
    hide KindOf;
    EventKind(r);
    EventExtract(r, RECORD_VERSION, [], -1);
    EventExtract(r, EVENT_ID, [], 0);
    EventExtract(r, DEVICE_SEQ, [], 0);
    EventExtract(r, BOOT_ID, [], 0);
    EventExtract(r, EVENT_TYPE, [], 0);
    EventExtract(r, PAYLOAD, [], 0);
    EventExtract(r, PAYLOAD_HASH, [], 0);
    EventExtract(r, EXPECTED_STATE_VERSION, [], 0);
    EventExtract(r, CREATED_UPTIME_MS, [], 0);
    EventExtract(r, TIME_SYNC_STATUS, [], 0);
    EventExtract(r, RETRY_COUNT, [], 0);
    EventExtract(r, LAST_ATTEMPT_UPTIME_MS, [], 0);
    EventExtract(r, LAST_ERROR_CODE, [], 0);
    EventExtract(r, SYNC_STATUS, [], 0);
    ReadBackStatus(r.syncStatus);
  }

  lemma ReadBackEmpty()
    ensures ReadBack([]) == []
  {
  }

  /** An event record round-trips if and only if it is encodable. */
  lemma EventRoundTrip(r: Record)
    ensures DecodeEvent(EncodeEvent(r)) == Some(r) <==> Encodable(r)
  {
    EventReadBack(r);
    hide DecodeEvent;
    hide EncodeEvent;
    ReadBackIdentity(r.eventId);
    ReadBackIdentity(r.bootId);
    ReadBackIdentity(r.eventType);
    ReadBackIdentity(r.payload);
    ReadBackIdentity(r.payloadHash);
    ReadBackIdentity(r.timeSyncStatus);
    ReadBackIdentity(r.lastErrorCode);
  }

  function DistortedTransition(t: Transition): (d: Transition) {
    t.(eventId := ReadBack(t.eventId), lastErrorCode := ReadBack(t.lastErrorCode))
  }

  lemma TransitionReadBack(t: Transition)
    ensures DecodeTransition(EncodeTransition(t)) == if t.eventId == [] then None else Some(DistortedTransition(t))
  {
    ReadBackIdentity(t.eventId);
    ReadBackEmpty();
    hide EncodeTransition;
    hide ExtractString;
    hide ExtractInt;
    hide StatusName;
    hide StatusFromName;
    hide KeyText;
    hide ReadBack;
    hide KindOf;
    TransitionKind(t);
    TransitionExtract(t, EVENT_ID, [], 0);
    TransitionExtract(t, SYNC_STATUS, [], 0);
    TransitionExtract(t, RETRY_COUNT, [], 0);
    TransitionExtract(t, LAST_ATTEMPT_UPTIME_MS, [], 0);
    TransitionExtract(t, LAST_ERROR_CODE, [], 0);
    ReadBackStatus(t.syncStatus);
  }

  /** A transition round-trips if and only if its identifier is not empty and its strings are clean. */
  lemma TransitionRoundTrip(t: Transition)
    ensures DecodeTransition(EncodeTransition(t)) == Some(t) <==> EncodableTransition(t)
  {
    TransitionReadBack(t);
    hide DecodeTransition;
    hide EncodeTransition;
    ReadBackIdentity(t.eventId);
    ReadBackIdentity(t.lastErrorCode);
  }

  // --- What an encoded body can grow to ---

  lemma {:induction false} EscapeReadBack(s: bytes)
    ensures |Escape(ReadBack(s))| <= |Escape(s)|
  {
    if s != [] {
      EscapeReadBack(s[1..]);
      EscapeReadBackByte(s[0]);
      EscapeJoins(ReadBackByte(s[0]), ReadBack(s[1..]));
    }
  }

  lemma EscapeReadBackByte(c: byte)
    ensures |Escape(ReadBackByte(c))| <= |EscapeByte(c)|
  {
    var b := ReadBackByte(c);
    if |b| == 5 {
      assert forall i | 0 <= i < 5 :: EscapeByte(b[i]) == [b[i]];
      EscapeUnchanged(b);
    } else {
      assert b == [c] && b[1..] == [];
      assert Escape(b[1..]) == [];
    }
  }

  lemma {:induction false} EscapeUnchanged(s: bytes)
    requires forall i | 0 <= i < |s| :: EscapeByte(s[i]) == [s[i]]
    ensures Escape(s) == s
  {
    if s != [] {
      EscapeUnchanged(s[1..]);
      assert s == [s[0]] + s[1..];
    }
  }

  lemma {:induction false} EscapeJoins(a: bytes, b: bytes)
    ensures Escape(a + b) == Escape(a) + Escape(b)
    decreases |a|
  {
    if a == [] {
      assert a + b == b;
    } else {
      assert (a + b)[1..] == a[1..] + b;
      EscapeJoins(a[1..], b);
    }
  }

  lemma {:induction false} DecimalMonotone(a: nat, b: nat)
    requires a <= b
    ensures |Decimal(a)| <= |Decimal(b)|
  {
    if a >= 10 {
      DecimalMonotone(a / 10, b / 10);
    }
  }

  /** Fields with the same keys and no longer values print no longer. */
  lemma {:induction false} PrintsNoLonger(a: seq<Field>, b: seq<Field>, sepA: byte, sepB: byte)
    requires |a| == |b|
    requires forall i | 0 <= i < |a| :: a[i].key == b[i].key && |Print(a[i].value)| <= |Print(b[i].value)|
    ensures |PrintFields(a, sepA)| <= |PrintFields(b, sepB)|
    decreases |a|
  {
    hide Print;
    if a != [] {
      PrintsNoLonger(a[1..], b[1..], ',', ',');
    }
  }

  lemma TextNoLonger(s: bytes)
    ensures |Print(Text(ReadBack(s)))| <= |Print(Text(s))|
  {
    EscapeReadBack(s);
  }

  lemma ValueNoLonger(r: Record, k: Key)
    ensures |Print(EventValue(Distorted(r), k))| <= |Print(EventValue(r, k))|
  {
    DecimalMonotone(Clamp(r.deviceSeq), r.deviceSeq);
    DecimalMonotone(Clamp(r.expectedStateVersion), r.expectedStateVersion);
    var v := EventValue(r, k);
    if v.Text? {
      TextNoLonger(v.text);
    }
    hide Escape;
    hide Decimal;
    hide StatusName;
    hide ReadBack;
  }

  /** A record that was read back encodes to no more bytes than the one that was written. */
  lemma DistortedNoLonger(r: Record)
    ensures |EncodeEvent(Distorted(r))| <= |EncodeEvent(r)|
  {
    hide EventValue;
    hide Distorted;
    hide Print;
    hide KeyText;
    hide PrintFields;
    forall k
      ensures |Print(EventValue(Distorted(r), k))| <= |Print(EventValue(r, k))|
    {
      ValueNoLonger(r, k);
    }
    PrintsNoLonger(EventFields(Distorted(r)), EventFields(r), '{', '{');
  }

  lemma DistortedTransitionNoLonger(t: Transition)
    ensures |EncodeTransition(DistortedTransition(t))| <= |EncodeTransition(t)|
  {
    EscapeReadBack(t.eventId);
    EscapeReadBack(t.lastErrorCode);
    hide Escape;
    hide Decimal;
    hide KeyText;
    hide StatusName;
    hide ReadBack;
    hide PrintFields;
    PrintsNoLonger(TransitionFields(DistortedTransition(t)), TransitionFields(t), '{', '{');
  }

  lemma {:induction false} PrintSplits(fs: seq<Field>, n: nat, sep: byte)
    requires n <= |fs|
    ensures |PrintFields(fs, sep)| == |PrintFields(fs[..n], sep)| - 1 + |PrintFields(fs[n..], ',')|
    decreases n
  {
    if n == 0 {
      assert fs[..0] == [] && fs[0..] == fs;
      OnlySeparator(fs, sep);
    } else {
      PrintSplits(fs[1..], n - 1, ',');
      assert fs[..n][1..] == fs[1..][..n - 1] && fs[1..][n - 1..] == fs[n..];
    }
  }

  lemma OnlySeparator(fs: seq<Field>, sep: byte)
    ensures |PrintFields(fs, sep)| == |PrintFields(fs, ',')|
  {
  }

  /** Merging a transition into a record grows its encoding by less than the transition's own encoding. */
  lemma MergedNoLonger(r: Record, m: Record, t: Transition)
    requires m == r.(syncStatus := t.syncStatus, retryCount := t.retryCount, lastAttemptUptimeMs := t.lastAttemptUptimeMs,
                     lastErrorCode := t.lastErrorCode)
    ensures |EncodeEvent(m)| <= |EncodeEvent(r)| + |EncodeTransition(t)|
  {
    hide PrintFields;
    hide KeyText;
    hide StatusName;
    var fs, fs' := EventFields(r), EventFields(m);
    assert forall i | 0 <= i < 11 :: EventValue(r, EVENT_KEYS[i]) == EventValue(m, EVENT_KEYS[i]);
    assert fs[..11] == fs'[..11];
    PrintSplits(fs, 11, '{');
    PrintSplits(fs', 11, '{');
    DeliveryFieldsFit(m, t);
  }

  lemma DeliveryFieldsFit(m: Record, t: Transition)
    requires m.syncStatus == t.syncStatus && m.retryCount == t.retryCount
    requires m.lastAttemptUptimeMs == t.lastAttemptUptimeMs && m.lastErrorCode == t.lastErrorCode
    ensures |PrintFields(EventFields(m)[11..], ',')| <= |EncodeTransition(t)|
  {
    hide PrintFields;
    hide KeyText;
    hide StatusName;
    var d, e := EventFields(m)[11..], TransitionFields(t);
    assert d[0] == e[3] && d[1] == e[4] && d[2] == e[5] && d[3] == e[2];
    PrintSplits(d, 3, ',');
    assert d[..3] == e[3..];
    assert d[3..] == e[2..3];
    PrintSplits(e, 2, '{');
    PrintSplits(e[2..], 1, ',');
    assert e[2..][..1] == e[2..3] && e[2..][1..] == e[3..];
    OnlySeparator(e[2..], '{');
  }

  // --- What the decoders refuse ---

  /** The text a body carries under a key, and the number; nothing and the default when it carries none. */
  function TextIn(fs: seq<Field>, k: Key): (text: bytes) {
    match Get(fs, KeyText(k)) case Some(Text(t)) => ReadBack(t) case _ => []
  }

  function NumberIn(fs: seq<Field>, k: Key, default: int): (n: int) {
    match Get(fs, KeyText(k)) case Some(Number(n)) => Clamp(n) case _ => default
  }

  predicate KnownStatus(name: bytes) {
    name == "PENDING" || name == "IN_FLIGHT" || name == "ACKED" || name == "REJECTED" || name == "CONFLICT" || name == "HUMAN_REVIEW"
  }

  lemma FoundIn(fs: seq<Field>, k: Key, default: int)
    requires forall f <- fs :: IsKey(f.key)
    ensures ExtractString(PrintObject(fs), KeyText(k), []) == TextIn(fs, k)
    ensures ExtractInt(PrintObject(fs), KeyText(k), default) == NumberIn(fs, k, default)
  {
    KeyTextShape(k);
    hide KeyText;
    hide ExtractString;
    hide ExtractInt;
    hide PrintObject;
    ExtractText(fs, KeyText(k), []);
    ExtractNumber(fs, KeyText(k), default);
  }

  lemma StatusKnown(name: bytes)
    ensures StatusFromName(name).Some? <==> KnownStatus(name)
  {
  }

  /** What is decoded: texts as they read back, numbers reduced to the width of their field, and zero where there is none. */
  lemma DecodedFields(fs: seq<Field>)
    requires forall f <- fs :: IsKey(f.key)
    ensures var r := DecodeEvent(PrintObject(fs));
            r.Some? ==>
              && r.value.version == 1 && r.value.eventId == TextIn(fs, EVENT_ID) && r.value.eventType == TextIn(fs, EVENT_TYPE)
              && r.value.bootId == TextIn(fs, BOOT_ID) && r.value.payload == TextIn(fs, PAYLOAD)
              && r.value.payloadHash == TextIn(fs, PAYLOAD_HASH) && r.value.timeSyncStatus == TextIn(fs, TIME_SYNC_STATUS)
              && r.value.lastErrorCode == TextIn(fs, LAST_ERROR_CODE)
              && r.value.deviceSeq == NumberIn(fs, DEVICE_SEQ, 0) % 0x1_0000_0000_0000_0000
              && r.value.expectedStateVersion == NumberIn(fs, EXPECTED_STATE_VERSION, 0) % 0x1_0000_0000_0000_0000
              && r.value.createdUptimeMs == NumberIn(fs, CREATED_UPTIME_MS, 0) % 0x1_0000_0000
              && r.value.retryCount == NumberIn(fs, RETRY_COUNT, 0) % 0x1_0000_0000
              && r.value.lastAttemptUptimeMs == NumberIn(fs, LAST_ATTEMPT_UPTIME_MS, 0) % 0x1_0000_0000
              && StatusName(r.value.syncStatus) == TextIn(fs, SYNC_STATUS)
    ensures var t := DecodeTransition(PrintObject(fs));
            t.Some? ==>
              && t.value.eventId == TextIn(fs, EVENT_ID) && t.value.lastErrorCode == TextIn(fs, LAST_ERROR_CODE)
              && t.value.retryCount == NumberIn(fs, RETRY_COUNT, 0) % 0x1_0000_0000
              && t.value.lastAttemptUptimeMs == NumberIn(fs, LAST_ATTEMPT_UPTIME_MS, 0) % 0x1_0000_0000
              && StatusName(t.value.syncStatus) == TextIn(fs, SYNC_STATUS)
  {
    FoundIn(fs, EVENT_ID, 0);
    FoundIn(fs, EVENT_TYPE, 0);
    FoundIn(fs, BOOT_ID, 0);
    FoundIn(fs, PAYLOAD, 0);
    FoundIn(fs, PAYLOAD_HASH, 0);
    FoundIn(fs, TIME_SYNC_STATUS, 0);
    FoundIn(fs, LAST_ERROR_CODE, 0);
    FoundIn(fs, DEVICE_SEQ, 0);
    FoundIn(fs, EXPECTED_STATE_VERSION, 0);
    FoundIn(fs, CREATED_UPTIME_MS, 0);
    FoundIn(fs, RETRY_COUNT, 0);
    FoundIn(fs, LAST_ATTEMPT_UPTIME_MS, 0);
    FoundIn(fs, SYNC_STATUS, 0);
    hide KeyText;
    hide ExtractString;
    hide ExtractInt;
    hide PrintObject;
    hide TextIn;
    hide NumberIn;
    hide StatusFromName;
    hide StatusName;
    hide KindOf;
  }

  /** Of any printed object, whatever other members it has, the event decoder takes exactly those of the one version it knows
    * that name an event, its type and a status there is; the transition decoder those that name an event and a status. */
  lemma DecodedExactly(fs: seq<Field>)
    requires forall f <- fs :: IsKey(f.key)
    ensures DecodeEvent(PrintObject(fs)).Some? <==>
              && TextIn(fs, KIND) == "E" && NumberIn(fs, RECORD_VERSION, -1) == 1
              && TextIn(fs, EVENT_ID) != [] && TextIn(fs, EVENT_TYPE) != [] && KnownStatus(TextIn(fs, SYNC_STATUS))
    ensures DecodeTransition(PrintObject(fs)).Some? <==>
              TextIn(fs, KIND) == "T" && TextIn(fs, EVENT_ID) != [] && KnownStatus(TextIn(fs, SYNC_STATUS))
  {
    FoundIn(fs, KIND, 0);
    FoundIn(fs, RECORD_VERSION, -1);
    FoundIn(fs, EVENT_ID, 0);
    FoundIn(fs, EVENT_TYPE, 0);
    FoundIn(fs, SYNC_STATUS, 0);
    StatusKnown(TextIn(fs, SYNC_STATUS));
    hide KeyText;
    hide ExtractString;
    hide ExtractInt;
    hide PrintObject;
    hide TextIn;
    hide NumberIn;
    hide StatusFromName;
    hide KnownStatus;
  }
}
