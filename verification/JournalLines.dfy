/** The journal as another program would read it: what stands at which byte of a frame, and which members, under which
  * names, a strict reader of JSON finds in the body of one. */
module JournalLines {
  import opened Bytes
  import opened Crc32
  import opened Frames
  import opened JournalRecord
  import J = Json
  import P = ProtocolCodec
  import R = BodyReader

  /** The bytes of a frame: the length of the body, lowest byte first, the body, its CRC in the same order, and 0xC3. */
  lemma FrameLayout(body: bytes)
    requires Storable(body)
    ensures var f, n := Frame(body), |body|;
            && |f| == n + 9 && f[4..4 + n] == body && f[n + 8] as int == 0xC3
            && f[0] as int + 0x100 * (f[1] as int) + 0x1_0000 * (f[2] as int) + 0x100_0000 * (f[3] as int) == n
            && f[n + 4] as int + 0x100 * (f[n + 5] as int) + 0x1_0000 * (f[n + 6] as int) + 0x100_0000 * (f[n + 7] as int) == Crc(body)
  {
    var f, n := Frame(body), |body|;
    U32RoundTrip(n);
    U32RoundTrip(Crc(body));
    var len, crc := U32ToBytes(n), U32ToBytes(Crc(body));
    hide Crc;
    hide U32ToBytes;
    assert f == len + body + crc + [COMMIT_MARKER];
    assert f[0] == len[0] && f[1] == len[1] && f[2] == len[2] && f[3] == len[3];
    assert f[n + 4] == crc[0] && f[n + 5] == crc[1] && f[n + 6] == crc[2] && f[n + 7] == crc[3];
  }

  // --- The members of a body ---

  function ValueOf(v: J.Value): (r: R.Json) {
    match v case Text(t) => R.Str(t) case Number(n) => R.Num(n)
  }

  function PrintedOf(fs: seq<J.Field>): (ps: seq<R.Printed>)
    ensures |ps| == |fs|
    ensures forall i | 0 <= i < |fs| :: ps[i] == R.Printed(fs[i].key, J.Print(fs[i].value), ValueOf(fs[i].value))
  {
    if fs == [] then []
    else [R.Printed(fs[0].key, J.Print(fs[0].value), ValueOf(fs[0].value))] + PrintedOf(fs[1..])
  }

  lemma {:induction false} RestIsFields(fs: seq<J.Field>)
    ensures P.Rest(R.MembersOf(PrintedOf(fs))) == J.PrintFields(fs, ',')
    decreases |fs|
  {
    if fs != [] {
      RestIsFields(fs[1..]);
      var ps := PrintedOf(fs);
      R.RestShape(ps);
      assert ps[1..] == PrintedOf(fs[1..]);
      hide J.Needle;
      hide J.Print;
    }
  }

  lemma ObjectIsFields(fs: seq<J.Field>)
    requires fs != []
    ensures P.Object(R.MembersOf(PrintedOf(fs))) == J.PrintObject(fs)
  {
    var ps := PrintedOf(fs);
    R.ObjectShape(ps);
    assert ps[1..] == PrintedOf(fs[1..]);
    RestIsFields(fs[1..]);
    hide J.Needle;
    hide J.Print;
    hide P.Rest;
  }

  lemma ValueReads(v: J.Value)
    ensures R.Reads(J.Print(v), ValueOf(v))
  {
    match v {
      case Text(t) =>
        R.QuotedReads(t);
        assert J.Print(v) == P.Quoted(J.Escape(t));
      case Number(n) => R.DecimalReads(n);
    }
    hide R.Reads;
  }

  lemma KeyPlain(key: bytes)
    requires J.IsKey(key)
    ensures R.Plain(key)
  {
    assert forall i | 0 <= i < |key| :: key[i] in key;
  }

  /** A printed object of distinct keys is read whole, and under each key its own value is found. */
  lemma ObjectRead(fs: seq<J.Field>, i: nat)
    requires DistinctKeys(fs) && i < |fs|
    ensures var v := R.Parsed(J.PrintObject(fs));
            v.Some? && R.Get(v.value, fs[i].key) == ValueOf(fs[i].value)
  {
    hide R.Reads;
    hide R.Plain;
    hide R.Parsed;
    hide R.Get;
    hide J.PrintObject;
    hide P.Object;
    var ps := PrintedOf(fs);
    forall k | 0 <= k < |ps|
      ensures R.Plain(ps[k].name) && R.Reads(ps[k].text, ps[k].value)
    {
      assert fs[k] in fs;
      KeyPlain(fs[k].key);
      ValueReads(fs[k].value);
    }
    assert R.Apart(ps);
    R.ParsedWhole(ps);
    ObjectIsFields(fs);
    R.Found(ps, i);
  }

  lemma EventMember(r: Record, k: Key)
    ensures var v := R.Parsed(EncodeEvent(r));
            v.Some? && R.Get(v.value, KeyText(k)) == ValueOf(EventValue(r, k))
  {
    hide KeyText;
    hide StatusName;
    hide J.PrintObject;
    hide R.Parsed;
    hide R.Get;
    var fs, i := EventFields(r), EventRank(k);
    assert forall j | 0 <= j < |fs| :: EventRank(EVENT_KEYS[j]) == j;
    KeysDistinct(fs, EVENT_KEYS);
    assert EVENT_KEYS[i] == k;
    hide EventValue;
    hide ValueOf;
    ObjectRead(fs, i);
  }

  lemma TransitionMember(t: Transition, k: Key)
    requires k in TRANSITION_KEYS
    ensures var v := R.Parsed(EncodeTransition(t));
            v.Some? && R.Get(v.value, KeyText(k)) == ValueOf(TransitionValue(t, k))
  {
    hide KeyText;
    hide StatusName;
    hide J.PrintObject;
    hide R.Parsed;
    hide R.Get;
    var fs, i := TransitionFields(t), TransitionRank(k);
    assert forall j | 0 <= j < |fs| :: TransitionRank(TRANSITION_KEYS[j]) == j;
    KeysDistinct(fs, TRANSITION_KEYS);
    assert TRANSITION_KEYS[i] == k;
    hide TransitionValue;
    hide ValueOf;
    ObjectRead(fs, i);
  }

  /** A status by the name it has on flash. */
  function StatusNamed(name: R.Json): (s: Option<SyncStatus>) {
    if name == R.Str("PENDING") then Some(PENDING)
    else if name == R.Str("IN_FLIGHT") then Some(IN_FLIGHT)
    else if name == R.Str("ACKED") then Some(ACKED)
    else if name == R.Str("REJECTED") then Some(REJECTED)
    else if name == R.Str("CONFLICT") then Some(CONFLICT)
    else if name == R.Str("HUMAN_REVIEW") then Some(HUMAN_REVIEW)
    else None
  }

  lemma StatusIsNamed(s: SyncStatus)
    ensures StatusNamed(R.Str(StatusName(s))) == Some(s)
  {
  }

  /** The names on flash. */
  const KIND_NAME: bytes := "k"
  const RECORD_VERSION_NAME: bytes := "record_version"
  const EVENT_ID_NAME: bytes := "event_id"
  const DEVICE_SEQ_NAME: bytes := "device_seq"
  const BOOT_ID_NAME: bytes := "boot_id"
  const EVENT_TYPE_NAME: bytes := "event_type"
  const PAYLOAD_NAME: bytes := "payload"
  const PAYLOAD_HASH_NAME: bytes := "payload_hash"
  const EXPECTED_STATE_VERSION_NAME: bytes := "expected_state_version"
  const CREATED_UPTIME_MS_NAME: bytes := "created_uptime_ms"
  const TIME_SYNC_STATUS_NAME: bytes := "time_sync_status"
  const RETRY_COUNT_NAME: bytes := "retry_count"
  const LAST_ATTEMPT_UPTIME_MS_NAME: bytes := "last_attempt_uptime_ms"
  const LAST_ERROR_CODE_NAME: bytes := "last_error_code"
  const SYNC_STATUS_NAME: bytes := "sync_status"

  /** What an event body says: everything of the record, each under its name. */
  ghost predicate SaysEvent(v: R.Json, r: Record) {
    && R.Get(v, KIND_NAME) == R.Str("E") && R.Get(v, RECORD_VERSION_NAME) == R.Num(r.version)
    && R.Get(v, EVENT_ID_NAME) == R.Str(r.eventId) && R.Get(v, DEVICE_SEQ_NAME) == R.Num(r.deviceSeq)
    && R.Get(v, BOOT_ID_NAME) == R.Str(r.bootId) && R.Get(v, EVENT_TYPE_NAME) == R.Str(r.eventType)
    && R.Get(v, PAYLOAD_NAME) == R.Str(r.payload) && R.Get(v, PAYLOAD_HASH_NAME) == R.Str(r.payloadHash)
    && R.Get(v, EXPECTED_STATE_VERSION_NAME) == R.Num(r.expectedStateVersion)
    && R.Get(v, CREATED_UPTIME_MS_NAME) == R.Num(r.createdUptimeMs)
    && R.Get(v, TIME_SYNC_STATUS_NAME) == R.Str(r.timeSyncStatus)
    && R.Get(v, RETRY_COUNT_NAME) == R.Num(r.retryCount)
    && R.Get(v, LAST_ATTEMPT_UPTIME_MS_NAME) == R.Num(r.lastAttemptUptimeMs)
    && R.Get(v, LAST_ERROR_CODE_NAME) == R.Str(r.lastErrorCode)
    && StatusNamed(R.Get(v, SYNC_STATUS_NAME)) == Some(r.syncStatus)
  }

  ghost predicate SaysTransition(v: R.Json, t: Transition) {
    && R.Get(v, KIND_NAME) == R.Str("T") && R.Get(v, EVENT_ID_NAME) == R.Str(t.eventId)
    && StatusNamed(R.Get(v, SYNC_STATUS_NAME)) == Some(t.syncStatus)
    && R.Get(v, RETRY_COUNT_NAME) == R.Num(t.retryCount)
    && R.Get(v, LAST_ATTEMPT_UPTIME_MS_NAME) == R.Num(t.lastAttemptUptimeMs)
    && R.Get(v, LAST_ERROR_CODE_NAME) == R.Str(t.lastErrorCode)
  }

  lemma NamesOnFlash()
    ensures KeyText(KIND) == KIND_NAME && KeyText(RECORD_VERSION) == RECORD_VERSION_NAME
    ensures KeyText(EVENT_ID) == EVENT_ID_NAME && KeyText(DEVICE_SEQ) == DEVICE_SEQ_NAME
    ensures KeyText(BOOT_ID) == BOOT_ID_NAME && KeyText(EVENT_TYPE) == EVENT_TYPE_NAME
    ensures KeyText(PAYLOAD) == PAYLOAD_NAME && KeyText(PAYLOAD_HASH) == PAYLOAD_HASH_NAME
    ensures KeyText(EXPECTED_STATE_VERSION) == EXPECTED_STATE_VERSION_NAME
    ensures KeyText(CREATED_UPTIME_MS) == CREATED_UPTIME_MS_NAME && KeyText(TIME_SYNC_STATUS) == TIME_SYNC_STATUS_NAME
    ensures KeyText(RETRY_COUNT) == RETRY_COUNT_NAME && KeyText(LAST_ATTEMPT_UPTIME_MS) == LAST_ATTEMPT_UPTIME_MS_NAME
    ensures KeyText(LAST_ERROR_CODE) == LAST_ERROR_CODE_NAME && KeyText(SYNC_STATUS) == SYNC_STATUS_NAME
  {
  }

  /** Whatever the record holds, its line is read as the record by anyone who knows the names. */
  lemma EventLineRead(r: Record)
    ensures var v := R.Parsed(EncodeEvent(r)); v.Some? && SaysEvent(v.value, r)
  {
    NamesOnFlash();
    StatusIsNamed(r.syncStatus);
    hide KeyText;
    hide StatusName;
    hide StatusNamed;
    hide EncodeEvent;
    hide R.Parsed;
    hide R.Get;
    EventMember(r, KIND);
    EventMember(r, RECORD_VERSION);
    EventMember(r, EVENT_ID);
    EventMember(r, DEVICE_SEQ);
    EventMember(r, BOOT_ID);
    EventMember(r, EVENT_TYPE);
    EventMember(r, PAYLOAD);
    EventMember(r, PAYLOAD_HASH);
    EventMember(r, EXPECTED_STATE_VERSION);
    EventMember(r, CREATED_UPTIME_MS);
    EventMember(r, TIME_SYNC_STATUS);
    EventMember(r, RETRY_COUNT);
    EventMember(r, LAST_ATTEMPT_UPTIME_MS);
    EventMember(r, LAST_ERROR_CODE);
    EventMember(r, SYNC_STATUS);
  }

  lemma TransitionLineRead(t: Transition)
    ensures var v := R.Parsed(EncodeTransition(t)); v.Some? && SaysTransition(v.value, t)
  {
    NamesOnFlash();
    StatusIsNamed(t.syncStatus);
    hide KeyText;
    hide StatusName;
    hide StatusNamed;
    hide EncodeTransition;
    hide R.Parsed;
    hide R.Get;
    TransitionMember(t, KIND);
    TransitionMember(t, EVENT_ID);
    TransitionMember(t, SYNC_STATUS);
    TransitionMember(t, RETRY_COUNT);
    TransitionMember(t, LAST_ATTEMPT_UPTIME_MS);
    TransitionMember(t, LAST_ERROR_CODE);
  }
}
