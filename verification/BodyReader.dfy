/** The server's reading of an event body: a strict reader of compact JSON, and the members the handler of /events looks
  * up in it, under the names it knows them by. What the device prints is read back as what it meant. */
module BodyReader {
  import opened Bytes
  import J = Json
  import P = ProtocolCodec
  import S = MockBackend

  // --- JSON ---

  datatype Json = Null | Num(n: int) | Str(text: bytes) | Obj(members: map<bytes, Json>)

  function HexValue(c: byte): (v: Option<nat>)
    ensures v.Some? ==> v.value < 16
  {
    if '0' <= c <= '9' then Some(c as int - '0' as int)
    else if 'a' <= c <= 'f' then Some(c as int - 'a' as int + 10)
    else if 'A' <= c <= 'F' then Some(c as int - 'A' as int + 10)
    else None
  }

  /** The two-digit code points; no other is ever printed. */
  function CodeAt(s: bytes): (c: Option<byte>)
    requires |s| >= 4
  {
    if s[0] != '0' || s[1] != '0' || HexValue(s[2]).None? || HexValue(s[3]).None? then None
    else Some(ToByte(16 * HexValue(s[2]).value + HexValue(s[3]).value))
  }

  /** An escape behind its backslash, and what follows it. */
  function EscapeAt(s: bytes): (r: Option<(byte, bytes)>)
    ensures r.Some? ==> |r.value.1| < |s|
  {
    if s == [] then None
    else if s[0] == '"' || s[0] == '\\' || s[0] == '/' then Some((s[0], s[1..]))
    else if s[0] == 'n' then Some(('\n', s[1..]))
    else if s[0] == 'r' then Some(('\r', s[1..]))
    else if s[0] == 't' then Some(('\t', s[1..]))
    else if s[0] == 'u' && |s| >= 5 && CodeAt(s[1..5]).Some? then Some((CodeAt(s[1..5]).value, s[5..]))
    else None
  }

  /** A string behind its opening quote. A bare control byte is an error. */
  function TextAt(s: bytes): (r: Option<(bytes, bytes)>)
    ensures r.Some? ==> |r.value.1| < |s|
    decreases |s|
  {
    if s == [] || s[0] as int < 0x20 then None
    else if s[0] == '"' then Some(([], s[1..]))
    else if s[0] != '\\' then Prefixed(s[0], TextAt(s[1..]))
    else match EscapeAt(s[1..])
      case None => None
      case Some((c, rest)) => Prefixed(c, TextAt(rest))
  }

  function Prefixed(c: byte, r: Option<(bytes, bytes)>): (r': Option<(bytes, bytes)>)
    ensures r'.Some? <==> r.Some?
    ensures r.Some? ==> r'.value == ([c] + r.value.0, r.value.1)
  {
    match r case None => None case Some((text, rest)) => Some(([c] + text, rest))
  }

  function NumberAt(s: bytes): (r: Option<(int, bytes)>)
    ensures r.Some? ==> |r.value.1| < |s|
  {
    var negative := s != [] && s[0] == '-';
    var t := if negative then s[1..] else s;
    var digits := J.LeadingDigits(t);
    if digits == [] || |digits| > |t| then None
    else
      var n: int := J.DecimalValue(digits);
      Some((if negative then -n else n, t[|digits|..]))
  }

  function ValueAt(s: bytes): (r: Option<(Json, bytes)>)
    ensures r.Some? ==> |r.value.1| < |s|
    decreases |s|
  {
    if s == [] then None
    else if s[0] == '{' then
      if |s| > 1 && s[1] == '}' then Some((Obj(map[]), s[2..]))
      else match MembersAt(s[1..]) case None => None case Some((members, rest)) => Some((Obj(members), rest))
    else if s[0] == '"' then
      match TextAt(s[1..]) case None => None case Some((text, rest)) => Some((Str(text), rest))
    else if |s| >= 4 && s[..4] == "null" then Some((Null, s[4..]))
    else match NumberAt(s) case None => None case Some((n, rest)) => Some((Num(n), rest))
  }

  /** The members of an object, up to its closing brace; of two of one name the later counts. */
  function MembersAt(s: bytes): (r: Option<(map<bytes, Json>, bytes)>)
    ensures r.Some? ==> |r.value.1| < |s|
    decreases |s|
  {
    if s == [] || s[0] != '"' then None
    else match TextAt(s[1..])
      case None => None
      case Some((name, colon)) =>
        if colon == [] || colon[0] != ':' then None
        else match ValueAt(colon[1..])
          case None => None
          case Some((value, more)) => MoreAt(name, value, more)
  }

  function MoreAt(name: bytes, value: Json, s: bytes): (r: Option<(map<bytes, Json>, bytes)>)
    ensures r.Some? ==> |r.value.1| < |s|
    decreases |s|
  {
    if s == [] then None
    else if s[0] == '}' then Some((map[name := value], s[1..]))
    else if s[0] != ',' then None
    else match MembersAt(s[1..])
      case None => None
      case Some((members, rest)) => Some((map[name := value] + members, rest))
  }

  function Parsed(s: bytes): (v: Option<Json>) {
    var r := ValueAt(s);
    if r.Some? && r.value.1 == [] then Some(r.value.0) else None
  }

  // --- What the handler looks up ---

  /** get: Null for what is not there. */
  function Get(v: Json, name: bytes): (member: Json) {
    if v.Obj? && name in v.members then v.members[name] else Null
  }

  function TextOf(v: Json): (text: Option<bytes>) {
    if v.Str? then Some(v.text) else None
  }

  function NumberOf(v: Json): (n: Option<int>) {
    if v.Num? then Some(v.n) else None
  }

  /** The members, by name. */
  const PROTOCOL_VERSION: bytes := "protocol_version"
  const DEVICE: bytes := "device"
  const EVENT: bytes := "event"
  const TIME: bytes := "time"
  const CONTEXT: bytes := "context"
  const PAYLOAD: bytes := "payload"
  const DEVICE_ID: bytes := "device_id"
  const HARDWARE_ID: bytes := "hardware_id"
  const BOOT_ID: bytes := "boot_id"
  const EVENT_ID: bytes := "event_id"
  const DEVICE_SEQ: bytes := "device_seq"
  const TYPE: bytes := "type"
  const TIMESTAMP_DEVICE: bytes := "timestamp_device"
  const UPTIME_MS: bytes := "uptime_ms"
  const SYNC_STATUS: bytes := "sync_status"
  const SYNC_AGE_S: bytes := "sync_age_s"
  const EXPECTED_STATE_VERSION: bytes := "expected_state_version"
  const WORKFLOW_VERSION: bytes := "workflow_version"
  const UI_BUNDLE_VERSION: bytes := "ui_bundle_version"
  const SOURCE: bytes := "source"
  const RAW: bytes := "raw"
  const QUANTITY_GOOD: bytes := "quantity_good"
  const QUANTITY_DEFECT: bytes := "quantity_defect"
  const QUANTITY_REWORK: bytes := "quantity_rework"

  /** All that an event body says. */
  datatype Reading = Reading(
    protocol: Option<int>, deviceId: bytes, hardwareId: Option<bytes>, bootId: Option<bytes>,
    eventId: Option<bytes>, deviceSeq: Option<int>, event: S.EventType,
    timestamp: Option<bytes>, uptimeMs: Option<int>, syncStatus: Option<P.TimeSyncStatus>, syncAgeS: Option<int>,
    expectedVersion: Option<int>, workflowVersion: Option<int>, uiBundleVersion: Option<int>,
    source: Option<bytes>, good: Option<int>, defect: Option<int>, rework: Option<int>)

  function EventNamed(name: Json, raw: bytes): (event: S.EventType) {
    if name == Str("SCAN") then S.SCAN(raw)
    else if name == Str("FINISH_REQUESTED") then S.FINISH_REQUESTED
    else if name == Str("QUANTITY_SUBMITTED") then S.QUANTITY_SUBMITTED
    else if name == Str("CANCEL_REQUESTED") then S.CANCEL_REQUESTED
    else S.UNKNOWN_TYPE
  }

  function StatusNamed(name: Json): (status: Option<P.TimeSyncStatus>) {
    if name == Str("UNSYNCED") then Some(P.UNSYNCED)
    else if name == Str("SYNCING") then Some(P.SYNCING)
    else if name == Str("SYNCED") then Some(P.SYNCED)
    else if name == Str("STALE") then Some(P.STALE)
    else if name == Str("FAILED") then Some(P.FAILED)
    else None
  }

  /** Who sent it: the device id, else the hardware id. */
  function Sender(device: Json): (id: bytes) {
    var deviceId, hardwareId := TextOf(Get(device, DEVICE_ID)), TextOf(Get(device, HARDWARE_ID));
    if deviceId.Some? && deviceId.value != [] then deviceId.value
    else if hardwareId.Some? && hardwareId.value != [] then hardwareId.value
    else "unknown"
  }

  function Looked(device: Json, event: Json, time: Json, context: Json, payload: Json, protocol: Json): (r: Reading) {
    Reading(
      NumberOf(protocol), Sender(device), TextOf(Get(device, HARDWARE_ID)), TextOf(Get(device, BOOT_ID)),
      TextOf(Get(event, EVENT_ID)), NumberOf(Get(event, DEVICE_SEQ)),
      EventNamed(Get(event, TYPE), GetOr(TextOf(Get(payload, RAW)), [])),
      TextOf(Get(time, TIMESTAMP_DEVICE)), NumberOf(Get(time, UPTIME_MS)), StatusNamed(Get(time, SYNC_STATUS)),
      NumberOf(Get(time, SYNC_AGE_S)),
      NumberOf(Get(context, EXPECTED_STATE_VERSION)), NumberOf(Get(context, WORKFLOW_VERSION)),
      NumberOf(Get(context, UI_BUNDLE_VERSION)),
      TextOf(Get(payload, SOURCE)), NumberOf(Get(payload, QUANTITY_GOOD)), NumberOf(Get(payload, QUANTITY_DEFECT)),
      NumberOf(Get(payload, QUANTITY_REWORK)))
  }

  function Read(body: bytes): (r: Option<Reading>) {
    match Parsed(body)
    case None => None
    case Some(v) =>
      Some(Looked(Get(v, DEVICE), Get(v, EVENT), Get(v, TIME), Get(v, CONTEXT), Get(v, PAYLOAD),
                  Get(v, PROTOCOL_VERSION)))
  }

  /** The request the handler makes of a body. A repeated event is compared by its whole text. */
  function RequestOf(body: bytes): (r: S.Request) {
    match Read(body)
    case None => S.Request([], [], S.UNKNOWN_TYPE, None, None, body)
    case Some(x) => S.Request(x.deviceId, GetOr(x.eventId, []), x.event, x.good, x.expectedVersion, body)
  }

  // --- Reading what was printed ---

  /** Wherever this text stands in an object it is read as this value. */
  ghost predicate Reads(text: bytes, v: Json) {
    forall tail: bytes | tail != [] && (tail[0] == ',' || tail[0] == '}') :: ValueAt(text + tail) == Some((v, tail))
  }

  lemma TextEnds(rest: bytes)
    ensures TextAt(['"'] + rest) == Some(([], rest))
  {
    var s := ['"'] + rest;
    assert s[1..] == rest;
  }

  lemma TextPlain(c: byte, rest: bytes)
    requires c as int >= 0x20 && c != '"' && c != '\\'
    ensures TextAt([c] + rest) == Prefixed(c, TextAt(rest))
  {
    var s := [c] + rest;
    assert s[1..] == rest;
    hide EscapeAt;
  }

  lemma TextEscaped(escape: bytes, c: byte, rest: bytes)
    requires EscapeAt(escape + rest) == Some((c, rest))
    ensures TextAt(['\\'] + escape + rest) == Prefixed(c, TextAt(rest))
  {
    var s := ['\\'] + escape + rest;
    assert s[1..] == escape + rest;
    hide EscapeAt;
  }

  lemma ShortEscape(e: byte, c: byte, rest: bytes)
    requires (e, c) in {('"', '"'), ('\\', '\\'), ('n', '\n'), ('r', '\r'), ('t', '\t')}
    ensures EscapeAt([e] + rest) == Some((c, rest))
  {
    var s := [e] + rest;
    assert s[1..] == rest;
    hide CodeAt;
  }

  lemma LongEscape(c: byte, rest: bytes)
    requires c as int < 0x20
    ensures EscapeAt(['u', '0', '0', J.HexDigit(c as int / 16), J.HexDigit(c as int % 16)] + rest) == Some((c, rest))
  {
    var code := ['0', '0', J.HexDigit(c as int / 16), J.HexDigit(c as int % 16)];
    var s := ['u'] + code + rest;
    HexDigits(c);
    assert ['u', '0', '0', J.HexDigit(c as int / 16), J.HexDigit(c as int % 16)] + rest == s;
    assert s[1..5] == code && s[5..] == rest;
    hide CodeAt;
    hide J.HexDigit;
  }

  lemma HexDigits(c: byte)
    requires c as int < 0x20
    ensures CodeAt(['0', '0', J.HexDigit(c as int / 16), J.HexDigit(c as int % 16)]) == Some(c)
  {
  }

  lemma EscapeReads(c: byte, rest: bytes)
    ensures TextAt(J.EscapeByte(c) + rest) == Prefixed(c, TextAt(rest))
  {
    hide TextAt;
    hide EscapeAt;
    if c == '"' || c == '\\' {
      ShortEscape(c, c, rest);
      EscapeWith([c], c, rest);
    } else if c == '\n' {
      ShortEscape('n', c, rest);
      EscapeWith(['n'], c, rest);
    } else if c == '\r' {
      ShortEscape('r', c, rest);
      EscapeWith(['r'], c, rest);
    } else if c == '\t' {
      ShortEscape('t', c, rest);
      EscapeWith(['t'], c, rest);
    } else if c as int < 0x20 {
      LongEscape(c, rest);
      EscapeWith(['u', '0', '0', J.HexDigit(c as int / 16), J.HexDigit(c as int % 16)], c, rest);
    } else {
      TextPlain(c, rest);
    }
  }

  lemma EscapeWith(escape: bytes, c: byte, rest: bytes)
    requires EscapeAt(escape + rest) == Some((c, rest)) && J.EscapeByte(c) == ['\\'] + escape
    ensures TextAt(J.EscapeByte(c) + rest) == Prefixed(c, TextAt(rest))
  {
    TextEscaped(escape, c, rest);
    hide *;
  }

  /** Escaping is undone by reading, whatever the string holds. */
  lemma {:induction false} TextReads(x: bytes, tail: bytes)
    ensures TextAt(J.Escape(x) + ['"'] + tail) == Some((x, tail))
    decreases |x|
  {
    hide TextAt;
    hide J.EscapeByte;
    if x == [] {
      assert J.Escape(x) + ['"'] + tail == ['"'] + tail;
      TextEnds(tail);
    } else {
      var rest := J.Escape(x[1..]) + ['"'] + tail;
      assert J.Escape(x) + ['"'] + tail == J.EscapeByte(x[0]) + rest;
      TextReads(x[1..], tail);
      EscapeReads(x[0], rest);
      assert [x[0]] + x[1..] == x;
    }
  }

  lemma QuoteOpens(s: bytes)
    requires s != [] && s[0] == '"' && TextAt(s[1..]).Some?
    ensures ValueAt(s) == Some((Str(TextAt(s[1..]).value.0), TextAt(s[1..]).value.1))
  {
    hide TextAt;
    hide MembersAt;
    hide NumberAt;
  }

  lemma QuotedReads(x: bytes)
    ensures Reads(P.Quoted(J.Escape(x)), Str(x))
  {
    hide ValueAt;
    hide TextAt;
    hide J.Escape;
    forall tail: bytes | tail != [] && (tail[0] == ',' || tail[0] == '}')
      ensures ValueAt(P.Quoted(J.Escape(x)) + tail) == Some((Str(x), tail))
    {
      TextReads(x, tail);
      var s := P.Quoted(J.Escape(x)) + tail;
      assert s[1..] == J.Escape(x) + ['"'] + tail;
      QuoteOpens(s);
    }
  }

  /** A name that needs no escaping. */
  ghost predicate Plain(name: bytes) {
    forall i | 0 <= i < |name| :: name[i] as int >= 0x20 && name[i] != '"' && name[i] != '\\'
  }

  lemma {:induction false} PlainEscapes(name: bytes)
    requires Plain(name)
    ensures J.Escape(name) == name
    decreases |name|
  {
    if name != [] {
      assert Plain(name[1..]) by {
        assert forall i | 0 <= i < |name[1..]| :: name[1..][i] == name[i + 1];
      }
      PlainEscapes(name[1..]);
      assert name == [name[0]] + name[1..];
    }
  }

  lemma NameReads(name: bytes)
    requires Plain(name)
    ensures Reads(P.Quoted(name), Str(name))
  {
    PlainEscapes(name);
    QuotedReads(name);
  }

  lemma NumberOpens(s: bytes)
    requires s != [] && (s[0] == '-' || J.IsDigit(s[0])) && NumberAt(s).Some?
    ensures ValueAt(s) == Some((Num(NumberAt(s).value.0), NumberAt(s).value.1))
  {
    assert |s| >= 4 ==> s[..4][0] == s[0];
    hide NumberAt;
    hide TextAt;
    hide MembersAt;
  }

  lemma NumberRead(n: int, tail: bytes)
    requires tail != [] && !J.IsDigit(tail[0])
    ensures var s := P.Signed(n) + tail;
            (s[0] == '-' || J.IsDigit(s[0])) && NumberAt(s) == Some((n, tail))
  {
    var digits := J.Decimal(if n < 0 then -n else n);
    J.DecimalRoundTrip(if n < 0 then -n else n);
    J.LeadingDigitsStop(digits, tail);
    assert digits[0] in digits;
    hide J.Decimal;
    hide J.LeadingDigits;
    hide J.DecimalValue;
    var s := P.Signed(n) + tail;
    assert (digits + tail)[|digits|..] == tail;
    if n < 0 {
      assert s[1..] == digits + tail;
    }
  }

  lemma SignedReads(n: int)
    ensures Reads(P.Signed(n), Num(n))
  {
    hide ValueAt;
    hide NumberAt;
    hide P.Signed;
    forall tail: bytes | tail != [] && (tail[0] == ',' || tail[0] == '}')
      ensures ValueAt(P.Signed(n) + tail) == Some((Num(n), tail))
    {
      NumberRead(n, tail);
      NumberOpens(P.Signed(n) + tail);
    }
  }

  lemma DecimalReads(n: nat)
    ensures Reads(J.Decimal(n), Num(n))
  {
    SignedReads(n);
    hide Reads;
    hide J.Decimal;
  }

  lemma NullReads()
    ensures Reads("null", Null)
  {
    forall tail: bytes | tail != [] && (tail[0] == ',' || tail[0] == '}')
      ensures ValueAt("null" + tail) == Some((Null, tail))
    {
      var s := "null" + tail;
      assert s[..4] == "null" && s[4..] == tail;
    }
  }

  /** A member as it is printed and as it is read. */
  datatype Printed = Printed(name: bytes, text: bytes, value: Json)

  function MembersOf(ps: seq<Printed>): (members: seq<bytes>)
    ensures |members| == |ps|
  {
    if ps == [] then [] else [P.Member(ps[0].name, ps[0].text)] + MembersOf(ps[1..])
  }

  function MapOf(ps: seq<Printed>): (members: map<bytes, Json>) {
    if ps == [] then map[] else map[ps[0].name := ps[0].value] + MapOf(ps[1..])
  }

  ghost predicate AllRead(ps: seq<Printed>) {
    forall i | 0 <= i < |ps| :: Plain(ps[i].name) && Reads(ps[i].text, ps[i].value)
  }

  lemma NameOpens(s: bytes, name: bytes, colon: bytes)
    requires s != [] && s[0] == '"' && TextAt(s[1..]) == Some((name, colon)) && colon != [] && colon[0] == ':'
    ensures MembersAt(s) ==
            match ValueAt(colon[1..]) case None => None case Some((value, more)) => MoreAt(name, value, more)
  {
    hide TextAt;
    hide ValueAt;
    hide MoreAt;
  }

  lemma MemberShape(p: Printed, more: bytes)
    ensures var s, colon := P.Member(p.name, p.text) + more, [':'] + p.text + more;
            s[0] == '"' && s[1..] == p.name + ['"'] + colon && colon[1..] == p.text + more
  {
    var s := P.Member(p.name, p.text) + more;
    assert s[1..] == p.name + ['"'] + ([':'] + p.text + more);
  }

  lemma ReadsHere(p: Printed, more: bytes)
    requires Reads(p.text, p.value) && more != [] && (more[0] == ',' || more[0] == '}')
    ensures ValueAt(p.text + more) == Some((p.value, more))
  {
    hide ValueAt;
  }

  lemma MemberAt(p: Printed, more: bytes)
    requires Plain(p.name) && Reads(p.text, p.value) && more != [] && (more[0] == ',' || more[0] == '}')
    ensures MembersAt(P.Member(p.name, p.text) + more) == MoreAt(p.name, p.value, more)
  {
    hide *;
    var colon := [':'] + p.text + more;
    MemberShape(p, more);
    ReadsHere(p, more);
    PlainEscapes(p.name);
    TextReads(p.name, colon);
    NameOpens(P.Member(p.name, p.text) + more, p.name, colon);
  }

  lemma LastMember(name: bytes, value: Json, tail: bytes)
    ensures MoreAt(name, value, ['}'] + tail) == Some((map[name := value], tail))
  {
    var s := ['}'] + tail;
    assert s[1..] == tail;
    hide MembersAt;
  }

  lemma NextMember(name: bytes, value: Json, s: bytes, members: map<bytes, Json>, tail: bytes)
    requires MembersAt(s) == Some((members, tail))
    ensures MoreAt(name, value, [','] + s) == Some((map[name := value] + members, tail))
  {
    assert ([','] + s)[1..] == s;
    hide MembersAt;
  }

  /** The members of an object as they are printed, from the first to the closing brace. */
  function Inside(ps: seq<Printed>): (s: bytes)
    requires ps != []
  {
    P.Member(ps[0].name, ps[0].text) + P.Rest(MembersOf(ps[1..]))
  }

  lemma InsideParts(ps: seq<Printed>, tail: bytes)
    requires ps != [] && AllRead(ps)
    ensures Inside(ps) + tail == P.Member(ps[0].name, ps[0].text) + (P.Rest(MembersOf(ps[1..])) + tail)
    ensures Plain(ps[0].name) && Reads(ps[0].text, ps[0].value) && AllRead(ps[1..])
    ensures MapOf(ps) == map[ps[0].name := ps[0].value] + MapOf(ps[1..])
    ensures ps[1..] == [] ==> MapOf(ps) == map[ps[0].name := ps[0].value]
  {
    hide P.Rest;
    hide P.Member;
    hide Plain;
    hide Reads;
    hide MembersOf;
    assert forall i | 0 <= i < |ps[1..]| :: ps[1..][i] == ps[i + 1];
  }

  lemma {:induction false} MembersRead(ps: seq<Printed>, tail: bytes)
    requires ps != [] && AllRead(ps)
    ensures MembersAt(Inside(ps) + tail) == Some((MapOf(ps), tail))
    decreases |ps|
  {
    hide *;
    var p, rest := ps[0], ps[1..];
    var more := P.Rest(MembersOf(rest)) + tail;
    InsideParts(ps, tail);
    RestShape(rest);
    MemberAt(p, more);
    if rest == [] {
      LastMember(p.name, p.value, tail);
    } else {
      MembersRead(rest, tail);
      assert more == [','] + (Inside(rest) + tail);
      NextMember(p.name, p.value, Inside(rest) + tail, MapOf(rest), tail);
    }
  }

  lemma RestShape(ps: seq<Printed>)
    ensures P.Rest(MembersOf(ps)) == if ps == [] then ['}'] else [','] + Inside(ps)
  {
    if ps != [] {
      var ms := MembersOf(ps);
      assert ms[1..] == MembersOf(ps[1..]) && ms[0] == P.Member(ps[0].name, ps[0].text);
      hide P.Member;
    }
  }

  lemma BraceOpens(s: bytes)
    requires |s| > 1 && s[0] == '{' && s[1] == '"' && MembersAt(s[1..]).Some?
    ensures ValueAt(s) == Some((Obj(MembersAt(s[1..]).value.0), MembersAt(s[1..]).value.1))
  {
    hide MembersAt;
  }

  lemma ObjectShape(ps: seq<Printed>)
    requires ps != []
    ensures P.Object(MembersOf(ps)) == ['{'] + Inside(ps) && Inside(ps) != [] && Inside(ps)[0] == '"'
  {
    var ms := MembersOf(ps);
    assert ms[1..] == MembersOf(ps[1..]) && ms[0] == P.Member(ps[0].name, ps[0].text);
    hide P.Rest;
  }

  /** A printed object is read as its members, whatever follows it. */
  lemma ObjectAt(ps: seq<Printed>, tail: bytes)
    requires ps != [] && AllRead(ps)
    ensures ValueAt(P.Object(MembersOf(ps)) + tail) == Some((Obj(MapOf(ps)), tail))
  {
    hide *;
    ObjectShape(ps);
    MembersRead(ps, tail);
    var s := P.Object(MembersOf(ps)) + tail;
    assert s[1..] == Inside(ps) + tail;
    BraceOpens(s);
  }

  lemma ObjectReads(ps: seq<Printed>)
    requires ps != [] && AllRead(ps)
    ensures Reads(P.Object(MembersOf(ps)), Obj(MapOf(ps)))
  {
    forall tail: bytes | tail != [] && (tail[0] == ',' || tail[0] == '}')
      ensures ValueAt(P.Object(MembersOf(ps)) + tail) == Some((Obj(MapOf(ps)), tail))
    {
      ObjectAt(ps, tail);
    }
  }

  // --- The body the device prints ---

  ghost predicate Good(p: Printed) {
    Plain(p.name) && Reads(p.text, p.value)
  }

  function TextPrinted(name: bytes, x: bytes): (p: Printed) {
    Printed(name, P.Quoted(J.Escape(x)), Str(x))
  }

  function NumberPrinted(name: bytes, n: nat): (p: Printed) {
    Printed(name, J.Decimal(n), Num(n))
  }

  function NamePrinted(name: bytes, x: bytes): (p: Printed) {
    Printed(name, P.Quoted(x), Str(x))
  }

  lemma TextGood(name: bytes, x: bytes)
    requires Plain(name)
    ensures Good(TextPrinted(name, x)) && P.Member(name, P.Quoted(J.Escape(x))) == P.TextMember(name, x)
  {
    QuotedReads(x);
    hide Reads;
  }

  lemma NumberGood(name: bytes, n: nat)
    requires Plain(name)
    ensures Good(NumberPrinted(name, n))
  {
    DecimalReads(n);
    hide Reads;
  }

  lemma NameGood(name: bytes, x: bytes)
    requires Plain(name) && Plain(x)
    ensures Good(NamePrinted(name, x))
  {
    NameReads(x);
    hide Reads;
  }

  function MemberOf(p: Printed): (member: bytes) {
    P.Member(p.name, p.text)
  }

  lemma OneMore(p: Printed, ps: seq<Printed>)
    requires Good(p) && AllRead(ps)
    ensures AllRead([p] + ps) && MembersOf([p] + ps) == [MemberOf(p)] + MembersOf(ps)
    ensures MapOf([p] + ps) == map[p.name := p.value] + MapOf(ps)
  {
    hide Reads;
    hide Plain;
    hide P.Member;
    assert ([p] + ps)[1..] == ps;
  }

  lemma Three(a: Printed, b: Printed, c: Printed)
    requires Good(a) && Good(b) && Good(c) && a.name != b.name && a.name != c.name && b.name != c.name
    ensures Reads(P.Object([MemberOf(a), MemberOf(b), MemberOf(c)]),
                  Obj(map[a.name := a.value, b.name := b.value, c.name := c.value]))
  {
    ThreeParts(a, b, c);
    hide *;
    ObjectReads([a, b, c]);
  }

  lemma ThreeParts(a: Printed, b: Printed, c: Printed)
    requires Good(a) && Good(b) && Good(c) && a.name != b.name && a.name != c.name && b.name != c.name
    ensures AllRead([a, b, c]) && MembersOf([a, b, c]) == [MemberOf(a), MemberOf(b), MemberOf(c)]
    ensures MapOf([a, b, c]) == map[a.name := a.value, b.name := b.value, c.name := c.value]
  {
    NothingRead();
    hide *;
    var none: seq<Printed> := [];
    assert [c] + none == [c] && [b] + [c] == [b, c] && [a] + [b, c] == [a, b, c];
    OneMore(c, none);
    OneMore(b, [c]);
    OneMore(a, [b, c]);
  }

  lemma NothingRead()
    ensures AllRead([]) && MembersOf([]) == [] && MapOf([]) == map[]
  {
  }

  function DeviceOf(e: P.KioskEvent): (v: Json) {
    Obj(map[DEVICE_ID := Str(e.deviceId), HARDWARE_ID := Str(e.hardwareId), BOOT_ID := Str(e.bootId)])
  }

  function EventOf(e: P.KioskEvent): (v: Json) {
    Obj(map[EVENT_ID := Str(e.eventId), DEVICE_SEQ := Num(e.deviceSeq), TYPE := Str(P.TypeName(e.eventType))])
  }

  function TimeOf(e: P.KioskEvent): (v: Json) {
    Obj(map[TIMESTAMP_DEVICE := StampOf(e), UPTIME_MS := Num(e.uptimeMs), SYNC_STATUS := Str(P.SyncName(e.syncStatus)),
            SYNC_AGE_S := Num(e.syncAgeS)])
  }

  function ContextOf(e: P.KioskEvent): (v: Json) {
    Obj(map[EXPECTED_STATE_VERSION := Num(e.expectedStateVersion), WORKFLOW_VERSION := Num(e.workflowVersion),
            UI_BUNDLE_VERSION := Num(e.uiBundleVersion)])
  }

  lemma DeviceReads(e: P.KioskEvent)
    ensures Reads(P.DeviceObject(e), DeviceOf(e))
  {
    hide Reads;
    hide P.Object;
    hide P.Member;
    hide P.Quoted;
    hide J.Escape;
    TextGood(DEVICE_ID, e.deviceId);
    TextGood(HARDWARE_ID, e.hardwareId);
    TextGood(BOOT_ID, e.bootId);
    hide P.TextMember;
    hide Good;
    hide Plain;
    Three(TextPrinted(DEVICE_ID, e.deviceId), TextPrinted(HARDWARE_ID, e.hardwareId), TextPrinted(BOOT_ID, e.bootId));
  }

  lemma EventReads(e: P.KioskEvent)
    ensures Reads(P.EventObject(e), EventOf(e))
  {
    hide Reads;
    hide P.Object;
    hide P.Member;
    hide P.Quoted;
    hide J.Escape;
    hide J.Decimal;
    TextGood(EVENT_ID, e.eventId);
    NumberGood(DEVICE_SEQ, e.deviceSeq);
    TypeNamePlain(e.eventType);
    NameGood(TYPE, P.TypeName(e.eventType));
    hide P.TextMember;
    hide P.TypeName;
    hide Good;
    hide Plain;
    Three(TextPrinted(EVENT_ID, e.eventId), NumberPrinted(DEVICE_SEQ, e.deviceSeq), NamePrinted(TYPE, P.TypeName(e.eventType)));
  }

  lemma TypeNamePlain(t: P.EventType)
    ensures Plain(P.TypeName(t))
  {
  }

  lemma SyncNamePlain(s: P.TimeSyncStatus)
    ensures Plain(P.SyncName(s))
  {
  }

  lemma ContextReads(e: P.KioskEvent)
    ensures Reads(P.ContextObject(e), ContextOf(e))
  {
    hide Reads;
    hide P.Object;
    hide P.Member;
    hide J.Decimal;
    NumberGood(EXPECTED_STATE_VERSION, e.expectedStateVersion);
    NumberGood(WORKFLOW_VERSION, e.workflowVersion);
    NumberGood(UI_BUNDLE_VERSION, e.uiBundleVersion);
    hide Good;
    hide Plain;
    Three(NumberPrinted(EXPECTED_STATE_VERSION, e.expectedStateVersion), NumberPrinted(WORKFLOW_VERSION, e.workflowVersion),
          NumberPrinted(UI_BUNDLE_VERSION, e.uiBundleVersion));
  }

  // --- Time and payload ---

  /** The time stamp: only a trusted clock gives one. */
  function StampOf(e: P.KioskEvent): (v: Json) {
    if e.syncStatus == P.SYNCED || e.syncStatus == P.STALE then Str(e.timestamp) else Null
  }

  lemma StampGood(e: P.KioskEvent)
    ensures Good(Printed(TIMESTAMP_DEVICE, P.TimestampText(e), StampOf(e)))
  {
    QuotedReads(e.timestamp);
    NullReads();
    hide Reads;
    hide P.Quoted;
    hide J.Escape;
  }

  lemma Four(a: Printed, b: Printed, c: Printed, d: Printed)
    requires Good(a) && Good(b) && Good(c) && Good(d)
    requires a.name != b.name && a.name != c.name && a.name != d.name && b.name != c.name && b.name != d.name && c.name != d.name
    ensures Reads(P.Object([MemberOf(a), MemberOf(b), MemberOf(c), MemberOf(d)]),
                  Obj(map[a.name := a.value, b.name := b.value, c.name := c.value, d.name := d.value]))
  {
    hide *;
    ThreeParts(b, c, d);
    OneMore(a, [b, c, d]);
    assert [a] + [b, c, d] == [a, b, c, d];
    assert [MemberOf(a)] + [MemberOf(b), MemberOf(c), MemberOf(d)] == [MemberOf(a), MemberOf(b), MemberOf(c), MemberOf(d)];
    assert MapOf([a, b, c, d]) == map[a.name := a.value, b.name := b.value, c.name := c.value, d.name := d.value];
    ObjectReads([a, b, c, d]);
  }

  lemma TimeReads(e: P.KioskEvent)
    ensures Reads(P.TimeObject(e), TimeOf(e))
  {
    hide Reads;
    hide P.Object;
    hide P.Member;
    hide P.Quoted;
    hide P.TimestampText;
    hide StampOf;
    hide J.Decimal;
    StampGood(e);
    NumberGood(UPTIME_MS, e.uptimeMs);
    SyncNamePlain(e.syncStatus);
    NameGood(SYNC_STATUS, P.SyncName(e.syncStatus));
    NumberGood(SYNC_AGE_S, e.syncAgeS);
    hide P.SyncName;
    hide Good;
    hide Plain;
    Four(Printed(TIMESTAMP_DEVICE, P.TimestampText(e), StampOf(e)), NumberPrinted(UPTIME_MS, e.uptimeMs),
         NamePrinted(SYNC_STATUS, P.SyncName(e.syncStatus)), NumberPrinted(SYNC_AGE_S, e.syncAgeS));
  }

  function OptionalPrinted(name: bytes, q: Option<P.i32>): (ps: seq<Printed>) {
    match q case None => [] case Some(n) => [Printed(name, P.Signed(n), Num(n))]
  }

  lemma MaybeMore(name: bytes, q: Option<P.i32>, ps: seq<Printed>)
    requires Plain(name) && AllRead(ps)
    ensures AllRead(OptionalPrinted(name, q) + ps)
    ensures MembersOf(OptionalPrinted(name, q) + ps) == P.Optional(name, q) + MembersOf(ps)
    ensures MapOf(OptionalPrinted(name, q) + ps) == if q.Some? then map[name := Num(q.value)] + MapOf(ps) else MapOf(ps)
  {
    hide Reads;
    hide Plain;
    hide P.Signed;
    hide AllRead;
    hide MembersOf;
    hide MapOf;
    hide P.Member;
    if q.Some? {
      SignedGood(name, q.value);
      OneMore(Printed(name, P.Signed(q.value), Num(q.value)), ps);
    } else {
      assert OptionalPrinted(name, q) + ps == ps && P.Optional(name, q) + MembersOf(ps) == MembersOf(ps);
    }
  }

  lemma SignedGood(name: bytes, n: int)
    requires Plain(name)
    ensures Good(Printed(name, P.Signed(n), Num(n)))
  {
    SignedReads(n);
    hide Reads;
  }

  /** A quantity that was not given is not there, and zero is zero. */
  function Quantity(q: Option<P.i32>): (v: Json) {
    match q case None => Null case Some(n) => Num(n)
  }

  function WithQuantities(a: Printed, b: Printed, g: bytes, qg: Option<P.i32>, d: bytes, qd: Option<P.i32>, r: bytes,
                          qr: Option<P.i32>): (ps: seq<Printed>) {
    [a] + ([b] + (OptionalPrinted(g, qg) + (OptionalPrinted(d, qd) + (OptionalPrinted(r, qr) + []))))
  }

  lemma FiveRead(a: Printed, b: Printed, g: bytes, qg: Option<P.i32>, d: bytes, qd: Option<P.i32>, r: bytes, qr: Option<P.i32>)
    requires Good(a) && Good(b) && Plain(g) && Plain(d) && Plain(r)
    ensures var ps := WithQuantities(a, b, g, qg, d, qd, r, qr);
            && AllRead(ps)
            && MembersOf(ps) == [MemberOf(a)] + ([MemberOf(b)] + (P.Optional(g, qg) + (P.Optional(d, qd) + (P.Optional(r, qr) + []))))
            && MapOf(ps) == map[a.name := a.value] + (map[b.name := b.value] + QuantityMap(g, qg, d, qd, r, qr))
  {
    NothingRead();
    hide AllRead;
    hide Plain;
    hide Good;
    hide MembersOf;
    hide MapOf;
    hide MemberOf;
    hide P.Optional;
    hide OptionalPrinted;
    var rs := OptionalPrinted(r, qr) + [];
    var ds := OptionalPrinted(d, qd) + rs;
    var gs := OptionalPrinted(g, qg) + ds;
    MaybeMore(r, qr, []);
    MaybeMore(d, qd, rs);
    MaybeMore(g, qg, ds);
    OneMore(b, gs);
    OneMore(a, [b] + gs);
  }

  function QuantityMap(g: bytes, qg: Option<P.i32>, d: bytes, qd: Option<P.i32>, r: bytes, qr: Option<P.i32>): (m: map<bytes, Json>)
  {
    var rm: map<bytes, Json> := if qr.Some? then map[r := Num(qr.value)] + map[] else map[];
    var dm := if qd.Some? then map[d := Num(qd.value)] + rm else rm;
    if qg.Some? then map[g := Num(qg.value)] + dm else dm
  }

  lemma QuantityMapGets(a: Printed, b: Printed, g: bytes, qg: Option<P.i32>, d: bytes, qd: Option<P.i32>, r: bytes,
                        qr: Option<P.i32>)
    requires a.name != b.name && a.name !in {g, d, r} && b.name !in {g, d, r} && g != d && g != r && d != r
    ensures var v := Obj(map[a.name := a.value] + (map[b.name := b.value] + QuantityMap(g, qg, d, qd, r, qr)));
            && Get(v, a.name) == a.value && Get(v, b.name) == b.value
            && Get(v, g) == Quantity(qg) && Get(v, d) == Quantity(qd) && Get(v, r) == Quantity(qr)
  {
  }

  lemma PayloadNames()
    ensures Plain(QUANTITY_GOOD) && Plain(QUANTITY_DEFECT) && Plain(QUANTITY_REWORK) && Plain(SOURCE) && Plain(RAW)
    ensures SOURCE != RAW
    ensures SOURCE !in {QUANTITY_GOOD, QUANTITY_DEFECT, QUANTITY_REWORK}
    ensures RAW !in {QUANTITY_GOOD, QUANTITY_DEFECT, QUANTITY_REWORK}
    ensures QUANTITY_GOOD != QUANTITY_DEFECT && QUANTITY_GOOD != QUANTITY_REWORK && QUANTITY_DEFECT != QUANTITY_REWORK
  {
    assert QUANTITY_DEFECT[9] != QUANTITY_REWORK[9];
  }

  lemma PayloadReads(e: P.KioskEvent) returns (v: Json)
    ensures Reads(P.PayloadObject(e), v)
    ensures Get(v, SOURCE) == Str(e.source) && Get(v, RAW) == Str(e.raw)
    ensures Get(v, QUANTITY_GOOD) == Quantity(e.quantityGood) && Get(v, QUANTITY_DEFECT) == Quantity(e.quantityDefect)
    ensures Get(v, QUANTITY_REWORK) == Quantity(e.quantityRework)
  {
    var a, b := TextPrinted(SOURCE, e.source), TextPrinted(RAW, e.raw);
    var ps := WithQuantities(a, b, QUANTITY_GOOD, e.quantityGood, QUANTITY_DEFECT, e.quantityDefect, QUANTITY_REWORK,
                             e.quantityRework);
    PayloadNames();
    PayloadShape(e, a, b);
    hide *;
    TextGood(SOURCE, e.source);
    TextGood(RAW, e.raw);
    FiveRead(a, b, QUANTITY_GOOD, e.quantityGood, QUANTITY_DEFECT, e.quantityDefect, QUANTITY_REWORK, e.quantityRework);
    QuantityMapGets(a, b, QUANTITY_GOOD, e.quantityGood, QUANTITY_DEFECT, e.quantityDefect, QUANTITY_REWORK,
                    e.quantityRework);
    v := Obj(MapOf(ps));
    ObjectReads(ps);
  }

  lemma PayloadShape(e: P.KioskEvent, a: Printed, b: Printed)
    requires a == TextPrinted(SOURCE, e.source) && b == TextPrinted(RAW, e.raw)
    ensures a.name == SOURCE && a.value == Str(e.source) && b.name == RAW && b.value == Str(e.raw)
    ensures P.PayloadObject(e) ==
            P.Object([MemberOf(a)] + ([MemberOf(b)] + (P.Optional(QUANTITY_GOOD, e.quantityGood)
                       + (P.Optional(QUANTITY_DEFECT, e.quantityDefect) + (P.Optional(QUANTITY_REWORK, e.quantityRework) + [])))))
  {
    hide P.Optional;
    hide P.Object;
    hide P.Member;
    hide P.Quoted;
    hide J.Escape;
    var g, d, r := P.Optional(QUANTITY_GOOD, e.quantityGood), P.Optional(QUANTITY_DEFECT, e.quantityDefect),
                   P.Optional(QUANTITY_REWORK, e.quantityRework);
    assert [MemberOf(a)] + ([MemberOf(b)] + (g + (d + (r + [])))) == [MemberOf(a), MemberOf(b)] + (g + d + r);
  }

  // --- The whole body ---

  ghost predicate Apart(ps: seq<Printed>) {
    forall i, j | 0 <= i < j < |ps| :: ps[i].name != ps[j].name
  }

  /** Under each name its own value is found. */
  lemma {:induction false} Found(ps: seq<Printed>, i: nat)
    requires i < |ps| && Apart(ps)
    ensures Get(Obj(MapOf(ps)), ps[i].name) == ps[i].value
    decreases |ps|
  {
    var rest := ps[1..];
    assert Apart(rest) by {
      assert forall k | 0 <= k < |rest| :: rest[k] == ps[k + 1];
    }
    if i == 0 {
      NotFound(rest, ps[0].name);
    } else {
      Found(rest, i - 1);
      assert ps[i].name in MapOf(rest) ==> MapOf(ps)[ps[i].name] == MapOf(rest)[ps[i].name];
      if ps[i].name !in MapOf(rest) {
        NamesIn(rest, i - 1);
      }
    }
  }

  lemma {:induction false} NotFound(ps: seq<Printed>, name: bytes)
    requires forall k | 0 <= k < |ps| :: ps[k].name != name
    ensures name !in MapOf(ps)
    decreases |ps|
  {
    if ps != [] {
      assert forall k | 0 <= k < |ps[1..]| :: ps[1..][k] == ps[k + 1];
      NotFound(ps[1..], name);
    }
  }

  lemma {:induction false} NamesIn(ps: seq<Printed>, i: nat)
    requires i < |ps|
    ensures ps[i].name in MapOf(ps)
    decreases |ps|
  {
    if i > 0 {
      NamesIn(ps[1..], i - 1);
    }
  }

  lemma SixParts(a: Printed, b: Printed, c: Printed, d: Printed, e: Printed, f: Printed)
    requires Good(a) && Good(b) && Good(c) && Good(d) && Good(e) && Good(f)
    ensures AllRead([a, b, c, d, e, f])
    ensures MembersOf([a, b, c, d, e, f]) == [MemberOf(a), MemberOf(b), MemberOf(c), MemberOf(d), MemberOf(e), MemberOf(f)]
  {
    NothingRead();
    hide *;
    var none: seq<Printed> := [];
    assert [f] + none == [f] && [e] + [f] == [e, f] && [d] + [e, f] == [d, e, f];
    OneMore(f, none);
    OneMore(e, [f]);
    OneMore(d, [e, f]);
    assert [c] + [d, e, f] == [c, d, e, f] && [b] + [c, d, e, f] == [b, c, d, e, f];
    assert [a] + [b, c, d, e, f] == [a, b, c, d, e, f];
    OneMore(c, [d, e, f]);
    OneMore(b, [c, d, e, f]);
    OneMore(a, [b, c, d, e, f]);
  }

  lemma SixRead(a: Printed, b: Printed, c: Printed, d: Printed, e: Printed, f: Printed) returns (v: Json)
    requires Good(a) && Good(b) && Good(c) && Good(d) && Good(e) && Good(f) && Apart([a, b, c, d, e, f])
    ensures Parsed(P.Object([MemberOf(a), MemberOf(b), MemberOf(c), MemberOf(d), MemberOf(e), MemberOf(f)])) == Some(v)
    ensures Get(v, a.name) == a.value && Get(v, b.name) == b.value && Get(v, c.name) == c.value
    ensures Get(v, d.name) == d.value && Get(v, e.name) == e.value && Get(v, f.name) == f.value
  {
    hide *;
    var ps := [a, b, c, d, e, f];
    SixParts(a, b, c, d, e, f);
    v := Obj(MapOf(ps));
    ParsedWhole(ps);
    Found(ps, 0);
    Found(ps, 1);
    Found(ps, 2);
    Found(ps, 3);
    Found(ps, 4);
    Found(ps, 5);
  }

  lemma ParsedWhole(ps: seq<Printed>)
    requires ps != [] && AllRead(ps)
    ensures Parsed(P.Object(MembersOf(ps))) == Some(Obj(MapOf(ps)))
  {
    var none: bytes := [];
    ObjectAt(ps, none);
    hide ValueAt;
    hide AllRead;
    hide MapOf;
    assert P.Object(MembersOf(ps)) + none == P.Object(MembersOf(ps));
  }

  lemma DevicePart(e: P.KioskEvent)
    ensures Good(Printed(DEVICE, P.DeviceObject(e), DeviceOf(e)))
  {
    DeviceReads(e);
    hide Reads;
    hide P.Object;
    hide P.Member;
    hide P.Quoted;
    hide J.Escape;
    hide J.Decimal;
  }

  lemma EventPart(e: P.KioskEvent)
    ensures Good(Printed(EVENT, P.EventObject(e), EventOf(e)))
  {
    EventReads(e);
    hide Reads;
    hide P.Object;
    hide P.Member;
    hide P.Quoted;
    hide J.Escape;
    hide J.Decimal;
  }

  lemma TimePart(e: P.KioskEvent)
    ensures Good(Printed(TIME, P.TimeObject(e), TimeOf(e)))
  {
    TimeReads(e);
    hide Reads;
    hide P.Object;
    hide P.Member;
    hide P.Quoted;
    hide J.Escape;
    hide J.Decimal;
  }

  lemma ContextPart(e: P.KioskEvent)
    ensures Good(Printed(CONTEXT, P.ContextObject(e), ContextOf(e)))
  {
    ContextReads(e);
    hide Reads;
    hide P.Object;
    hide P.Member;
    hide P.Quoted;
    hide J.Escape;
    hide J.Decimal;
  }

  lemma PayloadPart(e: P.KioskEvent, payload: Json)
    requires Reads(P.PayloadObject(e), payload)
    ensures Good(Printed(PAYLOAD, P.PayloadObject(e), payload))
  {
    hide Reads;
    hide P.Object;
    hide P.Member;
    hide P.Quoted;
    hide J.Escape;
    hide J.Decimal;
  }

  lemma ProtocolPart(e: P.KioskEvent)
    ensures Good(NumberPrinted(PROTOCOL_VERSION, e.protocolVersion))
  {
    NumberGood(PROTOCOL_VERSION, e.protocolVersion);
  }

  /** The six parts of the body. */
  ghost predicate Parts(e: P.KioskEvent, payload: Json, ps: seq<Printed>) {
    && |ps| == 6
    && ps[0] == NumberPrinted(PROTOCOL_VERSION, e.protocolVersion)
    && ps[1] == Printed(DEVICE, P.DeviceObject(e), DeviceOf(e))
    && ps[2] == Printed(EVENT, P.EventObject(e), EventOf(e))
    && ps[3] == Printed(TIME, P.TimeObject(e), TimeOf(e))
    && ps[4] == Printed(CONTEXT, P.ContextObject(e), ContextOf(e))
    && ps[5] == Printed(PAYLOAD, P.PayloadObject(e), payload)
  }

  lemma PartsApart(e: P.KioskEvent, payload: Json, ps: seq<Printed>)
    requires Parts(e, payload, ps)
    ensures Apart(ps)
  {
    hide P.DeviceObject;
    hide P.EventObject;
    hide P.TimeObject;
    hide P.ContextObject;
    hide P.PayloadObject;
    hide J.Decimal;
    hide DeviceOf;
    hide EventOf;
    hide TimeOf;
    hide ContextOf;
    assert |ps[0].name| == 16 && |ps[1].name| == 6 && |ps[2].name| == 5 && |ps[3].name| == 4 && |ps[4].name| == 7 && |ps[5].name| == 7;
    assert ps[4].name[0] == 'c' && ps[5].name[0] == 'p';
  }

  lemma PartsGood(e: P.KioskEvent, payload: Json, ps: seq<Printed>)
    requires Parts(e, payload, ps) && Reads(P.PayloadObject(e), payload)
    ensures Good(ps[0]) && Good(ps[1]) && Good(ps[2]) && Good(ps[3]) && Good(ps[4]) && Good(ps[5])
  {
    assert ps[0] == NumberPrinted(PROTOCOL_VERSION, e.protocolVersion);
    assert ps[1] == Printed(DEVICE, P.DeviceObject(e), DeviceOf(e)) && ps[2] == Printed(EVENT, P.EventObject(e), EventOf(e));
    assert ps[3] == Printed(TIME, P.TimeObject(e), TimeOf(e)) && ps[4] == Printed(CONTEXT, P.ContextObject(e), ContextOf(e));
    hide *;
    ProtocolPart(e);
    DevicePart(e);
    EventPart(e);
    TimePart(e);
    ContextPart(e);
    PayloadPart(e, payload);
  }

  lemma PartsShape(e: P.KioskEvent, payload: Json, ps: seq<Printed>)
    requires Parts(e, payload, ps)
    ensures P.EncodeBody(e) ==
            P.Object([MemberOf(ps[0]), MemberOf(ps[1]), MemberOf(ps[2]), MemberOf(ps[3]), MemberOf(ps[4]), MemberOf(ps[5])])
  {
    hide P.DeviceObject;
    hide P.EventObject;
    hide P.TimeObject;
    hide P.ContextObject;
    hide P.PayloadObject;
    hide P.Object;
    hide P.Member;
    hide J.Decimal;
    hide DeviceOf;
    hide EventOf;
    hide TimeOf;
    hide ContextOf;
  }

  lemma PartsRead(e: P.KioskEvent, payload: Json, ps: seq<Printed>) returns (v: Json)
    requires |ps| == 6 && Parts(e, payload, ps) && Reads(P.PayloadObject(e), payload)
    ensures Parsed(P.EncodeBody(e)) == Some(v)
    ensures Get(v, ps[0].name) == ps[0].value && Get(v, ps[1].name) == ps[1].value && Get(v, ps[2].name) == ps[2].value
    ensures Get(v, ps[3].name) == ps[3].value && Get(v, ps[4].name) == ps[4].value && Get(v, ps[5].name) == ps[5].value
  {
    hide *;
    PartsApart(e, payload, ps);
    PartsGood(e, payload, ps);
    PartsShape(e, payload, ps);
    assert ps == [ps[0], ps[1], ps[2], ps[3], ps[4], ps[5]];
    v := SixRead(ps[0], ps[1], ps[2], ps[3], ps[4], ps[5]);
  }

  ghost predicate PayloadSays(e: P.KioskEvent, v: Json) {
    && Get(v, SOURCE) == Str(e.source) && Get(v, RAW) == Str(e.raw)
    && Get(v, QUANTITY_GOOD) == Quantity(e.quantityGood) && Get(v, QUANTITY_DEFECT) == Quantity(e.quantityDefect)
    && Get(v, QUANTITY_REWORK) == Quantity(e.quantityRework)
  }

  lemma PartsListed(e: P.KioskEvent, payload: Json) returns (ps: seq<Printed>)
    ensures Parts(e, payload, ps)
  {
    hide P.DeviceObject;
    hide P.EventObject;
    hide P.TimeObject;
    hide P.ContextObject;
    hide P.PayloadObject;
    hide DeviceOf;
    hide EventOf;
    hide TimeOf;
    hide ContextOf;
    hide NumberPrinted;
    ps := [NumberPrinted(PROTOCOL_VERSION, e.protocolVersion), Printed(DEVICE, P.DeviceObject(e), DeviceOf(e)),
           Printed(EVENT, P.EventObject(e), EventOf(e)), Printed(TIME, P.TimeObject(e), TimeOf(e)),
           Printed(CONTEXT, P.ContextObject(e), ContextOf(e)), Printed(PAYLOAD, P.PayloadObject(e), payload)];
  }

  lemma PartsNamed(e: P.KioskEvent, payload: Json, ps: seq<Printed>)
    requires Parts(e, payload, ps)
    ensures |ps| == 6
    ensures ps[0].name == PROTOCOL_VERSION && ps[0].value == Num(e.protocolVersion)
    ensures ps[1].name == DEVICE && ps[1].value == DeviceOf(e) && ps[2].name == EVENT && ps[2].value == EventOf(e)
    ensures ps[3].name == TIME && ps[3].value == TimeOf(e) && ps[4].name == CONTEXT && ps[4].value == ContextOf(e)
    ensures ps[5].name == PAYLOAD && ps[5].value == payload
  {
    hide P.DeviceObject;
    hide P.EventObject;
    hide P.TimeObject;
    hide P.ContextObject;
    hide P.PayloadObject;
    hide DeviceOf;
    hide EventOf;
    hide TimeOf;
    hide ContextOf;
    hide J.Decimal;
  }

  lemma PayloadRead(e: P.KioskEvent) returns (payload: Json)
    ensures Reads(P.PayloadObject(e), payload) && PayloadSays(e, payload)
  {
    payload := PayloadReads(e);
    hide Reads;
    hide Get;
  }

  lemma BodyParts(e: P.KioskEvent) returns (v: Json, payload: Json)
    ensures Parsed(P.EncodeBody(e)) == Some(v)
    ensures Get(v, PROTOCOL_VERSION) == Num(e.protocolVersion)
    ensures Get(v, DEVICE) == DeviceOf(e) && Get(v, EVENT) == EventOf(e) && Get(v, TIME) == TimeOf(e)
    ensures Get(v, CONTEXT) == ContextOf(e) && Get(v, PAYLOAD) == payload && PayloadSays(e, payload)
  {
    hide *;
    payload := PayloadRead(e);
    var ps := PartsListed(e, payload);
    PartsNamed(e, payload, ps);
    v := PartsRead(e, payload, ps);
  }

  /** Who the body says has sent it. */
  function SenderOf(e: P.KioskEvent): (id: bytes) {
    if e.deviceId != [] then e.deviceId else if e.hardwareId != [] then e.hardwareId else "unknown"
  }

  /** What the operator did, as the server is to take it. */
  function Meant(e: P.KioskEvent): (event: S.EventType) {
    match e.eventType
    case SCAN => S.SCAN(e.raw)
    case FINISH_REQUESTED => S.FINISH_REQUESTED
    case QUANTITY_SUBMITTED => S.QUANTITY_SUBMITTED
    case CANCEL_REQUESTED => S.CANCEL_REQUESTED
  }

  lemma DeviceLooked(e: P.KioskEvent)
    ensures Sender(DeviceOf(e)) == SenderOf(e)
    ensures TextOf(Get(DeviceOf(e), HARDWARE_ID)) == Some(e.hardwareId) && TextOf(Get(DeviceOf(e), BOOT_ID)) == Some(e.bootId)
  {
  }

  lemma EventLooked(e: P.KioskEvent)
    ensures TextOf(Get(EventOf(e), EVENT_ID)) == Some(e.eventId) && NumberOf(Get(EventOf(e), DEVICE_SEQ)) == Some(e.deviceSeq)
    ensures EventNamed(Get(EventOf(e), TYPE), e.raw) == Meant(e)
  {
  }

  lemma TimeLooked(e: P.KioskEvent)
    ensures TextOf(Get(TimeOf(e), TIMESTAMP_DEVICE)) ==
            if e.syncStatus == P.SYNCED || e.syncStatus == P.STALE then Some(e.timestamp) else None
    ensures NumberOf(Get(TimeOf(e), UPTIME_MS)) == Some(e.uptimeMs) && NumberOf(Get(TimeOf(e), SYNC_AGE_S)) == Some(e.syncAgeS)
    ensures StatusNamed(Get(TimeOf(e), SYNC_STATUS)) == Some(e.syncStatus)
  {
  }

  lemma ContextLooked(e: P.KioskEvent)
    ensures NumberOf(Get(ContextOf(e), EXPECTED_STATE_VERSION)) == Some(e.expectedStateVersion)
    ensures NumberOf(Get(ContextOf(e), WORKFLOW_VERSION)) == Some(e.workflowVersion)
    ensures NumberOf(Get(ContextOf(e), UI_BUNDLE_VERSION)) == Some(e.uiBundleVersion)
  {
  }

  /** Whatever the event, and whatever was scanned, the server reads out of the body exactly what the device put in. */
  lemma BodyIsRead(e: P.KioskEvent)
    ensures Read(P.EncodeBody(e)) == Some(Reading(
              Some(e.protocolVersion), SenderOf(e), Some(e.hardwareId), Some(e.bootId), Some(e.eventId), Some(e.deviceSeq), Meant(e),
              if e.syncStatus == P.SYNCED || e.syncStatus == P.STALE then Some(e.timestamp) else None, Some(e.uptimeMs),
              Some(e.syncStatus), Some(e.syncAgeS), Some(e.expectedStateVersion), Some(e.workflowVersion),
              Some(e.uiBundleVersion), Some(e.source), e.quantityGood, e.quantityDefect, e.quantityRework))
  {
    var v, payload := BodyParts(e);
    DeviceLooked(e);
    EventLooked(e);
    TimeLooked(e);
    ContextLooked(e);
    PayloadLooked(e, payload);
    hide P.EncodeBody;
    hide Parsed;
    hide Get;
    hide TextOf;
    hide NumberOf;
    hide Sender;
    hide EventNamed;
    hide StatusNamed;
    hide DeviceOf;
    hide EventOf;
    hide TimeOf;
    hide ContextOf;
    hide PayloadSays;
  }

  lemma PayloadLooked(e: P.KioskEvent, payload: Json)
    requires PayloadSays(e, payload)
    ensures TextOf(Get(payload, SOURCE)) == Some(e.source) && TextOf(Get(payload, RAW)) == Some(e.raw)
    ensures NumberOf(Get(payload, QUANTITY_GOOD)) == e.quantityGood
    ensures NumberOf(Get(payload, QUANTITY_DEFECT)) == e.quantityDefect
    ensures NumberOf(Get(payload, QUANTITY_REWORK)) == e.quantityRework
  {
    hide Get;
  }

  /** So the request the server handles is the operator's action, under the event's id and the version it claims. */
  lemma RequestIsMeant(e: P.KioskEvent)
    ensures RequestOf(P.EncodeBody(e)) ==
            S.Request(SenderOf(e), e.eventId, Meant(e), e.quantityGood, Some(e.expectedStateVersion), P.EncodeBody(e))
  {
    BodyIsRead(e);
    hide Read;
    hide P.EncodeBody;
  }
}
