/** The reference server: a version-checked state machine per device behind an idempotency cache. */
module MockBackend {
  import opened Bytes
  import opened StateProjection

  /** The active part of a session; `operation` is absent until the second scan. */
  datatype Operation = Operation(code: bytes, name: bytes, sessionId: bytes, startedAt: bytes, targetQty: int)
  datatype Session = Session(employeeId: bytes, employeeName: bytes, operation: Option<Operation>)

  datatype DeviceFields = DeviceFields(
    state: BusinessState, version: nat, workflowVersion: nat, session: Option<Session>, disabled: bool, maintenance: bool)

  predicate Working(state: BusinessState) {
    state == SESSION_ACTIVE || state == QUANTITY_INPUT
  }

  /** A device record: it has a session exactly when it is past the first scan, and the session an operation exactly
    * when it is past the second. */
  type Device = d: DeviceFields |
      && (d.session.None? <==> d.state == WAIT_EMPLOYEE)
      && (d.session.Some? && d.session.value.operation.Some? <==> Working(d.state))
      && d.state in {WAIT_EMPLOYEE, WAIT_OPERATION, SESSION_ACTIVE, QUANTITY_INPUT}
    witness DeviceFields(WAIT_EMPLOYEE, 1, 1, None, false, false)

  const NEW_DEVICE: Device := DeviceFields(WAIT_EMPLOYEE, 1, 1, None, false, false)

  /** WF|EMP|id, WF|OP|code, or something else. */
  datatype Scan = EMP(value: bytes) | OP(value: bytes) | OTHER_KIND

  datatype EventType = SCAN(raw: bytes) | FINISH_REQUESTED | QUANTITY_SUBMITTED | CANCEL_REQUESTED | UNKNOWN_TYPE

  datatype ErrorCode =
    | DEVICE_IS_DISABLED
    | IN_MAINTENANCE
    | STATE_INVALID_TRANSITION
    | EMPLOYEE_NOT_FOUND
    | EMPLOYEE_DISABLED
    | OPERATION_NOT_FOUND
    | OPERATION_CLOSED
    | QUANTITY_INVALID
    | PROTOCOL_DECODE_FAILED

  /** The decoded body of a POST to /events. */
  datatype Request = Request(
    deviceId: bytes, eventId: bytes, event: EventType, quantityGood: Option<int>, expectedVersion: Option<int>, rest: bytes)

  datatype Response =
    | Accepted(eventId: bytes, snapshot: Snapshot, serverSeq: nat)
    | Rejected(eventId: bytes, error: ErrorCode, snapshot: Snapshot, serverSeq: nat)
    | Conflict(eventId: bytes, currentVersion: nat, serverSeq: nat)
    | KeyReuseMismatch(eventId: bytes)

  datatype Entry = Entry(request: Request, response: Response)

  /** The employee and operation fixtures. */
  datatype Fixtures = Fixtures(employees: map<bytes, (bytes, bool)>, operations: map<bytes, (bytes, bool)>)

  datatype Server = Server(devices: map<bytes, Device>, cache: map<(bytes, bytes), Entry>, serverSeq: nat)

  // --- Snapshots ---

  function SnapshotOf(dev: Device): (s: Snapshot) {
    Snapshot(if dev.disabled then DEVICE_DISABLED else if dev.maintenance then MAINTENANCE else dev.state,
             dev.version, dev.workflowVersion, ViewOf(dev.session))
  }

  function ViewOf(session: Option<Session>): (v: ViewModel) {
    match session
    case None => ViewModel(None, None, None, None, None, None, None)
    case Some(Session(_, name, None)) => ViewModel(Some(name), None, None, None, None, None, None)
    case Some(Session(_, name, Some(op))) =>
      ViewModel(Some(name), Some(op.code), Some(op.name), Some(op.sessionId), Some(op.startedAt), Some(op.targetQty), Some(0))
  }

  // --- Events ---

  /** raw.split("|") with three parts, the first of them WF. */
  function ParseScan(raw: bytes): (scan: Scan) {
    var parts := Split(raw);
    if |parts| != 3 || parts[0] != "WF" then OTHER_KIND
    else if parts[1] == "EMP" then EMP(parts[2])
    else if parts[1] == "OP" then OP(parts[2])
    else OTHER_KIND
  }

  function Split(raw: bytes): (parts: seq<bytes>)
    ensures parts != []
  {
    if raw == [] then [[]]
    else
      var rest := Split(raw[1..]);
      if raw[0] == '|' then [[]] + rest else [[raw[0]] + rest[0]] + rest[1..]
  }

  predicate AllDigits(s: bytes) {
    s != [] && forall c <- s :: '0' <= c <= '9'
  }

  /** A known card, or any NV card with digits. */
  function FindEmployee(f: Fixtures, id: bytes): (e: Option<(bytes, bool)>) {
    if id in f.employees then Some(f.employees[id])
    else if |id| > 2 && id[..2] == "NV" && AllDigits(id[2..]) then Some(("Real Card " + id, true))
    else None
  }

  /** A known operation, or any code that is not empty. */
  function FindOperation(f: Fixtures, code: bytes): (o: Option<(bytes, bool)>) {
    if code in f.operations then Some(f.operations[code]) else if code != [] then Some((code, true)) else None
  }

  datatype Outcome = Fail(error: ErrorCode) | Move(dev: Device)

  function Bumped(dev: Device): (d: Device) {
    dev.(version := dev.version + 1)
  }

  /** Where an accepted event takes the device; every move raises the version by one. */
  function Moved(dev: Device, state: BusinessState, session: Option<Session>): (o: Outcome)
    requires state in {WAIT_EMPLOYEE, WAIT_OPERATION, SESSION_ACTIVE, QUANTITY_INPUT}
    requires session.None? <==> state == WAIT_EMPLOYEE
    requires session.Some? && session.value.operation.Some? <==> Working(state)
  {
    Move(Bumped(dev.(state := state, session := session)))
  }

  /** apply_event: `seqText` and `now` are the session id and start time of a session that begins. */
  function ApplyEvent(f: Fixtures, dev: Device, r: Request, seqText: bytes, now: bytes): (o: Outcome) {
    if dev.disabled then Fail(DEVICE_IS_DISABLED)
    else if dev.maintenance then Fail(IN_MAINTENANCE)
    else match r.event
      case SCAN(raw) =>
        if dev.state == WAIT_EMPLOYEE then ScanEmployee(f, dev, ParseScan(raw))
        else if dev.state == WAIT_OPERATION then ScanOperation(f, dev, ParseScan(raw), seqText, now)
        else Fail(STATE_INVALID_TRANSITION)
      case FINISH_REQUESTED =>
        if dev.state != SESSION_ACTIVE then Fail(STATE_INVALID_TRANSITION)
        else Moved(dev, QUANTITY_INPUT, dev.session)
      case QUANTITY_SUBMITTED =>
        if dev.state != QUANTITY_INPUT then Fail(STATE_INVALID_TRANSITION)
        else if r.quantityGood.None? then Fail(QUANTITY_INVALID)
        else Moved(dev, WAIT_EMPLOYEE, None)
      case CANCEL_REQUESTED =>
        if dev.state == WAIT_EMPLOYEE then Fail(STATE_INVALID_TRANSITION)
        else Moved(dev, WAIT_EMPLOYEE, None)
      case UNKNOWN_TYPE => Fail(PROTOCOL_DECODE_FAILED)
  }

  function ScanEmployee(f: Fixtures, dev: Device, scan: Scan): (o: Outcome) {
    if !scan.EMP? then Fail(STATE_INVALID_TRANSITION)
    else match FindEmployee(f, scan.value)
      case None => Fail(EMPLOYEE_NOT_FOUND)
      case Some((name, active)) =>
        if !active then Fail(EMPLOYEE_DISABLED)
        else Moved(dev, WAIT_OPERATION, Some(Session(scan.value, name, None)))
  }

  function ScanOperation(f: Fixtures, dev: Device, scan: Scan, seqText: bytes, now: bytes): (o: Outcome)
    requires dev.state == WAIT_OPERATION
  {
    if !scan.OP? then Fail(STATE_INVALID_TRANSITION)
    else match FindOperation(f, scan.value)
      case None => Fail(OPERATION_NOT_FOUND)
      case Some((name, isOpen)) =>
        if !isOpen then Fail(OPERATION_CLOSED)
        else
          var op := Operation(scan.value, name, seqText, now, 100);
          Moved(dev, SESSION_ACTIVE, Some(dev.session.value.(operation := Some(op))))
  }

  // --- Requests ---

  function DeviceOf(s: Server, id: bytes): (dev: Device) {
    if id in s.devices then s.devices[id] else NEW_DEVICE
  }

  function Answer(dev: Device, eventId: bytes, o: Outcome, seqNo: nat): (resp: Response) {
    match o
    case Fail(error) => Rejected(eventId, error, SnapshotOf(dev), seqNo)
    case Move(d) => Accepted(eventId, SnapshotOf(d), seqNo)
  }

  /** The /events handler: the cache first, then the version check, then the transition. Every outcome but a
    * key reuse is cached. */
  function Handle(f: Fixtures, s: Server, r: Request, seqText: bytes, now: bytes): (result: (Server, Response)) {
    var seqNo, key, dev := s.serverSeq + 1, (r.deviceId, r.eventId), DeviceOf(s, r.deviceId);
    if key in s.cache then
      (s.(serverSeq := seqNo), if s.cache[key].request == r then s.cache[key].response else KeyReuseMismatch(r.eventId))
    else if r.expectedVersion.Some? && r.expectedVersion.value < dev.version then
      var resp := Conflict(r.eventId, dev.version, seqNo);
      (Server(s.devices[r.deviceId := dev], s.cache[key := Entry(r, resp)], seqNo), resp)
    else
      var o := ApplyEvent(f, dev, r, seqText, now);
      var resp := Answer(dev, r.eventId, o, seqNo);
      (Server(s.devices[r.deviceId := if o.Move? then o.dev else dev], s.cache[key := Entry(r, resp)], seqNo), resp)
  }

  function Reset(s: Server, id: bytes): (s': Server) {
    var dev := DeviceOf(s, id);
    s.(devices := s.devices[id := NEW_DEVICE.(version := dev.version + 1, workflowVersion := dev.workflowVersion)])
  }

  function SetDisabled(dev: Device, disabled: Option<bool>): (d: Device) {
    if disabled.None? then dev else Bumped(dev.(disabled := disabled.value))
  }

  function SetMaintenance(dev: Device, maintenance: Option<bool>): (d: Device) {
    if maintenance.None? then dev else Bumped(dev.(maintenance := maintenance.value))
  }

  function Administer(s: Server, id: bytes, disabled: Option<bool>, maintenance: Option<bool>): (s': Server) {
    s.(devices := s.devices[id := SetMaintenance(SetDisabled(DeviceOf(s, id), disabled), maintenance)])
  }

  class MockBackend {
    const fixtures: Fixtures
    var devices: map<bytes, Device>
    var idempotency: map<(bytes, bytes), Entry>
    var serverSeq: nat

    constructor (fixtures: Fixtures)
      ensures this.fixtures == fixtures && State() == Server(map[], map[], 0)
    {
      this.fixtures := fixtures;
      devices, idempotency, serverSeq := map[], map[], 0;
    }

    ghost function State(): (s: Server)
      reads this
    {
      Server(devices, idempotency, serverSeq)
    }

    /** get_device. */
    method GetDevice(id: bytes) returns (dev: Device)
      modifies this`devices
      ensures dev == DeviceOf(old(State()), id) && devices == old(devices)[id := dev]
    {
      if id !in devices {
        devices := devices[id := NEW_DEVICE];
      }
      return devices[id];
    }

    /** POST /api/kiosk/v2/events. */
    method PostEvent(r: Request, seqText: bytes, now: bytes) returns (resp: Response)
      modifies this
      ensures (State(), resp) == Handle(fixtures, old(State()), r, seqText, now)
    {
      serverSeq := serverSeq + 1;
      var key := (r.deviceId, r.eventId);
      if key in idempotency {
        if idempotency[key].request == r {
          return idempotency[key].response;
        }
        return KeyReuseMismatch(r.eventId);
      }
      var dev := GetDevice(r.deviceId);
      if r.expectedVersion.Some? && r.expectedVersion.value < dev.version {
        resp := Conflict(r.eventId, dev.version, serverSeq);
        idempotency := idempotency[key := Entry(r, resp)];
        return;
      }
      var o := ApplyEvent(fixtures, dev, r, seqText, now);
      if o.Move? {
        assert devices[r.deviceId := o.dev] == old(devices)[r.deviceId := o.dev];
        devices := devices[r.deviceId := o.dev];
      }
      resp := Answer(dev, r.eventId, o, serverSeq);
      idempotency := idempotency[key := Entry(r, resp)];
    }

    /** POST /mock/admin/<device>. */
    method PostAdmin(id: bytes, reset: bool, disabled: Option<bool>, maintenance: Option<bool>)
      modifies this
      ensures State() == if reset then Reset(old(State()), id) else Administer(old(State()), id, disabled, maintenance)
    {
      hide Bumped;
      var dev := GetDevice(id);
      assert dev == DeviceOf(old(State()), id);
      hide DeviceOf;
      if reset {
        devices := devices[id := NEW_DEVICE.(version := dev.version + 1, workflowVersion := dev.workflowVersion)];
      } else {
        if disabled.Some? {
          dev := SetDisabled(dev, disabled);
        }
        if maintenance.Some? {
          dev := SetMaintenance(dev, maintenance);
        }
        devices := devices[id := dev];
      }
    }
  }

  // --- Runs ---

  datatype ServerOp =
    | POST(request: Request, seqText: bytes, now: bytes)
    | ADMIN(id: bytes, disabled: Option<bool>, maintenance: Option<bool>)
    | RESET(id: bytes)

  function Do(f: Fixtures, s: Server, op: ServerOp): (s': Server) {
    match op
    case POST(r, seqText, now) => Handle(f, s, r, seqText, now).0
    case ADMIN(id, disabled, maintenance) => Administer(s, id, disabled, maintenance)
    case RESET(id) => Reset(s, id)
  }

  function RunServer(f: Fixtures, s: Server, ops: seq<ServerOp>): (s': Server) {
    if ops == [] then s else Do(f, RunServer(f, s, ops[..|ops| - 1]), ops[|ops| - 1])
  }

  /** The events of a device that the server accepted. */
  ghost function AcceptedEvents(s: Server, id: bytes): (keys: set<(bytes, bytes)>) {
    set key | key in s.cache && key.0 == id && s.cache[key].response.Accepted?
  }

  /** How often an administrator touched a device. */
  function AdminBumps(ops: seq<ServerOp>, id: bytes): (n: nat) {
    if ops == [] then 0
    else AdminBumps(ops[..|ops| - 1], id) + BumpsOf(ops[|ops| - 1], id)
  }

  function BumpsOf(op: ServerOp, id: bytes): (n: nat) {
    match op
    case POST(_, _, _) => 0
    case ADMIN(other, disabled, maintenance) =>
      if other != id then 0 else (if disabled.Some? then 1 else 0) + (if maintenance.Some? then 1 else 0)
    case RESET(other) => if other == id then 1 else 0
  }

  const FRESH_SERVER := Server(map[], map[], 0)

  /** An event changes its device if and only if it is answered with a fresh acceptance, which raises the version
    * by one; anything else, and any other device, is left as it was. */
  lemma EventEffect(f: Fixtures, s: Server, r: Request, seqText: bytes, now: bytes)
    ensures var (s', resp) := Handle(f, s, r, seqText, now);
            var fresh_ := (r.deviceId, r.eventId) !in s.cache;
            && (forall id :: id != r.deviceId ==> DeviceOf(s', id) == DeviceOf(s, id))
            && (DeviceOf(s', r.deviceId) != DeviceOf(s, r.deviceId) <==> fresh_ && resp.Accepted?)
            && (fresh_ && resp.Accepted? ==>
                  && DeviceOf(s', r.deviceId).version == DeviceOf(s, r.deviceId).version + 1
                  && resp.snapshot == SnapshotOf(DeviceOf(s', r.deviceId)))
            && (!fresh_ ==> s'.cache == s.cache && s'.devices == s.devices)
            && (fresh_ ==> s'.cache == s.cache[(r.deviceId, r.eventId) := Entry(r, resp)])
            && (fresh_ && resp.Rejected? ==> resp.snapshot == SnapshotOf(DeviceOf(s', r.deviceId)))
  {
    hide ParseScan;
    hide FindEmployee;
    hide FindOperation;
  }

  /** Once answered, an event id is answered the same way for ever, and changes nothing again. */
  lemma {:induction false} AnswerIsFinal(f: Fixtures, s: Server, ops: seq<ServerOp>, r: Request)
    requires (r.deviceId, r.eventId) in s.cache && s.cache[(r.deviceId, r.eventId)].request == r
    ensures var s' := RunServer(f, s, ops);
            && (r.deviceId, r.eventId) in s'.cache
            && s'.cache[(r.deviceId, r.eventId)] == s.cache[(r.deviceId, r.eventId)]
            && forall seqText, now :: Handle(f, s', r, seqText, now) ==
                 (s'.(serverSeq := s'.serverSeq + 1), s.cache[(r.deviceId, r.eventId)].response)
    decreases |ops|
  {
    hide ApplyEvent;
    if ops != [] {
      AnswerIsFinal(f, s, ops[..|ops| - 1], r);
    }
  }

  lemma AcceptedStep(f: Fixtures, s: Server, op: ServerOp, id: bytes)
    ensures var s' := Do(f, s, op);
            |AcceptedEvents(s', id)| - |AcceptedEvents(s, id)| ==
            if op.POST? && op.request.deviceId == id && DeviceOf(s', id) != DeviceOf(s, id) then 1 else 0
  {
    if op.POST? {
      var r := op.request;
      EventEffect(f, s, r, op.seqText, op.now);
      hide Handle;
      hide DeviceOf;
      var key, resp := (r.deviceId, r.eventId), Handle(f, s, r, op.seqText, op.now).1;
      if key !in s.cache {
        CacheGrows(s, Do(f, s, op), key, Entry(r, resp), id);
      }
    }
  }

  lemma CacheGrows(s: Server, s': Server, key: (bytes, bytes), entry: Entry, id: bytes)
    requires key !in s.cache && s'.cache == s.cache[key := entry]
    ensures |AcceptedEvents(s', id)| - |AcceptedEvents(s, id)| == if key.0 == id && entry.response.Accepted? then 1 else 0
  {
    var counts := key.0 == id && entry.response.Accepted?;
    assert key !in AcceptedEvents(s, id);
    assert AcceptedEvents(s', id) == if counts then AcceptedEvents(s, id) + {key} else AcceptedEvents(s, id) by {
      forall k
        ensures k in AcceptedEvents(s', id) <==> k in AcceptedEvents(s, id) || (counts && k == key)
      {
      }
    }
    hide AcceptedEvents;
  }

  /** The version of a device counts what happened to it: one for its creation, one per accepted event id, one
    * per administrative change or reset. */
  lemma {:induction false} VersionCounts(f: Fixtures, ops: seq<ServerOp>, id: bytes)
    ensures var s := RunServer(f, FRESH_SERVER, ops);
            DeviceOf(s, id).version == 1 + |AcceptedEvents(s, id)| + AdminBumps(ops, id)
    decreases |ops|
  {
    hide ApplyEvent;
    if ops == [] {
      assert AcceptedEvents(FRESH_SERVER, id) == {};
    } else {
      var front, op := ops[..|ops| - 1], ops[|ops| - 1];
      VersionCounts(f, front, id);
      var s := RunServer(f, FRESH_SERVER, front);
      AcceptedStep(f, s, op, id);
      if op.POST? {
        EventEffect(f, s, op.request, op.seqText, op.now);
        hide Handle;
      }
      hide AcceptedEvents;
    }
  }

  // --- One snapshot per version ---

  /** `h` holds the snapshot of every version the device has been through: the current one, those in the cached
    * answers, and nothing newer. */
  ghost predicate Chronicle(s: Server, id: bytes, h: map<nat, Snapshot>) {
    var v := DeviceOf(s, id).version;
    && v in h && h[v] == SnapshotOf(DeviceOf(s, id))
    && (forall k | k in h :: k <= v && h[k].version == k && h[k].state != UNSUPPORTED)
    && forall key | key in s.cache && key.0 == id && (s.cache[key].response.Accepted? || s.cache[key].response.Rejected?) ::
         var snap := s.cache[key].response.snapshot; snap.version in h && h[snap.version] == snap
  }

  ghost function Recorded(h: map<nat, Snapshot>, s: Server, id: bytes): (h': map<nat, Snapshot>) {
    h[DeviceOf(s, id).version := SnapshotOf(DeviceOf(s, id))]
  }

  /** The chronicle grows with every step and never changes an entry: the server has one snapshot per version. */
  lemma ChronicleStep(f: Fixtures, s: Server, op: ServerOp, id: bytes, h: map<nat, Snapshot>)
    requires Chronicle(s, id, h)
    ensures var h' := Recorded(h, Do(f, s, op), id);
            && Chronicle(Do(f, s, op), id, h')
            && DeviceOf(s, id).version <= DeviceOf(Do(f, s, op), id).version
            && forall k | k in h :: k in h' && h'[k] == h[k]
  {
    var s' := Do(f, s, op);
    if op.POST? {
      EventEffect(f, s, op.request, op.seqText, op.now);
      hide Handle;
      ChronicleExtends(s, s', id, h);
    } else {
      DeviceAdvances(s, s', op, id);
      hide Administer;
      hide Reset;
      ChronicleExtends(s, s', id, h);
    }
  }

  lemma DeviceAdvances(s: Server, s': Server, op: ServerOp, id: bytes)
    requires !op.POST? && s' == (if op.ADMIN? then Administer(s, op.id, op.disabled, op.maintenance) else Reset(s, op.id))
    ensures s'.cache == s.cache
    ensures DeviceOf(s', id) == DeviceOf(s, id) || DeviceOf(s', id).version > DeviceOf(s, id).version
  {
  }

  /** A step under which the version only rises when the device changes, and which caches only the device's current
    * snapshot, extends the chronicle. */
  lemma ChronicleExtends(s: Server, s': Server, id: bytes, h: map<nat, Snapshot>)
    requires Chronicle(s, id, h)
    requires DeviceOf(s', id) == DeviceOf(s, id) || DeviceOf(s', id).version > DeviceOf(s, id).version
    requires forall key | key in s'.cache && key.0 == id :: (key in s.cache && s'.cache[key] == s.cache[key])
               || ((s'.cache[key].response.Accepted? || s'.cache[key].response.Rejected?) ==>
                     s'.cache[key].response.snapshot == SnapshotOf(DeviceOf(s', id)))
    ensures var h' := Recorded(h, s', id);
            && Chronicle(s', id, h')
            && DeviceOf(s, id).version <= DeviceOf(s', id).version
            && forall k | k in h :: k in h' && h'[k] == h[k]
  {
    hide DeviceOf;
    hide ViewOf;
  }

  /** Every answer to an event carries a snapshot out of the chronicle. */
  lemma AnswersComeFromChronicle(f: Fixtures, s: Server, r: Request, seqText: bytes, now: bytes, h: map<nat, Snapshot>)
    requires Chronicle(s, r.deviceId, h)
    ensures var (s', resp) := Handle(f, s, r, seqText, now);
            var h' := Recorded(h, s', r.deviceId);
            resp.Accepted? || resp.Rejected? ==>
              resp.snapshot.version in h' && h'[resp.snapshot.version] == resp.snapshot
              && resp.snapshot.version <= DeviceOf(s', r.deviceId).version
  {
    var s' := Handle(f, s, r, seqText, now).0;
    EventEffect(f, s, r, seqText, now);
    ChronicleStep(f, s, POST(r, seqText, now), r.deviceId, h);
    hide ApplyEvent;
    hide Recorded;
    hide Answer;
    if (r.deviceId, r.eventId) !in s.cache {
      assert (r.deviceId, r.eventId) in s'.cache;
    }
  }

  /** Two states of one run in which a device has the same version show the same snapshot of it. */
  lemma {:induction false} OneSnapshotPerVersion(f: Fixtures, s: Server, ops: seq<ServerOp>, id: bytes)
    ensures var s' := RunServer(f, s, ops);
            && DeviceOf(s, id).version <= DeviceOf(s', id).version
            && (DeviceOf(s, id).version == DeviceOf(s', id).version ==> SnapshotOf(DeviceOf(s, id)) == SnapshotOf(DeviceOf(s', id)))
    decreases |ops|
  {
    hide ApplyEvent;
    if ops != [] {
      var front, op := ops[..|ops| - 1], ops[|ops| - 1];
      OneSnapshotPerVersion(f, s, front, id);
      if op.POST? {
        EventEffect(f, RunServer(f, s, front), op.request, op.seqText, op.now);
        hide Handle;
      }
    }
  }

  // --- The workflow ---

  function Join(parts: seq<bytes>): (raw: bytes)
    requires parts != []
  {
    if |parts| == 1 then parts[0] else parts[0] + ['|'] + Join(parts[1..])
  }

  /** Splitting is the one way to undo joining with bars. */
  lemma {:induction false} SplitJoin(raw: bytes)
    ensures Join(Split(raw)) == raw
    ensures forall part <- Split(raw) :: '|' !in part
  {
    if raw != [] {
      var rest := Split(raw[1..]);
      SplitJoin(raw[1..]);
      assert raw == [raw[0]] + raw[1..];
      if raw[0] == '|' {
        var none: bytes := [];
        assert ([none] + rest)[1..] == rest;
        assert Join([none] + rest) == none + ['|'] + Join(rest);
      } else {
        var parts := [[raw[0]] + rest[0]] + rest[1..];
        assert parts[1..] == rest[1..];
        assert rest[0] in rest;
        assert Join(parts) == [raw[0]] + Join(rest);
      }
    }
  }

  lemma {:induction false} JoinSplit(parts: seq<bytes>)
    requires parts != [] && forall part <- parts :: '|' !in part
    ensures Split(Join(parts)) == parts
    decreases |parts|, |parts[0]|
  {
    assert parts[0] in parts;
    if |parts| == 1 {
      var none: bytes := [];
      SplitPlain(parts[0], none);
      assert parts[0] + none == parts[0];
      assert Split(none) == [none] && [none][1..] == [];
      assert [parts[0]] + [none][1..] == [parts[0]] == parts;
    } else {
      assert forall part <- parts[1..] :: part in parts;
      JoinSplit(parts[1..]);
      var none: bytes := [];
      var tail, rest := ['|'] + Join(parts[1..]), [none] + parts[1..];
      assert tail[1..] == Join(parts[1..]);
      assert Split(tail) == rest;
      assert Join(parts) == parts[0] + ['|'] + Join(parts[1..]);
      SplitPlain(parts[0], tail);
      hide Split;
      hide Join;
      assert Join(parts) == parts[0] + tail;
      assert rest[0] == none && rest[1..] == parts[1..] && parts[0] + none == parts[0];
      assert [parts[0]] + parts[1..] == parts;
    }
  }

  lemma {:induction false} SplitPlain(plain: bytes, tail: bytes)
    requires '|' !in plain
    ensures Split(plain + tail) == [plain + Split(tail)[0]] + Split(tail)[1..]
    decreases |plain|
  {
    if plain == [] {
      assert plain + tail == tail;
      assert plain + Split(tail)[0] == Split(tail)[0];
      assert Split(tail) == [Split(tail)[0]] + Split(tail)[1..];
    } else {
      assert plain[0] in plain && (plain + tail)[1..] == plain[1..] + tail;
      assert forall c <- plain[1..] :: c in plain;
      SplitPlain(plain[1..], tail);
      var inner := plain[1..] + Split(tail)[0];
      assert plain == [plain[0]] + plain[1..];
      assert [plain[0]] + inner == plain + Split(tail)[0];
      assert ([inner] + Split(tail)[1..])[1..] == Split(tail)[1..];
    }
  }

  /** A scan names an employee or an operation exactly when it is WF, the kind and a bar-free value, joined by bars. */
  lemma ParseScanExact(raw: bytes, value: bytes)
    ensures ParseScan(raw) == EMP(value) <==> (raw == "WF|EMP|" + value && '|' !in value)
    ensures ParseScan(raw) == OP(value) <==> (raw == "WF|OP|" + value && '|' !in value)
  {
    SplitJoin(raw);
    ScanText("EMP", value);
    ScanText("OP", value);
    JoinThree(Split(raw));
    assert "WF" + ['|'] + "EMP" + ['|'] + value == "WF|EMP|" + value;
    assert "WF" + ['|'] + "OP" + ['|'] + value == "WF|OP|" + value;
    hide Split;
    hide Join;
  }

  lemma JoinThree(parts: seq<bytes>)
    ensures |parts| == 3 ==> Join(parts) == parts[0] + ['|'] + parts[1] + ['|'] + parts[2] && parts[2] in parts
  {
    if |parts| == 3 {
      assert Join(parts[1..]) == parts[1] + ['|'] + Join(parts[1..][1..]);
      assert Join(parts[1..][1..]) == parts[2];
      hide Join;
      assert parts[0] + ['|'] + (parts[1] + ['|'] + parts[2]) == parts[0] + ['|'] + parts[1] + ['|'] + parts[2];
    }
  }

  lemma ScanText(kind: bytes, value: bytes)
    requires '|' !in kind
    ensures '|' !in value ==> Split("WF" + ['|'] + kind + ['|'] + value) == ["WF", kind, value]
  {
    if '|' !in value {
      var parts: seq<bytes> := ["WF", kind, value];
      JoinSplit(parts);
      JoinThree(parts);
    }
  }

  /** The moves of the workflow, and what each asks for. */
  ghost predicate Asks(f: Fixtures, dev: Device, r: Request, to: BusinessState) {
    match dev.state
    case WAIT_EMPLOYEE =>
      && to == WAIT_OPERATION && r.event.SCAN?
      && exists id: bytes :: r.event.raw == "WF|EMP|" + id && '|' !in id && FindEmployee(f, id).Some? && FindEmployee(f, id).value.1
    case WAIT_OPERATION =>
      || (to == WAIT_EMPLOYEE && r.event.CANCEL_REQUESTED?)
      || (&& to == SESSION_ACTIVE && r.event.SCAN?
          && exists code: bytes :: r.event.raw == "WF|OP|" + code && '|' !in code && FindOperation(f, code).Some? && FindOperation(f, code).value.1)
    case SESSION_ACTIVE =>
      (to == WAIT_EMPLOYEE && r.event.CANCEL_REQUESTED?) || (to == QUANTITY_INPUT && r.event.FINISH_REQUESTED?)
    case QUANTITY_INPUT =>
      to == WAIT_EMPLOYEE && (r.event.CANCEL_REQUESTED? || (r.event.QUANTITY_SUBMITTED? && r.quantityGood.Some?))
    case _ => false
  }

  /** An event is accepted exactly when it claims no older version than the device's, the device is enabled, and the
    * workflow has a move for it; the device then is where that move leads. */
  lemma AcceptedExactly(f: Fixtures, s: Server, r: Request, seqText: bytes, now: bytes)
    requires (r.deviceId, r.eventId) !in s.cache
    ensures var (s', resp) := Handle(f, s, r, seqText, now);
            var dev, dev' := DeviceOf(s, r.deviceId), DeviceOf(s', r.deviceId);
            var current := r.expectedVersion.None? || r.expectedVersion.value >= dev.version;
            && (resp.Conflict? <==> !current)
            && (resp.Accepted? <==> current && !dev.disabled && !dev.maintenance && exists to :: Asks(f, dev, r, to))
            && (resp.Accepted? ==> Asks(f, dev, r, dev'.state))
  {
    var dev := DeviceOf(s, r.deviceId);
    var o := ApplyEvent(f, dev, r, seqText, now);
    WorkflowMoves(f, dev, r, seqText, now);
    hide ApplyEvent;
    hide Asks;
  }

  lemma WorkflowMoves(f: Fixtures, dev: Device, r: Request, seqText: bytes, now: bytes)
    ensures var o := ApplyEvent(f, dev, r, seqText, now);
            && (o.Move? <==> !dev.disabled && !dev.maintenance && exists to :: Asks(f, dev, r, to))
            && (o.Move? ==> Asks(f, dev, r, o.dev.state))
  {
    if r.event.SCAN? {
      var scan := ParseScan(r.event.raw);
      forall value: bytes
        ensures scan == EMP(value) <==> r.event.raw == "WF|EMP|" + value && '|' !in value
        ensures scan == OP(value) <==> r.event.raw == "WF|OP|" + value && '|' !in value
      {
        ParseScanExact(r.event.raw, value);
      }
      hide ParseScan;
      hide FindEmployee;
      hide FindOperation;
      ScanMoves(f, dev, r, seqText, now);
    } else {
      OtherMoves(f, dev, r, seqText, now);
    }
  }

  lemma OtherMoves(f: Fixtures, dev: Device, r: Request, seqText: bytes, now: bytes)
    requires !r.event.SCAN?
    ensures var o := ApplyEvent(f, dev, r, seqText, now);
            && (o.Move? ==> Asks(f, dev, r, o.dev.state))
            && (!dev.disabled && !dev.maintenance ==> forall to :: Asks(f, dev, r, to) ==> o.Move?)
            && (o.Move? ==> !dev.disabled && !dev.maintenance)
  {
  }

  lemma ScanMoves(f: Fixtures, dev: Device, r: Request, seqText: bytes, now: bytes)
    requires r.event.SCAN?
    requires forall value: bytes :: ParseScan(r.event.raw) == EMP(value) <==> (r.event.raw == "WF|EMP|" + value && '|' !in value)
    requires forall value: bytes :: ParseScan(r.event.raw) == OP(value) <==> (r.event.raw == "WF|OP|" + value && '|' !in value)
    ensures var o := ApplyEvent(f, dev, r, seqText, now);
            && (o.Move? ==> Asks(f, dev, r, o.dev.state))
            && (!dev.disabled && !dev.maintenance ==> forall to :: Asks(f, dev, r, to) ==> o.Move?)
            && (o.Move? ==> !dev.disabled && !dev.maintenance)
  {
    hide ParseScan;
    hide FindEmployee;
    hide FindOperation;
    var scan := ParseScan(r.event.raw);
    if scan.EMP? {
      assert scan == EMP(scan.value);
    } else if scan.OP? {
      assert scan == OP(scan.value);
    }
  }

  /** The view shows an employee exactly from the first scan on and an operation exactly from the second, and an
    * accepted event keeps the employee and the operation until the session ends. */
  lemma ViewFollowsWorkflow(f: Fixtures, dev: Device, r: Request, seqText: bytes, now: bytes)
    ensures SnapshotOf(dev).view.employeeName.Some? <==> dev.state != WAIT_EMPLOYEE
    ensures SnapshotOf(dev).view.operationCode.Some? <==> Working(dev.state)
    ensures var o := ApplyEvent(f, dev, r, seqText, now);
            o.Move? && dev.state != WAIT_EMPLOYEE && o.dev.state != WAIT_EMPLOYEE ==>
              && SnapshotOf(o.dev).view.employeeName == SnapshotOf(dev).view.employeeName
              && o.dev.session.value.employeeId == dev.session.value.employeeId
              && (Working(dev.state) ==> o.dev.session == dev.session)
  {
    hide ParseScan;
    hide FindEmployee;
    hide FindOperation;
  }
}
