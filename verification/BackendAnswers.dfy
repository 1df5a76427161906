/** What the server answers, said from the request, the fixtures and the device alone: whom and what the view shows after
  * each accepted event, and which error each refusal carries. */
module BackendAnswers {
  import opened Bytes
  import opened StateProjection
  import opened MockBackend

  /** A badge of any real card: NV and digits. */
  predicate RealCard(id: bytes) {
    |id| > 2 && id[0] == 'N' && id[1] == 'V' && forall i | 2 <= i < |id| :: '0' <= id[i] <= '9'
  }

  predicate CardKnown(f: Fixtures, id: bytes) {
    id in f.employees || RealCard(id)
  }

  predicate CardActive(f: Fixtures, id: bytes) {
    if id in f.employees then f.employees[id].1 else RealCard(id)
  }

  function CardName(f: Fixtures, id: bytes): (name: bytes) {
    if id in f.employees then f.employees[id].0 else "Real Card " + id
  }

  predicate OperationKnown(f: Fixtures, code: bytes) {
    code in f.operations || code != []
  }

  predicate OperationOpen(f: Fixtures, code: bytes) {
    if code in f.operations then f.operations[code].1 else code != []
  }

  function OperationName(f: Fixtures, code: bytes): (name: bytes) {
    if code in f.operations then f.operations[code].0 else code
  }

  /** The scan line of a badge, and that of an operation. */
  predicate Badge(r: Request, id: bytes) {
    r.event.SCAN? && r.event.raw == "WF|EMP|" + id && '|' !in id
  }

  predicate OperationCode(r: Request, code: bytes) {
    r.event.SCAN? && r.event.raw == "WF|OP|" + code && '|' !in code
  }

  /** The request claims no older version than the device's. */
  predicate Current(dev: Device, r: Request) {
    r.expectedVersion.None? || r.expectedVersion.value >= dev.version
  }

  /** What an accepted event makes of the view. */
  ghost predicate ShowsMove(f: Fixtures, dev: Device, r: Request, seqText: bytes, now: bytes, after: Snapshot) {
    match r.event
    case SCAN(_) =>
      if dev.state == WAIT_EMPLOYEE then
        after.state == WAIT_OPERATION
        && exists id :: Badge(r, id) && after.view == ViewModel(Some(CardName(f, id)), None, None, None, None, None, None)
      else
        after.state == SESSION_ACTIVE
        && exists code :: OperationCode(r, code) && after.view ==
             ViewModel(SnapshotOf(dev).view.employeeName, Some(code), Some(OperationName(f, code)), Some(seqText), Some(now),
                       Some(100), Some(0))
    case FINISH_REQUESTED => after.state == QUANTITY_INPUT && after.view == SnapshotOf(dev).view
    case QUANTITY_SUBMITTED => after.state == WAIT_EMPLOYEE && after.view == ViewModel(None, None, None, None, None, None, None)
    case CANCEL_REQUESTED => after.state == WAIT_EMPLOYEE && after.view == ViewModel(None, None, None, None, None, None, None)
    case UNKNOWN_TYPE => false
  }

  /** When an event of a current version is refused with which error. */
  ghost predicate RefusedFor(f: Fixtures, dev: Device, r: Request, error: ErrorCode) {
    match error
    case DEVICE_IS_DISABLED => dev.disabled
    case IN_MAINTENANCE => !dev.disabled && dev.maintenance
    case PROTOCOL_DECODE_FAILED => !dev.disabled && !dev.maintenance && r.event.UNKNOWN_TYPE?
    case EMPLOYEE_NOT_FOUND =>
      && !dev.disabled && !dev.maintenance && dev.state == WAIT_EMPLOYEE
      && exists id :: Badge(r, id) && !CardKnown(f, id)
    case EMPLOYEE_DISABLED =>
      && !dev.disabled && !dev.maintenance && dev.state == WAIT_EMPLOYEE
      && exists id :: Badge(r, id) && CardKnown(f, id) && !CardActive(f, id)
    case OPERATION_NOT_FOUND =>
      && !dev.disabled && !dev.maintenance && dev.state == WAIT_OPERATION
      && exists code :: OperationCode(r, code) && !OperationKnown(f, code)
    case OPERATION_CLOSED =>
      && !dev.disabled && !dev.maintenance && dev.state == WAIT_OPERATION
      && exists code :: OperationCode(r, code) && OperationKnown(f, code) && !OperationOpen(f, code)
    case QUANTITY_INVALID =>
      !dev.disabled && !dev.maintenance && dev.state == QUANTITY_INPUT && r.event.QUANTITY_SUBMITTED? && r.quantityGood.None?
    case STATE_INVALID_TRANSITION =>
      && !dev.disabled && !dev.maintenance
      && match r.event
         case SCAN(_) =>
           && (dev.state == WAIT_EMPLOYEE ==> forall id :: !Badge(r, id))
           && (dev.state == WAIT_OPERATION ==> forall code :: !OperationCode(r, code))
         case FINISH_REQUESTED => dev.state != SESSION_ACTIVE
         case QUANTITY_SUBMITTED => dev.state != QUANTITY_INPUT
         case CANCEL_REQUESTED => dev.state == WAIT_EMPLOYEE
         case UNKNOWN_TYPE => false
  }

  /** The answer to an event that was not answered before. A conflict carries the version of the device; a refusal the
    * error that fits and what the device shows; an acceptance what the device shows now. */
  lemma AnswerExactly(f: Fixtures, s: Server, r: Request, seqText: bytes, now: bytes)
    requires (r.deviceId, r.eventId) !in s.cache
    ensures var (s', resp) := Handle(f, s, r, seqText, now);
            var dev := DeviceOf(s, r.deviceId);
            && resp.eventId == r.eventId && !resp.KeyReuseMismatch? && resp.serverSeq == s.serverSeq + 1
            && (resp.Conflict? <==> !Current(dev, r))
            && (resp.Conflict? ==> resp.currentVersion == dev.version)
            && (Current(dev, r) ==> forall error :: (resp.Rejected? && resp.error == error) <==> RefusedFor(f, dev, r, error))
            && (resp.Rejected? ==> resp.snapshot == SnapshotOf(dev))
            && (resp.Accepted? ==>
                  && resp.snapshot.version == dev.version + 1 && resp.snapshot.workflowVersion == dev.workflowVersion
                  && ShowsMove(f, dev, r, seqText, now, resp.snapshot)
                  && (dev.state == WAIT_EMPLOYEE ==>
                        var session := DeviceOf(s', r.deviceId).session;
                        session.Some? && Badge(r, session.value.employeeId)))
  {
    var dev := DeviceOf(s, r.deviceId);
    var o := ApplyEvent(f, dev, r, seqText, now);
    MoveShows(f, dev, r, seqText, now);
    RefusalFits(f, dev, r, seqText, now);
    hide ApplyEvent;
    hide RefusedFor;
    hide ShowsMove;
    hide SnapshotOf;
  }

  /** The answer to an event that was answered before: the same again to the same request, a mismatch to any other; nothing
    * but the count of requests changes. */
  lemma RepeatExactly(f: Fixtures, s: Server, r: Request, seqText: bytes, now: bytes)
    requires (r.deviceId, r.eventId) in s.cache
    ensures var (s', resp) := Handle(f, s, r, seqText, now);
            var entry := s.cache[(r.deviceId, r.eventId)];
            && resp == (if r == entry.request then entry.response else KeyReuseMismatch(r.eventId))
            && s'.cache == s.cache && s'.devices == s.devices && s'.serverSeq == s.serverSeq + 1
  {
    hide ApplyEvent;
  }

  /** What a scan line is taken for. */
  lemma ScanRead(r: Request)
    requires r.event.SCAN?
    ensures match ParseScan(r.event.raw)
            case EMP(id) => Badge(r, id)
            case OP(code) => OperationCode(r, code)
            case OTHER_KIND => true
    ensures forall id :: Badge(r, id) ==> ParseScan(r.event.raw) == EMP(id)
    ensures forall code :: OperationCode(r, code) ==> ParseScan(r.event.raw) == OP(code)
  {
    forall value: bytes
      ensures ParseScan(r.event.raw) == EMP(value) <==> Badge(r, value)
      ensures ParseScan(r.event.raw) == OP(value) <==> OperationCode(r, value)
    {
      ParseScanExact(r.event.raw, value);
    }
    hide ParseScan;
    hide Badge;
    hide OperationCode;
    match ParseScan(r.event.raw) {
      case EMP(id) => assert ParseScan(r.event.raw) == EMP(id) <==> Badge(r, id);
      case OP(code) => assert ParseScan(r.event.raw) == OP(code) <==> OperationCode(r, code);
      case OTHER_KIND =>
    }
  }

  lemma CardFound(f: Fixtures, id: bytes)
    ensures FindEmployee(f, id) == if CardKnown(f, id) then Some((CardName(f, id), CardActive(f, id))) else None
  {
    if |id| > 2 {
      assert id[..2] == [id[0], id[1]];
      assert RealCard(id) <==> id[..2] == "NV" && AllDigits(id[2..]) by {
        assert forall i | 2 <= i < |id| :: id[i] == id[2..][i - 2] && id[i] in id[2..];
      }
    }
  }

  lemma OperationFound(f: Fixtures, code: bytes)
    ensures FindOperation(f, code) ==
            if OperationKnown(f, code) then Some((OperationName(f, code), OperationOpen(f, code))) else None
  {
  }

  lemma MoveShows(f: Fixtures, dev: Device, r: Request, seqText: bytes, now: bytes)
    ensures var o := ApplyEvent(f, dev, r, seqText, now);
            o.Move? ==>
              && o.dev.version == dev.version + 1 && o.dev.workflowVersion == dev.workflowVersion
              && SnapshotOf(o.dev).version == dev.version + 1 && SnapshotOf(o.dev).workflowVersion == dev.workflowVersion
              && ShowsMove(f, dev, r, seqText, now, SnapshotOf(o.dev))
              && (dev.state == WAIT_EMPLOYEE ==> o.dev.session.Some? && Badge(r, o.dev.session.value.employeeId))
  {
    if r.event.SCAN? {
      var scan := ParseScan(r.event.raw);
      ScanRead(r);
      hide ParseScan;
      hide Badge;
      hide OperationCode;
      if scan.EMP? {
        CardFound(f, scan.value);
      } else if scan.OP? {
        OperationFound(f, scan.value);
      }
      hide FindEmployee;
      hide FindOperation;
      hide CardName;
      hide CardKnown;
      hide CardActive;
      hide OperationName;
      hide OperationKnown;
      hide OperationOpen;
    }
  }

  lemma RefusalFits(f: Fixtures, dev: Device, r: Request, seqText: bytes, now: bytes)
    ensures var o := ApplyEvent(f, dev, r, seqText, now);
            forall error :: (o.Fail? && o.error == error) <==> RefusedFor(f, dev, r, error)
  {
    forall error
      ensures ApplyEvent(f, dev, r, seqText, now) == Fail(error) <==> RefusedFor(f, dev, r, error)
    {
      if r.event.SCAN? {
        ScanRefusalFits(f, dev, r, seqText, now, error);
      }
    }
    hide ApplyEvent;
    hide RefusedFor;
  }

  lemma ScanRefusalFits(f: Fixtures, dev: Device, r: Request, seqText: bytes, now: bytes, error: ErrorCode)
    requires r.event.SCAN?
    ensures ApplyEvent(f, dev, r, seqText, now) == Fail(error) <==> RefusedFor(f, dev, r, error)
  {
    var scan := ParseScan(r.event.raw);
    ScanRead(r);
    hide ParseScan;
    hide Badge;
    hide OperationCode;
    if scan.EMP? {
      CardFound(f, scan.value);
    } else if scan.OP? {
      OperationFound(f, scan.value);
    }
    hide FindEmployee;
    hide FindOperation;
    hide CardKnown;
    hide CardActive;
    hide OperationKnown;
    hide OperationOpen;
  }

  /** The state a device shows: its own unless it is switched off or in maintenance. */
  lemma ShownState(dev: Device)
    ensures var shown := SnapshotOf(dev);
            && (shown.state == DEVICE_DISABLED <==> dev.disabled)
            && (shown.state == MAINTENANCE <==> !dev.disabled && dev.maintenance)
            && (!dev.disabled && !dev.maintenance ==> shown.state == dev.state)
            && shown.version == dev.version
  {
  }

  /** What an administrator does: a reset leaves the device as new but for its versions, anything else sets the flags it
    * names and leaves the work going on; every other device and every answer given stay. */
  lemma AdminExactly(f: Fixtures, s: Server, op: ServerOp)
    requires !op.POST?
    ensures var s', id := Do(f, s, op), op.id;
            var dev, dev' := DeviceOf(s, id), DeviceOf(s', id);
            && s'.cache == s.cache && s'.serverSeq == s.serverSeq
            && (forall other | other != id :: DeviceOf(s', other) == DeviceOf(s, other))
            && dev'.workflowVersion == dev.workflowVersion
            && (op.RESET? ==>
                  && dev'.version == dev.version + 1 && dev'.state == WAIT_EMPLOYEE && dev'.session.None?
                  && !dev'.disabled && !dev'.maintenance)
            && (op.ADMIN? ==>
                  && dev'.state == dev.state && dev'.session == dev.session
                  && dev'.disabled == (if op.disabled.Some? then op.disabled.value else dev.disabled)
                  && dev'.maintenance == (if op.maintenance.Some? then op.maintenance.value else dev.maintenance)
                  && dev'.version == dev.version + (if op.disabled.Some? then 1 else 0) + (if op.maintenance.Some? then 1 else 0))
  {
  }
}
