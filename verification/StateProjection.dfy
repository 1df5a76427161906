/** The device's read-only projection of the server's state: a snapshot is taken over only when its version is newer. */
module StateProjection {
  import opened Bytes

  datatype BusinessState =
    WAIT_EMPLOYEE | WAIT_OPERATION | SESSION_ACTIVE | QUANTITY_INPUT | DEVICE_DISABLED | MAINTENANCE | UNSUPPORTED

  datatype ViewModel = ViewModel(
    employeeName: Option<bytes>, operationCode: Option<bytes>, operationName: Option<bytes>, sessionId: Option<bytes>,
    startedAt: Option<bytes>, targetQty: Option<int>, producedQty: Option<int>)

  datatype Snapshot = Snapshot(state: BusinessState, version: nat, workflowVersion: nat, view: ViewModel)

  datatype ApplyResult = APPLIED | APPLIED_IDENTICAL | REJECTED_STALE | REJECTED_INCONSISTENT | REJECTED_UNSUPPORTED

  function Verdict(current: Option<Snapshot>, incoming: Snapshot): (r: ApplyResult) {
    if incoming.state == UNSUPPORTED then REJECTED_UNSUPPORTED
    else if current.None? then APPLIED
    else if incoming.version < current.value.version then REJECTED_STALE
    else if incoming.version > current.value.version then APPLIED
    else if incoming == current.value then APPLIED_IDENTICAL
    else REJECTED_INCONSISTENT
  }

  function Applied(current: Option<Snapshot>, incoming: Snapshot): (next: Option<Snapshot>) {
    if Verdict(current, incoming) == APPLIED then Some(incoming) else current
  }

  class StateProjection {
    var current: Option<Snapshot>

    constructor ()
      ensures current == None
    {
      current := None;
    }

    /** apply. */
    method Apply(incoming: Snapshot) returns (r: ApplyResult)
      modifies this
      ensures r == Verdict(old(current), incoming) && current == Applied(old(current), incoming)
    {
      if incoming.state == UNSUPPORTED {
        return REJECTED_UNSUPPORTED;
      }
      if current.None? {
        current := Some(incoming);
        return APPLIED;
      }
      if incoming.version < current.value.version {
        return REJECTED_STALE;
      }
      if incoming.version == current.value.version {
        return if incoming == current.value then APPLIED_IDENTICAL else REJECTED_INCONSISTENT;
      }
      current := Some(incoming);
      return APPLIED;
    }
  }

  /** The projection after these deliveries, oldest first. */
  function Projected(deliveries: seq<Snapshot>): (p: Option<Snapshot>) {
    if deliveries == [] then None
    else Applied(Projected(deliveries[..|deliveries| - 1]), deliveries[|deliveries| - 1])
  }

  /** One snapshot per version. */
  ghost predicate OnePerVersion(deliveries: seq<Snapshot>) {
    forall a, b | a in deliveries && b in deliveries && a.version == b.version :: a == b
  }

  /** Whatever is delivered, the projection is a delivered snapshot of a known state and of the highest version. */
  lemma {:induction false} ProjectedIsHighest(deliveries: seq<Snapshot>)
    ensures Projected(deliveries).None? <==> forall d <- deliveries :: d.state == UNSUPPORTED
    ensures Projected(deliveries).Some? ==>
              && Projected(deliveries).value in deliveries && Projected(deliveries).value.state != UNSUPPORTED
              && forall d <- deliveries :: d.state == UNSUPPORTED || d.version <= Projected(deliveries).value.version
    decreases |deliveries|
  {
    if deliveries != [] {
      var front, last := deliveries[..|deliveries| - 1], deliveries[|deliveries| - 1];
      ProjectedIsHighest(front);
      assert deliveries == front + [last];
      assert forall d :: d in deliveries <==> d in front || d == last;
      assert Projected(deliveries) == Applied(Projected(front), last);
    }
  }

  /** The version of the projection never goes back. */
  lemma VersionNeverRegresses(current: Option<Snapshot>, incoming: Snapshot)
    ensures current.Some? ==> Applied(current, incoming).Some? && current.value.version <= Applied(current, incoming).value.version
    ensures Verdict(current, incoming) != APPLIED ==> Applied(current, incoming) == current
  {
  }

  /** With one snapshot per version, order and duplication of deliveries do not matter. */
  lemma OrderAndDuplicationIrrelevant(a: seq<Snapshot>, b: seq<Snapshot>)
    requires OnePerVersion(a) && forall d :: d in a <==> d in b
    ensures Projected(a) == Projected(b)
  {
    ProjectedIsHighest(a);
    ProjectedIsHighest(b);
    hide Projected;
  }

  /** An inconsistency is reported exactly when a second snapshot of the current version differs from the first;
    * so with one snapshot per version it never is. */
  lemma InconsistencyExact(deliveries: seq<Snapshot>, incoming: Snapshot)
    ensures Verdict(Projected(deliveries), incoming) == REJECTED_INCONSISTENT <==>
            (incoming.state != UNSUPPORTED && Projected(deliveries).Some?
             && Projected(deliveries).value.version == incoming.version && Projected(deliveries).value != incoming)
    ensures OnePerVersion(deliveries + [incoming]) ==> Verdict(Projected(deliveries), incoming) != REJECTED_INCONSISTENT
  {
    ProjectedIsHighest(deliveries);
    hide Projected;
    assert incoming in deliveries + [incoming];
    assert forall d <- deliveries :: d in deliveries + [incoming];
  }
}
