/** The A/B store of UI bundles: a new bundle is checked and written to the idle slot, then selected by one small
  * metadata write. */
module UiBundleStore {
  import opened Bytes

  datatype Slot = A | B

  function Other(s: Slot): (o: Slot) {
    if s == A then B else A
  }

  datatype Meta = Meta(version: nat, hash: bytes, schema: nat)

  const NO_META := Meta(0, [], 0)
  const SCHEMA_MIN := 1
  const SCHEMA_MAX := 1

  /** What survives a power cut: the two bundle files and the NVS keys. */
  datatype Durable = Durable(files: map<Slot, bytes>, selected: Option<Slot>, lastGood: nat, meta: map<Slot, Meta>)

  datatype Staged = Staged(slot: Slot, version: nat)

  datatype StageResult = STAGED | HASH_MISMATCH | PARSE_FAILED | SCHEMA_UNSUPPORTED | STORAGE_FAILED

  /** SHA-256 as lower-case hex, and the bundle parser reduced to the schema version it finds. */
  datatype Checks = Checks(hash: bytes -> bytes, parse: bytes -> Option<nat>)

  function MetaOf(d: Durable, s: Slot): (m: Meta) {
    if s in d.meta then d.meta[s] else NO_META
  }

  function FileOf(d: Durable, s: Slot): (raw: bytes) {
    if s in d.files then d.files[s] else []
  }

  function Lower(s: bytes): (l: bytes) {
    if s == [] then [] else [if 'A' <= s[0] <= 'Z' then ToByte(s[0] as int + 32) else s[0]] + Lower(s[1..])
  }

  /** The same byte, or one letter in its two cases. */
  predicate SameLetter(x: byte, y: byte) {
    || x == y
    || ('A' <= x <= 'Z' && y as int == x as int + 32)
    || ('A' <= y <= 'Z' && x as int == y as int + 32)
  }

  /** Equal apart from the case of letters. */
  predicate SameText(a: bytes, b: bytes) {
    |a| == |b| && forall i | 0 <= i < |a| :: SameLetter(a[i], b[i])
  }

  lemma {:induction false} LowerExactly(a: bytes, b: bytes)
    ensures Lower(a) == Lower(b) <==> SameText(a, b)
    decreases |a|
  {
    LowerLength(a);
    LowerLength(b);
    if a != [] && b != [] {
      LowerExactly(a[1..], b[1..]);
      assert Lower(a)[0] == Lower(b)[0] <==> SameLetter(a[0], b[0]);
      assert Lower(a) == [Lower(a)[0]] + Lower(a[1..]) && Lower(b) == [Lower(b)[0]] + Lower(b[1..]);
      assert Lower(a)[1..] == Lower(a[1..]) && Lower(b)[1..] == Lower(b[1..]);
      assert SameText(a, b) <==> SameLetter(a[0], b[0]) && SameText(a[1..], b[1..]) by {
        assert |a| == |b| ==> forall i | 0 <= i < |a[1..]| :: a[1..][i] == a[i + 1] && b[1..][i] == b[i + 1];
        if SameLetter(a[0], b[0]) && SameText(a[1..], b[1..]) {
          forall i | 0 <= i < |a|
            ensures SameLetter(a[i], b[i])
          {
            assert i > 0 ==> a[i] == a[1..][i - 1] && b[i] == b[1..][i - 1];
          }
        }
      }
    }
  }

  lemma {:induction false} LowerLength(s: bytes)
    ensures |Lower(s)| == |s|
    decreases |s|
  {
    if s != [] {
      LowerLength(s[1..]);
    }
  }

  /** The download is the announced one: no hash was announced, or this one. */
  predicate HashFits(c: Checks, raw: bytes, expected: bytes) {
    expected == [] || SameText(c.hash(raw), expected)
  }

  /** What is asked of a bundle: it is the announced one, it parses, and it is of the one schema the device knows. */
  predicate Checked(c: Checks, raw: bytes, expected: bytes) {
    HashFits(c, raw, expected) && c.parse(raw) == Some(1)
  }

  /** What a boot shows: the content of the selected slot when it parses, else the built-in screens. */
  function BootBundle(c: Checks, d: Durable): (raw: Option<bytes>) {
    if d.selected.None? || FileOf(d, d.selected.value) == [] then None
    else if c.parse(FileOf(d, d.selected.value)).None? then None
    else Some(FileOf(d, d.selected.value))
  }

  // --- The disks an installation passes through ---

  function Written(d: Durable, s: Slot, raw: bytes): (d': Durable) {
    d.(files := d.files[s := raw])
  }

  function Put(d: Durable, s: Slot, m: Meta): (d': Durable) {
    d.(meta := d.meta[s := m])
  }

  /** A bundle as it is staged: its text, the version it was announced with, its hash and its schema. */
  datatype Bundle = Bundle(raw: bytes, version: nat, hash: bytes, schema: nat)

  /** The first `n` of the three metadata values in place. */
  function Metadata(m: Meta, b: Bundle, n: nat): (m': Meta) {
    Meta(if n >= 1 then b.version else m.version, if n >= 2 then b.hash else m.hash, if n >= 3 then b.schema else m.schema)
  }

  /** The file whole and `n` of the three puts done. */
  function WithMeta(before: Durable, to: Slot, b: Bundle, n: nat): (d: Durable) {
    var whole := Written(before, to, b.raw);
    if n == 0 then whole else Put(whole, to, Metadata(MetaOf(before, to), b, n))
  }

  /** What may be on flash while stage() writes, and after it gave up: nothing new, a prefix of the file, or the whole
    * file and the first metadata values. */
  ghost predicate StageCut(before: Durable, to: Slot, b: Bundle, d: Durable) {
    || d == before
    || (exists k: nat | k <= |b.raw| :: d == Written(before, to, b.raw[..k]))
    || d == WithMeta(before, to, b, 1) || d == WithMeta(before, to, b, 2) || d == WithMeta(before, to, b, 3)
  }

  /** What may be on flash while activate_staged() writes. */
  ghost predicate ActivateCut(before: Durable, to: Slot, version: nat, d: Durable) {
    d == before || d == before.(selected := Some(to)) || d == before.(selected := Some(to), lastGood := version)
  }

  class UiBundleStore {
    const checks: Checks
    var durable: Durable
    var activeSlot: Slot
    var hasActive: bool
    var activeVersion: nat
    var activeHash: bytes
    var staged: Option<Staged>
    ghost var trail: seq<Durable>
    ghost var faults: nat

    ghost function State(): (s: Store)
      reads this
    {
      Store(durable, activeSlot, staged)
    }

    constructor (checks: Checks, durable: Durable)
      ensures this.checks == checks && trail == [durable] && State() == Booted(durable)
    {
      this.checks, this.durable := checks, durable;
      activeSlot, hasActive, activeVersion, activeHash, staged := A, false, 0, [], None;
      trail, faults := [durable], 0;
      new;
      LoadActiveFromNvs();
    }

    /** load_active_from_nvs. */
    method LoadActiveFromNvs()
      modifies this`activeSlot, this`hasActive, this`activeVersion, this`activeHash
      ensures durable.selected.None? ==> !hasActive && activeSlot == old(activeSlot)
      ensures durable.selected.Some? ==> activeSlot == durable.selected.value
      ensures hasActive <==> BootBundle(checks, durable).Some?
      ensures hasActive ==> activeVersion == MetaOf(durable, activeSlot).version && activeHash == MetaOf(durable, activeSlot).hash
    {
      if durable.selected.None? {
        hasActive := false;
        return;
      }
      activeSlot := durable.selected.value;
      activeVersion := MetaOf(durable, activeSlot).version;
      activeHash := MetaOf(durable, activeSlot).hash;
      var raw := FileOf(durable, activeSlot);
      hasActive := raw != [] && checks.parse(raw).Some?;
    }

    /** One NVS put of the idle slot's metadata; atomic, may fail. `faults` counts the puts and writes that failed. */
    method PutMeta(slot: Slot, m: Meta) returns (ok: bool)
      modifies this`durable, this`trail, this`faults
      ensures faults >= old(faults) && (ok <==> faults == old(faults))
      ensures durable == if ok then Put(old(durable), slot, m) else old(durable)
      ensures trail == old(trail) + [durable]
    {
      ok :| ok ==> true;
      if ok {
        durable := Put(durable, slot, m);
      } else {
        faults := faults + 1;
      }
      trail := trail + [durable];
    }

    /** write_spiffs_file: the file is truncated, then some prefix of the data arrives. */
    method WriteFile(slot: Slot, raw: bytes) returns (ok: bool)
      modifies this`durable, this`trail, this`faults
      ensures faults >= old(faults) && (ok <==> faults == old(faults))
      ensures ok ==> durable == Written(old(durable), slot, raw)
      ensures durable == old(durable) || exists k: nat | k <= |raw| :: durable == Written(old(durable), slot, raw[..k])
      ensures old(trail) <= trail
      ensures forall i | |old(trail)| <= i < |trail| :: exists k: nat | k <= |raw| :: trail[i] == Written(old(durable), slot, raw[..k])
    {
      var isOpen: bool :| true;
      if !isOpen {
        faults := faults + 1;
        return false;
      }
      var n: nat :| n <= |raw|;
      if n < |raw| {
        faults := faults + 1;
      }
      ghost var before := durable;
      trail := trail + seq(n + 1, k requires 0 <= k <= n => Written(before, slot, raw[..k]));
      durable := Written(durable, slot, raw[..n]);
      ok := n == |raw|;
      assert raw[..|raw|] == raw;
    }

    /** stage. */
    method Stage(raw: bytes, version: nat, expected: bytes) returns (r: StageResult)
      modifies this`durable, this`trail, this`faults, this`staged
      ensures r == HASH_MISMATCH <==> !HashFits(checks, raw, expected)
      ensures r == PARSE_FAILED <==> HashFits(checks, raw, expected) && checks.parse(raw).None?
      ensures r == SCHEMA_UNSUPPORTED <==>
                HashFits(checks, raw, expected) && checks.parse(raw).Some? && checks.parse(raw).value != 1
      ensures r == STAGED <==> Checked(checks, raw, expected) && faults == old(faults)
      ensures !Checked(checks, raw, expected) ==> durable == old(durable) && trail == old(trail)
      ensures faults >= old(faults)
      ensures staged == if r == STAGED then Some(Staged(Other(activeSlot), version)) else old(staged)
      ensures r == STAGED ==> durable == WithMeta(old(durable), Other(activeSlot), BundleOf(checks, raw, version), 3)
      ensures r == STORAGE_FAILED ==> StageCut(old(durable), Other(activeSlot), BundleOf(checks, raw, version), durable)
      ensures old(trail) <= trail
      ensures forall i | |old(trail)| <= i < |trail| ::
                StageCut(old(durable), Other(activeSlot), BundleOf(checks, raw, version), trail[i])
    {
      var actual := checks.hash(raw);
      LowerExactly(actual, expected);
      if expected != [] && Lower(actual) != Lower(expected) {
        return HASH_MISMATCH;
      }
      var parsed := checks.parse(raw);
      if parsed.None? {
        return PARSE_FAILED;
      }
      if parsed.value < SCHEMA_MIN || parsed.value > SCHEMA_MAX {
        return SCHEMA_UNSUPPORTED;
      }
      var target := Other(activeSlot);
      var ok := WriteFile(target, raw);
      if ok {
        assert raw[..|raw|] == raw;
        ok := PutAll(target, raw, version, actual, parsed.value, old(durable));
      }
      if !ok {
        return STORAGE_FAILED;
      }
      staged := Some(Staged(target, version));
      return STAGED;
    }

    /** The three metadata puts, each only after the one before. */
    method PutAll(target: Slot, raw: bytes, version: nat, hash: bytes, schema: nat, ghost before: Durable) returns (ok: bool)
      requires durable == Written(before, target, raw)
      modifies this`durable, this`trail, this`faults
      ensures faults >= old(faults) && (ok <==> faults == old(faults))
      ensures var b := Bundle(raw, version, hash, schema);
              && (ok ==> durable == WithMeta(before, target, b, 3))
              && StageCut(before, target, b, durable)
              && old(trail) <= trail
              && forall i | |old(trail)| <= i < |trail| :: StageCut(before, target, b, trail[i])
    {
      ghost var b := Bundle(raw, version, hash, schema);
      assert raw[..|raw|] == raw;
      ok := PutMeta(target, MetaOf(durable, target).(version := version));
      assert durable == WithMeta(before, target, b, if ok then 1 else 0);
      if ok {
        ok := PutMeta(target, MetaOf(durable, target).(hash := hash));
        assert durable == WithMeta(before, target, b, if ok then 2 else 1);
      }
      if ok {
        ok := PutMeta(target, MetaOf(durable, target).(schema := schema));
      }
    }

    /** activate_staged. `selected` tells whether the put of the selection went through. */
    method ActivateStaged() returns (ok: bool, ghost selected: bool)
      modifies this
      ensures old(staged).None? ==> !ok && State() == old(State()) && trail == old(trail)
      ensures old(staged).Some? ==>
                var to, version := old(staged).value.slot, old(staged).value.version;
                && (if ok then State() == Store(old(durable).(selected := Some(to), lastGood := version), to, None)
                    else State() == old(State()).(durable := if selected then old(durable).(selected := Some(to)) else old(durable)))
                && forall i | |old(trail)| <= i < |trail| :: ActivateCut(old(durable), to, version, trail[i])
      ensures ok ==> (hasActive <==> BootBundle(checks, durable).Some?)
      ensures ok && hasActive ==>
                activeVersion == MetaOf(durable, activeSlot).version && activeHash == MetaOf(durable, activeSlot).hash
      ensures faults >= old(faults) && (ok <==> old(staged).Some? && faults == old(faults))
      ensures old(trail) <= trail
    {
      selected := false;
      if staged.None? {
        return false, selected;
      }
      ok :| ok ==> true;
      if ok {
        selected := true;
        durable := durable.(selected := Some(staged.value.slot));
        trail := trail + [durable];
        ok :| ok ==> true;
        if ok {
          durable := durable.(lastGood := staged.value.version);
          trail := trail + [durable];
        }
      }
      if !ok {
        faults := faults + 1;
        return;
      }
      staged := None;
      LoadActiveFromNvs();
    }

    /** The end of a download in ui_sync_controller: stage, and activate only what was just staged. */
    method Install(raw: bytes, version: nat, expected: bytes) returns (ok: bool, ghost outcome: InstallOutcome)
      modifies this
      ensures Installs(checks, old(State()), raw, version, expected, outcome, State())
      ensures ok <==> outcome == INSTALLED
      ensures faults >= old(faults) && (ok <==> Checked(checks, raw, expected) && faults == old(faults))
      ensures ok ==>
                && durable.selected == Some(activeSlot) && activeSlot != old(activeSlot) && durable.lastGood == version
                && FileOf(durable, activeSlot) == raw && MetaOf(durable, activeSlot) == Meta(version, checks.hash(raw), 1)
                && FileOf(durable, old(activeSlot)) == FileOf(old(durable), old(activeSlot)) && staged.None?
      ensures old(trail) <= trail
      ensures forall i | |old(trail)| <= i < |trail| :: InstallCut(checks, old(State()), raw, version, expected, trail[i])
    {
      var r := Stage(raw, version, expected);
      if r != STAGED {
        return false, if r == STORAGE_FAILED then STAGE_FAILED else REFUSED;
      }
      ghost var selected;
      ok, selected := ActivateStaged();
      outcome := if ok then INSTALLED else if selected then SECOND_PUT_FAILED else SELECT_FAILED;
    }
  }

  // --- Installations ---

  /** The store: what is durable, the slot it takes for the one in use, and what it has staged. */
  datatype Store = Store(durable: Durable, inUse: Slot, staged: Option<Staged>)

  /** The store after a boot. */
  function Booted(d: Durable): (s: Store) {
    Store(d, if d.selected.Some? then d.selected.value else A, None)
  }

  function BundleOf(c: Checks, raw: bytes, version: nat): (b: Bundle) {
    Bundle(raw, version, c.hash(raw), if c.parse(raw).Some? then c.parse(raw).value else 0)
  }

  datatype InstallOutcome = REFUSED | STAGE_FAILED | SELECT_FAILED | SECOND_PUT_FAILED | INSTALLED

  /** One installation from beginning to end. */
  ghost predicate Installs(c: Checks, s: Store, raw: bytes, version: nat, expected: bytes, outcome: InstallOutcome, s': Store) {
    var to, b := Other(s.inUse), BundleOf(c, raw, version);
    var whole, mark := WithMeta(s.durable, to, b, 3), Some(Staged(to, version));
    if outcome == REFUSED then !Checked(c, raw, expected) && s' == s
    else
      && Checked(c, raw, expected)
      && match outcome
         case STAGE_FAILED => s' == s.(durable := s'.durable) && StageCut(s.durable, to, b, s'.durable)
         case SELECT_FAILED => s' == Store(whole, s.inUse, mark)
         case SECOND_PUT_FAILED => s' == Store(whole.(selected := Some(to)), s.inUse, mark)
         case _ => s' == Store(whole.(selected := Some(to), lastGood := version), to, None)
  }

  /** The flash of an installation that the power cut short. */
  ghost predicate InstallCut(c: Checks, s: Store, raw: bytes, version: nat, expected: bytes, d: Durable) {
    var to, b := Other(s.inUse), BundleOf(c, raw, version);
    || d == s.durable
    || (Checked(c, raw, expected)
        && (StageCut(s.durable, to, b, d) || ActivateCut(WithMeta(s.durable, to, b, 3), to, version, d)))
  }

  /** What a boot shows of a bundle that was installed. */
  function Shows(raw: bytes): (shown: Option<bytes>) {
    if raw == [] then None else Some(raw)
  }

  /** A boot shows what it showed before, or the new bundle, checked. */
  ghost predicate OldOrChecked(c: Checks, before: Durable, raw: bytes, expected: bytes, d: Durable) {
    || BootBundle(c, d) == BootBundle(c, before)
    || (Checked(c, raw, expected) && BootBundle(c, d) == Shows(raw))
  }

  /** The slot the store writes to is not the selected one. */
  ghost predicate Agrees(s: Store) {
    s.durable.selected.None? || s.durable.selected == Some(s.inUse)
  }

  /** An installation keeps store and flash in agreement, whatever fails in it, with one exception: the second put of the
    * activation. */
  lemma AgreementKept(c: Checks, s: Store, raw: bytes, version: nat, expected: bytes, outcome: InstallOutcome, s': Store)
    requires Agrees(s) && Installs(c, s, raw, version, expected, outcome, s')
    ensures Agrees(s') <==> outcome != SECOND_PUT_FAILED
  {
  }

  /** What a boot shows at each point of an installation: while the slot written to is not selected, the old bundle, and
    * once it is selected the new one. */
  lemma CutShows(c: Checks, s: Store, raw: bytes, version: nat, expected: bytes, d: Durable)
    requires InstallCut(c, s, raw, version, expected, d) && Agrees(s)
    ensures OldOrChecked(c, s.durable, raw, expected, d)
  {
  }

  /** The writes of an installation into the slot that is selected. */
  lemma CutOfSelected(c: Checks, s: Store, raw: bytes, version: nat, expected: bytes, d: Durable)
    requires InstallCut(c, s, raw, version, expected, d) && s.durable.selected == Some(Other(s.inUse))
    ensures || BootBundle(c, d) == BootBundle(c, s.durable)
            || (Checked(c, raw, expected) && BootBundle(c, d) == Shows(raw))
            || exists k: nat | k < |raw| :: FileOf(d, d.selected.value) == raw[..k]
  {
    var to, b := Other(s.inUse), BundleOf(c, raw, version);
    if d != s.durable {
      if k: nat :| k <= |raw| && d == Written(s.durable, to, raw[..k]) {
        assert raw[..|raw|] == raw;
        assert FileOf(d, to) == raw[..k];
      } else {
        assert FileOf(d, to) == raw;
      }
    }
  }

  /** A cut that leaves the first `k` bytes. */
  lemma PrefixCut(c: Checks, s: Store, raw: bytes, version: nat, expected: bytes, k: nat)
    requires Checked(c, raw, expected) && k <= |raw|
    ensures InstallCut(c, s, raw, version, expected, Written(s.durable, Other(s.inUse), raw[..k]))
  {
    assert StageCut(s.durable, Other(s.inUse), BundleOf(c, raw, version), Written(s.durable, Other(s.inUse), raw[..k]));
  }

  /** However an installation is cut, the next boot shows the old bundle or the checked new one. */
  ghost predicate Safe(c: Checks, s: Store, raw: bytes, expected: bytes) {
    forall version, d | InstallCut(c, s, raw, version, expected, d) :: OldOrChecked(c, s.durable, raw, expected, d)
  }

  /** Exactly when every cut of an installation is harmless: the slot written to is not selected, or nothing is written,
    * or there is nothing to tear, or nothing was shown and no cut-off part of the file parses. */
  lemma SafeExactly(c: Checks, s: Store, raw: bytes, expected: bytes)
    ensures Safe(c, s, raw, expected) <==>
            || Agrees(s) || !Checked(c, raw, expected) || raw == []
            || (BootBundle(c, s.durable).None? && forall k: nat | 0 < k < |raw| :: c.parse(raw[..k]).None?)
  {
    if Agrees(s) {
      forall version, d | InstallCut(c, s, raw, version, expected, d)
        ensures OldOrChecked(c, s.durable, raw, expected, d)
      {
        CutShows(c, s, raw, version, expected, d);
      }
    } else if Checked(c, raw, expected) && raw != [] {
      OtherSelected(s);
      if BootBundle(c, s.durable).Some? {
        PrefixCut(c, s, raw, 0, expected, 0);
        assert !OldOrChecked(c, s.durable, raw, expected, Written(s.durable, Other(s.inUse), raw[..0]));
      } else if k: nat :| 0 < k < |raw| && c.parse(raw[..k]).Some? {
        PrefixCut(c, s, raw, 0, expected, k);
        assert raw[..k] != raw;
        assert !OldOrChecked(c, s.durable, raw, expected, Written(s.durable, Other(s.inUse), raw[..k]));
      } else {
        UntornShown(c, s, raw, expected);
      }
    }
  }

  lemma OtherSelected(s: Store)
    requires !Agrees(s)
    ensures s.durable.selected == Some(Other(s.inUse))
  {
    assert s.inUse == A || s.inUse == B;
    assert s.durable.selected.value == A || s.durable.selected.value == B;
  }

  lemma UntornShown(c: Checks, s: Store, raw: bytes, expected: bytes)
    requires !Agrees(s) && BootBundle(c, s.durable).None? && forall k: nat | 0 < k < |raw| :: c.parse(raw[..k]).None?
    ensures Safe(c, s, raw, expected)
  {
    OtherSelected(s);
    forall version, d | InstallCut(c, s, raw, version, expected, d)
      ensures OldOrChecked(c, s.durable, raw, expected, d)
    {
      CutOfSelected(c, s, raw, version, expected, d);
      if k: nat :| k < |raw| && FileOf(d, d.selected.value) == raw[..k] {
        assert k > 0 ==> c.parse(raw[..k]).None?;
      }
    }
  }

  /** After a failed second put the next installation is not safe: wherever it is cut inside its file, the bundle that
    * the failed one had selected is gone. */
  lemma SecondPutFailureUnprotects(c: Checks, s: Store, raw: bytes, version: nat, expected: bytes, s': Store, next: bytes, hash: bytes)
    requires Agrees(s) && Installs(c, s, raw, version, expected, SECOND_PUT_FAILED, s') && raw != []
    ensures BootBundle(c, s'.durable) == Some(raw)
    ensures Safe(c, s', next, hash) <==> !Checked(c, next, hash) || next == []
  {
    SafeExactly(c, s', next, hash);
    hide Safe;
  }

  // --- Runs ---

  /** What a store goes through: an installation to its end; one cut by a power loss, and the boot after it; a boot. */
  datatype Event =
    | INSTALL(raw: bytes, version: nat, expected: bytes, outcome: InstallOutcome)
    | CUT(raw: bytes, version: nat, expected: bytes)
    | BOOT

  ghost predicate Happens(c: Checks, s: Store, event: Event, s': Store) {
    match event
    case INSTALL(raw, version, expected, outcome) => Installs(c, s, raw, version, expected, outcome, s')
    case CUT(raw, version, expected) => exists d :: InstallCut(c, s, raw, version, expected, d) && s' == Booted(d)
    case BOOT => s' == Booted(s.durable)
  }

  ghost predicate Run(c: Checks, run: seq<Event>, states: seq<Store>) {
    && |states| == |run| + 1 && states[0] == Booted(states[0].durable)
    && forall i | 0 <= i < |run| :: Happens(c, states[i], run[i], states[i + 1])
  }

  /** After a failed second put the device is restarted before the next installation. */
  ghost predicate Careful(run: seq<Event>) {
    forall i | 0 < i < |run| && run[i - 1].INSTALL? && run[i - 1].outcome == SECOND_PUT_FAILED :: run[i].BOOT?
  }

  /** The bundle some installation of the run offered and all checks passed. */
  ghost predicate CheckedBy(c: Checks, event: Event, shown: Option<bytes>) {
    && !event.BOOT? && Checked(c, event.raw, event.expected) && shown == Shows(event.raw)
  }

  /** One step of a careful run: what is shown afterwards is what was shown before or was checked in this step. */
  lemma StepShows(c: Checks, s: Store, event: Event, s': Store)
    requires Happens(c, s, event, s') && (Agrees(s) || event.BOOT?)
    ensures Agrees(s') || (event.INSTALL? && event.outcome == SECOND_PUT_FAILED)
    ensures BootBundle(c, s'.durable) == BootBundle(c, s.durable) || CheckedBy(c, event, BootBundle(c, s'.durable))
  {
    match event {
      case INSTALL(raw, version, expected, outcome) =>
        InstallIsCut(c, s, raw, version, expected, outcome, s');
        AgreementKept(c, s, raw, version, expected, outcome, s');
        CutShows(c, s, raw, version, expected, s'.durable);
      case CUT(raw, version, expected) =>
        var d :| InstallCut(c, s, raw, version, expected, d) && s' == Booted(d);
        CutShows(c, s, raw, version, expected, d);
      case BOOT =>
    }
    hide InstallCut;
    hide Installs;
    hide BootBundle;
  }

  lemma InstallIsCut(c: Checks, s: Store, raw: bytes, version: nat, expected: bytes, outcome: InstallOutcome, s': Store)
    requires Installs(c, s, raw, version, expected, outcome, s')
    ensures InstallCut(c, s, raw, version, expected, s'.durable)
  {
  }

  /** Over every run of installations, failures, power cuts and boots in which a failed second put is followed by a boot,
    * the bundle a boot shows is the one it showed at the start or one that an installation offered and all checks
    * passed. */
  lemma {:induction false} OnlyCheckedBundlesShown(c: Checks, run: seq<Event>, states: seq<Store>)
    requires Run(c, run, states) && Careful(run)
    ensures var n := |run|;
            Agrees(states[n]) || (n > 0 && run[n - 1].INSTALL? && run[n - 1].outcome == SECOND_PUT_FAILED)
    ensures var shown := BootBundle(c, states[|run|].durable);
            shown == BootBundle(c, states[0].durable) || exists i :: 0 <= i < |run| && CheckedBy(c, run[i], shown)
    decreases |run|
  {
    hide Happens;
    hide BootBundle;
    hide CheckedBy;
    var n := |run|;
    if n > 0 {
      var front := run[..n - 1];
      assert forall i | 0 <= i < n - 1 :: front[i] == run[i] && states[..n][i + 1] == states[i + 1];
      OnlyCheckedBundlesShown(c, front, states[..n]);
      StepShows(c, states[n - 1], run[n - 1], states[n]);
      var before := BootBundle(c, states[n - 1].durable);
      if before != BootBundle(c, states[0].durable) {
        var i :| 0 <= i < |front| && CheckedBy(c, front[i], before);
        assert CheckedBy(c, run[i], before);
      }
    }
  }
}
