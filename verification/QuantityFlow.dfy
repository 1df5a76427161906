/** The local GOOD / DEFECT / REWORK entry inside the one server state QUANTITY_INPUT. */
module QuantityFlow {
  import opened Bytes
  import opened Json

  datatype QtyStep = GOOD | DEFECT | REWORK_DECISION | REWORK | SUMMARY

  datatype Flow = Flow(step: QtyStep, good: nat, defect: nat, rework: nat, buffer: bytes)

  datatype Triple = Triple(good: nat, defect: nat, rework: nat)

  const MAX_DIGITS := 6
  const MAX_QUANTITY := 999999
  const FRESH := Flow(GOOD, 0, 0, 0, [])

  /** The keys of the keypad. */
  type key = c: byte | IsDigit(c) || c == '#' || c == '*' witness '0'

  /** strtol of the buffer; an empty one counts as zero. */
  function BufferValue(buffer: bytes): (n: nat) {
    if forall c <- buffer :: IsDigit(c) then DecimalValue(buffer) else 0
  }

  function Confirmed(f: Flow): (f': Flow) {
    var value := BufferValue(f.buffer);
    match f.step
    case GOOD => f.(good := value, buffer := [], step := DEFECT)
    case DEFECT =>
      if value == 0 then f.(defect := 0, buffer := [], rework := 0, step := SUMMARY)
      else f.(defect := value, buffer := [], step := REWORK_DECISION)
    case REWORK => if value > f.defect then f.(buffer := []) else f.(rework := value, buffer := [], step := SUMMARY)
    case _ => f
  }

  function Press(f: Flow, k: key): (f': Flow) {
    match f.step
    case SUMMARY => if k == '0' then FRESH else f
    case REWORK_DECISION =>
      if k == '1' then f.(step := REWORK, buffer := [])
      else if k == '2' || k == '#' then f.(rework := 0, step := SUMMARY)
      else f
    case _ =>
      if IsDigit(k) then (if |f.buffer| < MAX_DIGITS then f.(buffer := f.buffer + [k]) else f)
      else if k == '*' then f.(buffer := [])
      else Confirmed(f)
  }

  /** What a key press sends to the server, if anything. */
  function Submitted(f: Flow, k: key): (t: Option<Triple>) {
    if f.step == SUMMARY && k == '#' then Some(Triple(f.good, f.defect, f.rework)) else None
  }

  class QuantityFlow {
    var step: QtyStep
    var good: nat
    var defect: nat
    var rework: nat
    var buffer: bytes

    ghost function State(): (f: Flow)
      reads this
    {
      Flow(step, good, defect, rework, buffer)
    }

    constructor ()
      ensures State() == FRESH
    {
      step, good, defect, rework, buffer := GOOD, 0, 0, 0, [];
    }

    /** reset_quantity_flow. */
    method ResetQuantityFlow()
      modifies this
      ensures State() == FRESH
    {
      step, good, defect, rework, buffer := GOOD, 0, 0, 0, [];
    }

    /** The QUANTITY_INPUT branch of handle_business_key. */
    method HandleKey(k: key) returns (submit: Option<Triple>)
      modifies this
      ensures State() == Press(old(State()), k) && submit == Submitted(old(State()), k)
    {
      submit := None;
      if step == SUMMARY {
        if k == '#' {
          submit := Some(Triple(good, defect, rework));
        } else if k == '0' {
          ResetQuantityFlow();
        }
        return;
      }
      if step == REWORK_DECISION {
        if k == '1' {
          step, buffer := REWORK, [];
        } else if k == '2' || k == '#' {
          rework, step := 0, SUMMARY;
        }
        return;
      }
      if IsDigit(k) {
        if |buffer| < MAX_DIGITS {
          buffer := buffer + [k];
        }
        return;
      }
      if k == '*' {
        buffer := [];
        return;
      }
      var value := BufferValue(buffer);
      if step == GOOD {
        good, buffer, step := value, [], DEFECT;
      } else if step == DEFECT {
        defect, buffer := value, [];
        if defect == 0 {
          rework, step := 0, SUMMARY;
        } else {
          step := REWORK_DECISION;
        }
      } else if value > defect {
        buffer := [];
      } else {
        rework, buffer, step := value, [], SUMMARY;
      }
    }
  }

  // --- Runs ---

  /** What reaches the flow: a key while the server state is QUANTITY_INPUT; an accepted or rejected answer whose snapshot
    * enters that state afresh, or any other such answer; an answer that is a conflict or does not parse, or a failure;
    * a completed resync; a bootstrap. The star never gets past the event handler: it belongs to the recovery menu, so
    * the branch that would clear the field is dead. */
  datatype Input = KEY(k: key) | FRESH_ENTRY | ANSWER | NO_ANSWER | RESYNC | BOOTSTRAP

  function Handle(f: Flow, i: Input): (f': Flow) {
    match i
    case KEY(k) => if k == '*' then f else Press(f, k)
    case FRESH_ENTRY => FRESH
    case ANSWER => f.(buffer := [])
    case NO_ANSWER => f
    case RESYNC => f.(buffer := [])
    case BOOTSTRAP => f
  }

  function HandleAll(f: Flow, run: seq<Input>): (f': Flow) {
    if run == [] then f else Handle(HandleAll(f, run[..|run| - 1]), run[|run| - 1])
  }

  ghost predicate Sane(f: Flow) {
    && |f.buffer| <= MAX_DIGITS && (forall c <- f.buffer :: IsDigit(c))
    && f.good <= MAX_QUANTITY && f.defect <= MAX_QUANTITY
    && (f.step == SUMMARY ==> f.rework <= f.defect)
    && (f.step == REWORK_DECISION || f.step == REWORK ==> f.defect > 0)
  }

  lemma {:induction false} DigitsBound(d: bytes)
    requires forall c <- d :: IsDigit(c)
    ensures DecimalValue(d) < Pow10(|d|)
  {
    if d != [] {
      assert d[|d| - 1] in d;
      DigitsBound(d[..|d| - 1]);
    }
  }

  lemma {:induction false} Pow10Monotone(a: nat, b: nat)
    requires a <= b
    ensures Pow10(a) <= Pow10(b)
  {
    if a < b {
      Pow10Monotone(a, b - 1);
    }
  }

  lemma SixDigits()
    ensures Pow10(6) == MAX_QUANTITY + 1
  {
    assert Pow10(2) == 100 && Pow10(4) == 100 * Pow10(2);
    assert Pow10(6) == 100 * Pow10(4);
  }

  lemma SaneKept(f: Flow, i: Input)
    requires Sane(f)
    ensures Sane(Handle(f, i))
  {
    DigitsBound(f.buffer);
    Pow10Monotone(|f.buffer|, MAX_DIGITS);
    SixDigits();
    hide Pow10;
    hide DecimalValue;
  }

  lemma {:induction false} SaneAlways(run: seq<Input>)
    ensures Sane(HandleAll(FRESH, run))
    decreases |run|
  {
    if run != [] {
      SaneAlways(run[..|run| - 1]);
      SaneKept(HandleAll(FRESH, run[..|run| - 1]), run[|run| - 1]);
    }
  }

  /** Whatever keys, answers and resyncs came before, every submission is within bounds. */
  lemma SubmissionsInBounds(run: seq<Input>, k: key)
    ensures match Submitted(HandleAll(FRESH, run), k)
            case None => true
            case Some(t) => t.good <= MAX_QUANTITY && t.rework <= t.defect <= MAX_QUANTITY
  {
    SaneAlways(run);
  }

  // --- What the operator typed ---

  /** Everything typed into each field since it was last opened, however long. */
  datatype Typed = Typed(good: bytes, defect: bytes, rework: bytes, current: bytes)

  function FirstSix(s: bytes): (d: bytes) {
    s[..Min(|s|, MAX_DIGITS)]
  }

  /** The number that the first six digits typed spell in decimal; nothing typed is zero. */
  function Reading(s: bytes): (n: nat) {
    var digits := if |s| > 6 then s[..6] else s;
    if exists c <- digits :: !IsDigit(c) then 0 else DecimalValue(digits)
  }

  /** The transcript of a key sequence: digits collect, * drops them, # closes a field. It knows nothing of buffers or limits on
    * length; the numbers matter only where they decide which field comes next. */
  function Transcribe(step: QtyStep, t: Typed, k: key): (next: (QtyStep, Typed)) {
    match step
    case GOOD =>
      if k == '*' then (GOOD, t.(current := []))
      else if IsDigit(k) then (GOOD, t.(current := t.current + [k]))
      else (DEFECT, t.(good := t.current, current := []))
    case DEFECT =>
      if k == '*' then (DEFECT, t.(current := []))
      else if IsDigit(k) then (DEFECT, t.(current := t.current + [k]))
      else (if Reading(t.current) == 0 then SUMMARY else REWORK_DECISION, t.(defect := t.current, rework := [], current := []))
    case REWORK_DECISION =>
      (if k == '1' then REWORK else if k == '2' || k == '#' then SUMMARY else REWORK_DECISION, t.(rework := [], current := []))
    case REWORK =>
      if k == '*' then (REWORK, t.(current := []))
      else if IsDigit(k) then (REWORK, t.(current := t.current + [k]))
      else if Reading(t.current) > Reading(t.defect) then (REWORK, t.(current := []))
      else (SUMMARY, t.(rework := t.current, current := []))
    case SUMMARY => if k == '0' then (GOOD, BLANK) else (SUMMARY, t)
  }

  function TranscribeFrom(start: (QtyStep, Typed), keys: seq<key>): (r: (QtyStep, Typed)) {
    if keys == [] then start
    else var front := TranscribeFrom(start, keys[..|keys| - 1]); Transcribe(front.0, front.1, keys[|keys| - 1])
  }

  const BLANK := Typed([], [], [], [])

  /** The transcript of a fresh entry. */
  function TranscribeAll(keys: seq<key>): (r: (QtyStep, Typed)) {
    TranscribeFrom((GOOD, BLANK), keys)
  }

  function PressFrom(f: Flow, keys: seq<key>): (f': Flow) {
    if keys == [] then f else Press(PressFrom(f, keys[..|keys| - 1]), keys[|keys| - 1])
  }

  lemma ReadingNothing()
    ensures Reading([]) == 0
  {
  }

  /** The machine agrees with the transcript after every key. */
  ghost predicate Agrees(f: Flow, step: QtyStep, t: Typed) {
    && f.step == step
    && (step.GOOD? || step.DEFECT? || step.REWORK? ==> f.buffer == FirstSix(t.current))
    && (!step.GOOD? ==> f.good == Reading(t.good))
    && (!step.GOOD? && !step.DEFECT? ==> f.defect == Reading(t.defect))
    && (step.SUMMARY? ==> f.rework == Reading(t.rework))
  }

  lemma AgreesKept(f: Flow, step: QtyStep, t: Typed, k: key)
    requires Agrees(f, step, t)
    ensures var next := Transcribe(step, t, k); Agrees(Press(f, k), next.0, next.1)
  {
    ReadingNothing();
    assert FirstSix(t.current + [k]) == if |t.current| < MAX_DIGITS then t.current + [k] else FirstSix(t.current);
    assert |t.current| < MAX_DIGITS ==> FirstSix(t.current) == t.current;
    hide BufferValue;
  }

  lemma {:induction false} AgreesAlways(f: Flow, start: (QtyStep, Typed), keys: seq<key>)
    requires Agrees(f, start.0, start.1)
    ensures var end := TranscribeFrom(start, keys); Agrees(PressFrom(f, keys), end.0, end.1)
    decreases |keys|
  {
    hide Agrees;
    if keys != [] {
      AgreesAlways(f, start, keys[..|keys| - 1]);
      var front := TranscribeFrom(start, keys[..|keys| - 1]);
      AgreesKept(PressFrom(f, keys[..|keys| - 1]), front.0, front.1, keys[|keys| - 1]);
    }
  }

  /** What the flow would submit after these keys is what they say as a fresh entry: the decimal reading of the first six
    * digits typed into each field, once the summary is reached and not before. */
  ghost predicate ReadsKeys(f: Flow, keys: seq<key>) {
    var (step, t) := TranscribeAll(keys);
    Submitted(PressFrom(f, keys), '#') ==
    if step == SUMMARY then Some(Triple(Reading(t.good), Reading(t.defect), Reading(t.rework))) else None
  }

  /** Every key sequence that can follow submits its own reading. */
  ghost predicate Trustworthy(f: Flow) {
    forall keys: seq<key> :: ReadsKeys(f, keys)
  }

  /** With an empty field at GOOD, whatever numbers an earlier flow left, the keys are what is submitted. */
  lemma SubmissionReadsKeys(f: Flow, keys: seq<key>)
    requires f.step == GOOD && f.buffer == []
    ensures ReadsKeys(f, keys)
  {
    assert FirstSix([]) == [];
    AgreesAlways(f, (GOOD, BLANK), keys);
    hide Reading;
    hide FirstSix;
  }

  // --- Entering the state without a fresh start ---

  lemma TranscribeOne(start: (QtyStep, Typed), k: key)
    ensures TranscribeFrom(start, [k]) == Transcribe(start.0, start.1, k)
  {
    assert [k][..0] == [];
  }

  lemma TranscribeMore(start: (QtyStep, Typed), keys: seq<key>, k: key)
    ensures TranscribeFrom(start, keys + [k]) == (var front := TranscribeFrom(start, keys); Transcribe(front.0, front.1, k))
  {
    assert (keys + [k])[..|keys|] == keys;
  }

  lemma PressOne(f: Flow, k: key)
    ensures PressFrom(f, [k]) == Press(f, k)
  {
    assert [k][..0] == [];
  }

  lemma PressMore(f: Flow, keys: seq<key>, k: key)
    ensures PressFrom(f, keys + [k]) == Press(PressFrom(f, keys), k)
  {
    assert (keys + [k])[..|keys|] == keys;
  }

  lemma {:induction false} TypeDigits(t: Typed, digits: seq<key>)
    requires forall c <- digits :: IsDigit(c)
    ensures TranscribeFrom((GOOD, t), digits) == (GOOD, t.(current := t.current + digits))
    decreases |digits|
  {
    if digits == [] {
      assert t.current + digits == t.current;
    } else {
      var front, last := digits[..|digits| - 1], digits[|digits| - 1];
      assert digits == front + [last] && last in digits;
      TypeDigits(t, front);
      assert t.current + digits == t.current + front + [last];
    }
  }

  const ONE: seq<key> := ['#']
  const TWO: seq<key> := ['#', '#']

  lemma HashOnly(f: Flow)
    ensures PressFrom(f, ONE) == Press(f, '#') && PressFrom(f, TWO) == Press(Press(f, '#'), '#')
    ensures TranscribeAll(ONE).0 == DEFECT
    ensures TranscribeAll(TWO).0 == SUMMARY && TranscribeAll(TWO).1.good == [] && TranscribeAll(TWO).1.defect == []
  {
    assert TWO == ONE + ['#'];
    PressOne(f, '#');
    PressMore(f, ONE, '#');
    TranscribeOne((GOOD, BLANK), '#');
    TranscribeMore((GOOD, BLANK), ONE, '#');
    ReadingNothing();
  }

  /** A field that is further on, or not empty, gives itself away. */
  lemma OldFlowShows(f: Flow) returns (keys: seq<key>)
    requires Sane(f) && (f.step != GOOD || BufferValue(f.buffer) != 0)
    ensures !ReadsKeys(f, keys)
  {
    HashOnly(f);
    ReadingNothing();
    if f.step == SUMMARY {
      keys := [];
    } else if f.step == GOOD || (f.step == DEFECT && BufferValue(f.buffer) != 0)
           || (f.step == REWORK && BufferValue(f.buffer) > f.defect) {
      keys := TWO;
    } else {
      keys := ONE;
    }
  }

  lemma {:induction false} ValueOfJoin(a: bytes, b: bytes)
    requires forall c <- a + b :: IsDigit(c)
    ensures (forall c <- a :: IsDigit(c)) && (forall c <- b :: IsDigit(c))
    ensures DecimalValue(a) == 0 ==> DecimalValue(a + b) == DecimalValue(b)
    decreases |b|
  {
    assert forall c :: c in a || c in b ==> c in a + b;
    if b == [] {
      assert a + b == a;
    } else {
      assert (a + b)[..|a + b| - 1] == a + b[..|b| - 1];
      ValueOfJoin(a, b[..|b| - 1]);
    }
  }

  const HUNDRED_THOUSAND: seq<key> := ['1', '0', '0', '0', '0', '0']

  lemma HundredThousand()
    ensures DecimalValue(HUNDRED_THOUSAND) == Pow10(5)
  {
    var d: bytes := HUNDRED_THOUSAND;
    assert d[..5] == ['1', '0', '0', '0', '0'] && d[..5][..4] == ['1', '0', '0', '0'] && d[..5][..4][..3] == ['1', '0', '0'];
    assert d[..3] == ['1', '0', '0'] && d[..3][..2] == ['1', '0'] && d[..3][..2][..1] == ['1'] && d[..3][..2][..1][..0] == [];
    assert DecimalValue(d[..3][..2][..1]) == 1;
    assert DecimalValue(d[..3]) == 100;
    assert DecimalValue(d[..5]) == 10000;
    assert Pow10(2) == 100 && Pow10(4) == 100 * Pow10(2);
  }

  /** Zeros typed before a bootstrap push the last digits of a long number out of the field. */
  lemma ZerosShow(f: Flow) returns (keys: seq<key>)
    requires Sane(f) && f.step == GOOD && f.buffer != [] && BufferValue(f.buffer) == 0
    ensures !ReadsKeys(f, keys)
  {
    keys := HUNDRED_THOUSAND + ONE + ONE;
    TypedGood(f, HUNDRED_THOUSAND);
    TypedGood(FRESH, HUNDRED_THOUSAND);
    assert [] + HUNDRED_THOUSAND == HUNDRED_THOUSAND;
    PushedOut(f);
    hide Reading;
    hide BufferValue;
    hide PressFrom;
    hide TranscribeFrom;
    hide Submitted;
  }

  lemma PushedOut(f: Flow)
    requires Sane(f) && f.step == GOOD && f.buffer != [] && BufferValue(f.buffer) == 0
    ensures Reading(f.buffer + HUNDRED_THOUSAND) < Reading(HUNDRED_THOUSAND)
  {
    var typed := f.buffer + HUNDRED_THOUSAND;
    var kept := FirstSix(typed);
    assert HUNDRED_THOUSAND == FirstSix(HUNDRED_THOUSAND);
    HundredThousand();
    var j := |f.buffer|;
    assert kept == f.buffer + HUNDRED_THOUSAND[..6 - j];
    ValueOfJoin(f.buffer, HUNDRED_THOUSAND[..6 - j]);
    DigitsBound(HUNDRED_THOUSAND[..6 - j]);
    Pow10Monotone(6 - j, 5);
  }

  /** Digits and twice # from GOOD: a submission with those digits behind what the field already held. */
  lemma TypedGood(f: Flow, digits: seq<key>)
    requires Sane(f) && f.step == GOOD && forall c <- digits :: IsDigit(c)
    ensures Submitted(PressFrom(f, digits + ONE + ONE), '#') == Some(Triple(Reading(f.buffer + digits), 0, 0))
    ensures TranscribeAll(digits + ONE + ONE).0 == SUMMARY && TranscribeAll(digits + ONE + ONE).1.good == digits
  {
    var start := (GOOD, BLANK.(current := f.buffer));
    assert FirstSix(f.buffer) == f.buffer;
    TypedHashes(BLANK.(current := f.buffer), digits);
    TypedHashes(BLANK, digits);
    assert [] + digits == digits;
    AgreesAlways(f, start, digits + ONE + ONE);
    ReadingNothing();
    hide Reading;
    hide FirstSix;
  }

  lemma TypedHashes(t: Typed, digits: seq<key>)
    requires forall c <- digits :: IsDigit(c)
    ensures TranscribeFrom((GOOD, t), digits + ONE + ONE) ==
            (SUMMARY, t.(good := t.current + digits, defect := [], rework := [], current := []))
  {
    TypeDigits(t, digits);
    TranscribeMore((GOOD, t), digits, '#');
    TranscribeMore((GOOD, t), digits + ONE, '#');
    ReadingNothing();
    hide Reading;
  }

  /** Exactly when a flow can be trusted: at GOOD with nothing in the field. */
  lemma TrustworthyExactly(f: Flow)
    requires Sane(f)
    ensures Trustworthy(f) <==> f.step == GOOD && f.buffer == []
  {
    if f.step == GOOD && f.buffer == [] {
      forall keys: seq<key>
        ensures ReadsKeys(f, keys)
      {
        SubmissionReadsKeys(f, keys);
      }
    } else if f.step != GOOD || BufferValue(f.buffer) != 0 {
      var keys := OldFlowShows(f);
    } else {
      var keys := ZerosShow(f);
    }
  }

  /** After any run, entering QUANTITY_INPUT through an answer starts afresh; through a resync, the operator can rely on
    * what is typed from then on if and only if the old flow stood at GOOD; through a bootstrap, if and only if its field
    * was empty as well. */
  lemma EntryReadsExactly(run: seq<Input>)
    ensures var f := HandleAll(FRESH, run);
            && Trustworthy(Handle(f, FRESH_ENTRY))
            && (Trustworthy(Handle(f, RESYNC)) <==> f.step == GOOD)
            && (Trustworthy(Handle(f, BOOTSTRAP)) <==> f.step == GOOD && f.buffer == [])
  {
    var f := HandleAll(FRESH, run);
    SaneAlways(run);
    SaneKept(f, FRESH_ENTRY);
    SaneKept(f, RESYNC);
    SaneKept(f, BOOTSTRAP);
    TrustworthyExactly(Handle(f, FRESH_ENTRY));
    TrustworthyExactly(Handle(f, RESYNC));
    TrustworthyExactly(Handle(f, BOOTSTRAP));
    hide Trustworthy;
  }

  /** One such run: an old flow is continued. */
  lemma ResyncContinuesOldFlow()
    ensures HandleAll(FRESH, [KEY('7'), KEY('#'), RESYNC]) == Flow(DEFECT, 7, 0, 0, [])
    ensures !Trustworthy(HandleAll(FRESH, [KEY('7'), KEY('#'), RESYNC]))
  {
    SevenGood();
    HandleMore(FRESH, [KEY('7'), KEY('#')], RESYNC);
    assert [KEY('7'), KEY('#')] + [RESYNC] == [KEY('7'), KEY('#'), RESYNC];
    hide HandleAll;
    TrustworthyExactly(Flow(DEFECT, 7, 0, 0, []));
    hide Trustworthy;
    hide DecimalValue;
  }

  lemma SevenGood()
    ensures HandleAll(FRESH, [KEY('7'), KEY('#')]) == Flow(DEFECT, 7, 0, 0, [])
  {
    OneDigit('7');
    HandleMore(FRESH, [], KEY('7'));
    HandleMore(FRESH, [KEY('7')], KEY('#'));
    assert [] + [KEY('7')] == [KEY('7')] && [KEY('7')] + [KEY('#')] == [KEY('7'), KEY('#')];
    assert FRESH.buffer + ['7'] == ['7'];
    hide HandleAll;
    hide DecimalValue;
  }

  lemma HandleMore(f: Flow, run: seq<Input>, i: Input)
    ensures HandleAll(f, run + [i]) == Handle(HandleAll(f, run), i)
  {
    hide Handle;
    assert (run + [i])[..|run|] == run;
  }

  lemma OneDigit(c: byte)
    requires IsDigit(c)
    ensures DecimalValue([c]) == c as int - '0' as int
  {
    assert [c][..0] == [];
  }
}
