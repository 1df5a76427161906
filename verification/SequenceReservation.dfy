/** The reboot-proof event counter: a persisted mark is raised one block ahead of the values handed out. */
module SequenceReservation {

  /** One value of NVS. */
  class NvsCounter {
    var mark: nat

    constructor (mark: nat)
      ensures this.mark == mark
    {
      this.mark := mark;
    }
  }

  /** `mark` is what NVS holds; the other two are lost with the power. */
  datatype Counter = Counter(current: nat, ceiling: nat, mark: nat)

  function Reserve(c: Counter, block: nat): (c': Counter) {
    Counter(c.current, c.current + block, c.current + block)
  }

  function BootAt(mark: nat, block: nat): (c: Counter) {
    Reserve(Counter(mark, mark, mark), block)
  }

  /** The reservation that next() makes when the block is used up. */
  function Ready(c: Counter, block: nat): (c': Counter) {
    if c.current >= c.ceiling then Reserve(c, block) else c
  }

  function Next(c: Counter, block: nat): (c': Counter) {
    Ready(c, block).(current := c.current + 1)
  }

  class SequenceReservation {
    const store: NvsCounter
    const block: nat
    var current: nat
    var ceiling: nat

    ghost function State(): (c: Counter)
      reads this, store
    {
      Counter(current, ceiling, store.mark)
    }

    constructor (store: NvsCounter, block: nat)
      modifies store
      ensures this.store == store && this.block == block
      ensures State() == BootAt(old(store.mark), block)
    {
      this.store, this.block := store, block;
      current, ceiling := store.mark, store.mark;
      new;
      ReserveNextBlock();
    }

    /** next. */
    method TakeNext() returns (v: nat)
      modifies this, store
      ensures State() == Next(old(State()), block) && v == old(current) + 1
    {
      if current >= ceiling {
        ReserveNextBlock();
      }
      current := current + 1;
      return current;
    }

    method ReserveNextBlock()
      modifies this`ceiling, store
      ensures State() == Reserve(old(State()), block)
    {
      ceiling := current + block;
      store.mark := ceiling;
    }
  }

  /** What can happen to the counter: a value is taken; the power fails, possibly after next() has persisted a
    * new block and before its value is used. */
  datatype CounterEvent = TAKE | REBOOT | CUT_AFTER_PERSIST

  function Happen(c: Counter, e: CounterEvent, block: nat): (c': Counter) {
    match e
    case TAKE => Next(c, block)
    case REBOOT => BootAt(c.mark, block)
    case CUT_AFTER_PERSIST => BootAt(Ready(c, block).mark, block)
  }

  /** The values handed out by a run. */
  function Issued(c: Counter, run: seq<CounterEvent>, block: nat): (values: seq<nat>)
    decreases |run|
  {
    if run == [] then []
    else (if run[0] == TAKE then [c.current + 1] else []) + Issued(Happen(c, run[0], block), run[1..], block)
  }

  /** The persisted mark is never below a value handed out. */
  ghost predicate Safe(c: Counter) {
    c.current <= c.ceiling == c.mark
  }

  lemma SafeKept(c: Counter, e: CounterEvent, block: nat)
    requires Safe(c) && block >= 1
    ensures Safe(Happen(c, e, block)) && c.current <= Happen(c, e, block).current
  {
  }

  ghost predicate Rising(values: seq<nat>) {
    forall i, j | 0 <= i < j < |values| :: values[i] < values[j]
  }

  lemma {:induction false} IssuedRises(c: Counter, run: seq<CounterEvent>, block: nat)
    requires Safe(c) && block >= 1
    ensures Rising(Issued(c, run, block))
    ensures forall v <- Issued(c, run, block) :: v > c.current
    decreases |run|
  {
    if run != [] {
      SafeKept(c, run[0], block);
      IssuedRises(Happen(c, run[0], block), run[1..], block);
      var rest := Issued(Happen(c, run[0], block), run[1..], block);
      forall i | 0 <= i < |rest|
        ensures rest[i] > c.current && (run[0] == TAKE ==> rest[i] > c.current + 1)
      {
        assert rest[i] in rest;
      }
    }
  }

  /** Over every run of boots, takes and power cuts the values rise strictly, if and only if the block holds at
    * least one value. */
  lemma StrictlyRisingIffBlock(block: nat)
    ensures (forall mark, run :: Rising(Issued(BootAt(mark, block), run, block))) <==> block >= 1
  {
    if block >= 1 {
      forall mark: nat, run
        ensures Rising(Issued(BootAt(mark, block), run, block))
      {
        IssuedRises(BootAt(mark, block), run, block);
      }
    } else {
      RepeatsWithoutBlock();
      var values := Issued(BootAt(0, 0), [TAKE, REBOOT, TAKE], 0);
      assert values[0] == values[1] == 1;
      assert !Rising(values);
    }
  }

  /** With an empty block the first value comes out again after a reboot. */
  lemma RepeatsWithoutBlock()
    ensures Issued(BootAt(0, 0), [TAKE, REBOOT, TAKE], 0) == [1, 1]
  {
    var run, c := [TAKE, REBOOT, TAKE], BootAt(0, 0);
    var c1 := Happen(c, TAKE, 0);
    var c2 := Happen(c1, REBOOT, 0);
    assert run[1..] == [REBOOT, TAKE] && run[1..][1..] == [TAKE] && run[1..][1..][1..] == [];
    assert Issued(c2, [TAKE], 0) == [1] + Issued(Happen(c2, TAKE, 0), [], 0);
    assert Issued(c1, [REBOOT, TAKE], 0) == [] + Issued(c2, [TAKE], 0);
    assert Issued(c, run, 0) == [1] + Issued(c1, [REBOOT, TAKE], 0);
  }

  /** A reboot skips exactly what was left of the block. That is at most the whole block, and the whole block
    * when nothing was taken since the last boot: one more than the header's comment allows. */
  lemma RebootSkips(c: Counter, block: nat)
    requires Safe(c) && c.ceiling <= c.current + block && block >= 1
    ensures Next(Happen(c, REBOOT, block), block).current == c.current + 1 + (c.ceiling - c.current)
    ensures c.ceiling - c.current <= block
    ensures c.mark >= block && c == BootAt(c.mark - block, block) ==> c.ceiling - c.current == block
    ensures forall e :: Happen(c, e, block).ceiling <= Happen(c, e, block).current + block
  {
  }
}
