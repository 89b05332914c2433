/** The listener slot of a thread: a task that ends clears it only if the slot's generation is still its own. */
module ListenerSlot {
  import opened Json

  const GENERATIONS: nat := 0x1_0000_0000_0000_0000

  /** What the slot holds: the cancel channel of the current listener, and a wrapping counter. */
  datatype Slot = Slot(cancelTx: Option<nat>, generation: nat)

  datatype Op =
    | Set(cancelTx: nat)
    | Clear
    | TaskEnds(mine: nat)

  /** `set_listener`, `clear_listener`, and the last step of a listener task. */
  function Step(s: Slot, op: Op): Slot {
    match op
    case Set(tx) => Slot(Some(tx), (s.generation + 1) % GENERATIONS)
    case Clear => s.(cancelTx := None)
    case TaskEnds(mine) => if s.generation == mine then s.(cancelTx := None) else s
  }

  function RunFrom(s: Slot, ops: seq<Op>): Slot
    decreases |ops|
  {
    if ops == [] then s else RunFrom(Step(s, ops[0]), ops[1..])
  }

  function Sets(ops: seq<Op>): nat {
    if ops == [] then 0 else (if ops[0].Set? then 1 else 0) + Sets(ops[1..])
  }

  lemma SameResidue(a: nat, b: nat)
    requires a <= b
    ensures a % GENERATIONS == b % GENERATIONS <==> (b - a) % GENERATIONS == 0
  {
    var p, q := a / GENERATIONS, b / GENERATIONS;
    assert b - a == (q - p) * GENERATIONS + (b % GENERATIONS - a % GENERATIONS);
    if a % GENERATIONS == b % GENERATIONS {
      assert b - a == (q - p) * GENERATIONS;
    }
  }

  lemma {:induction false} GenerationCountsSets(s: Slot, ops: seq<Op>)
    requires s.generation < GENERATIONS
    ensures RunFrom(s, ops).generation == (s.generation + Sets(ops)) % 0x1_0000_0000_0000_0000
    decreases |ops|
  {
    if ops != [] {
      GenerationCountsSets(Step(s, ops[0]), ops[1..]);
    }
  }

  /** Whatever happens between the start of a listener task and its end, its end empties a slot that
      holds a listener exactly if the sets in between are a multiple of 2^64: none, for its own. */
  lemma EndingTaskClears(s: Slot, tx: nat, ops: seq<Op>)
    requires s.generation < GENERATIONS
    ensures var started := Step(s, Set(tx));
            var before := RunFrom(started, ops);
            var after := Step(before, TaskEnds(started.generation));
            before.cancelTx.Some? ==> (after.cancelTx.None? <==> Sets(ops) % GENERATIONS == 0)
  {
    var started := Step(s, Set(tx));
    GenerationCountsSets(started, ops);
    SameResidue(started.generation, started.generation + Sets(ops));
  }

  /** With fewer than 2^64 sets in between, an ending task never clears another listener. */
  lemma EndingTaskSparesOthers(s: Slot, tx: nat, ops: seq<Op>)
    requires s.generation < GENERATIONS && 0 < Sets(ops) < GENERATIONS
    ensures var started := Step(s, Set(tx));
            var before := RunFrom(started, ops);
            Step(before, TaskEnds(started.generation)) == before
  {
    var started := Step(s, Set(tx));
    GenerationCountsSets(started, ops);
    SameResidue(started.generation, started.generation + Sets(ops));
  }
}
