/** One transition of a planning session: what it does to the arena, the step budget, the
    observation scratch and the row it fills. */
module SessionTransition {
  import opened Common
  import opened Bytes
  import opened TransitionModel
  import opened SessionModel

  datatype CellMetadata = CellMetadata(
    error: int32, rulesExact: bool, endpoint: Endpoint, rootPlayer: int32, leafPlayer: int32,
    leafContext: int32, transitionSteps: nat, forcedSteps: nat, observationOffset: nat, observationSize: nat,
    result: int32, leafSelectType: int32, sessionGeneration: int, stateSlot: int)

  const FRESH_CELL := CellMetadata(0, false, Invalid, -1, -1, -1, 0, 0, 0, 0, -1, -1, -1, -1)

  /** static_cast<int>(value) - 1 on an enumerator. */
  function Pred32(x: int32): int32 {
    if x == -INT32_MAX - 1 then x else x - 1
  }

  /** The part of a row that describes the leaf. */
  function LeafCell(e: Engine, cell: CellMetadata, rootPlayer: int, leaf: State): CellMetadata {
    var p := e.prompt(leaf);
    cell.(rulesExact := true, endpoint := EndpointFor(e, p, rootPlayer),
          leafPlayer := if p.finished then -1 else p.player,
          leafContext := if p.finished then -1 else Pred32(p.context),
          leafSelectType := if p.finished then -1 else Pred32(p.kind),
          result := p.result)
  }

  /** Only prompts that planning may continue from are retained. */
  function Retained(endpoint: Endpoint): bool {
    endpoint.RootStrategicPrompt? || endpoint.ChancePrompt?
  }

  function Failing(cell: CellMetadata, failure: Failure): CellMetadata {
    cell.(error := failure.Code(), rulesExact := false, endpoint := Invalid)
  }

  /** What a row of a batch executes: an action from a root, with the root's random stream. */
  datatype Job = Job(root: SearchInfo, rng: Rng, action: seq<int>)

  datatype Effect = Effect(failure: Failure, lane: Lane, steps: nat, scratch: bytes, cell: CellMetadata)

  /** The whole call on values. */
  function Execute(e: Engine, lane: Lane, job: Job, caps: Caps, steps: nat, scratch: bytes): Effect {
    var budget := Max(0, caps.maxEngineSteps - steps);
    var t := Transition(e, lane.rootPlayer, true, caps.maxForcedSteps, budget, job.root, job.rng, job.action);
    var cell := FRESH_CELL.(rootPlayer := lane.rootPlayer, transitionSteps := t.steps, forcedSteps := t.forced);
    if t.failure != Fine || t.leaf.None? || job.root.state.None? then
      Effect(t.failure, lane, steps + t.used, scratch, cell.(error := t.failure.Code()))
    else Settle(e, lane, job.root.state.value, t.leaf.value, caps, steps + t.used, scratch,
                LeafCell(e, cell, lane.rootPlayer, t.leaf.value.state))
  }

  /** What follows a transition that reached its leaf: keep the state, then the observation. */
  function Settle(e: Engine, lane: Lane, root: State, leaf: Slot, caps: Caps, steps: nat, scratch: bytes,
                  cell: CellMetadata): Effect
  {
    if Retained(cell.endpoint) && !Accepts(lane, Allocate(leaf)) then
      Effect(ArenaCapacity, lane, steps, scratch, Failing(cell, ArenaCapacity))
    else
      var h := Handle(lane.active, |lane.slots|);
      var kept := if Retained(cell.endpoint) then Step(lane, Allocate(leaf)) else lane;
      var json := e.observe(leaf.state, lane.rootPlayer, e.prompt(root).logs);
      if |json| > caps.maxObservationBytes - |scratch| then
        Effect(OutputCapacity, if Retained(cell.endpoint) then Step(kept, Release(h)) else lane,
               steps, scratch, Failing(cell, OutputCapacity))
      else
        Effect(Fine, kept, steps, scratch + json,
               cell.(observationOffset := |scratch|, observationSize := |json|,
                     sessionGeneration := if Retained(cell.endpoint) then h.generation else -1,
                     stateSlot := if Retained(cell.endpoint) then h.slot else -1))
  }

  // ---------------------------------------------------------------- exceptions

  /** Where in a call the engine throws: in the steps of a row, or while it writes the row's
      observation, when the leaf has already been allocated. */
  datatype Throw = Never | Stepping(row: nat) | Observing(row: nat)

  /** The row gets as far as its observation. */
  predicate Observes(e: Engine, lane: Lane, job: Job, caps: Caps, steps: nat) {
    var budget := Max(0, caps.maxEngineSteps - steps);
    var t := Transition(e, lane.rootPlayer, true, caps.maxForcedSteps, budget, job.root, job.rng, job.action);
    && t.failure.Fine?
    && (Retained(EndpointFor(e, e.prompt(t.leaf.value.state), lane.rootPlayer)) ==>
        Accepts(lane, Allocate(t.leaf.value)))
  }

  /** The arena an exception at that point leaves. */
  function Interrupted(e: Engine, lane: Lane, job: Job, caps: Caps, steps: nat): Lane
    requires Observes(e, lane, job, caps, steps)
  {
    var budget := Max(0, caps.maxEngineSteps - steps);
    var leaf := Transition(e, lane.rootPlayer, true, caps.maxForcedSteps, budget, job.root, job.rng,
                           job.action).leaf.value;
    if Retained(EndpointFor(e, e.prompt(leaf.state), lane.rootPlayer)) then Step(lane, Allocate(leaf)) else lane
  }

  // ---------------------------------------------------------------- what decides a row

  /** What a call has spent when a row starts. */
  datatype Mark = Mark(steps: nat, bytes: nat)

  /** The transition of a job with no step budget to run out of. */
  function FreeOf(e: Engine, rootPlayer: int, caps: Caps, job: Job): (t: Trace)
    ensures t.failure.Fine? ==> t.leaf.Some? && job.root.state.Some?
  {
    Freely(e, rootPlayer, true, caps.maxForcedSteps, job.root, job.rng, job.action)
  }

  /** What the root player sees of a leaf. */
  function ObservationOf(e: Engine, rootPlayer: int, job: Job, leaf: Slot): bytes
    requires job.root.state.Some?
  {
    e.observe(leaf.state, rootPlayer, e.prompt(job.root.state.value).logs)
  }

  /** The error of a row that starts at a mark with a slot to spare: the step budget, then the
      transition itself, then the room for its observation. */
  function DecidedError(e: Engine, rootPlayer: int, caps: Caps, mark: Mark, job: Job): int32 {
    var free := FreeOf(e, rootPlayer, caps, job);
    if mark.steps + free.used > caps.maxEngineSteps then StepBudget.Code()
    else if !free.failure.Fine? then free.failure.Code()
    else if mark.bytes + |ObservationOf(e, rootPlayer, job, free.leaf.value)| > caps.maxObservationBytes then
      OutputCapacity.Code()
    else 0
  }

  /** The row takes a slot: it finishes within the step budget at a leaf worth keeping. */
  predicate Allocates(e: Engine, rootPlayer: int, caps: Caps, mark: Mark, job: Job) {
    var free := FreeOf(e, rootPlayer, caps, job);
    && mark.steps + free.used <= caps.maxEngineSteps && free.failure.Fine?
    && Retained(EndpointFor(e, e.prompt(free.leaf.value.state), rootPlayer))
  }

  /** The row still holds its slot at the end. */
  predicate KeepsState(e: Engine, rootPlayer: int, caps: Caps, mark: Mark, job: Job) {
    Allocates(e, rootPlayer, caps, mark, job) && DecidedError(e, rootPlayer, caps, mark, job) == 0
  }

  // ---------------------------------------------------------------- what a transition keeps

  /** The arena steps of one transition. */
  function OpsOf(lane: Lane, r: Effect, leaf: Slot): seq<Op> {
    if r.lane == lane then [] else if r.failure.Fine? then [Allocate(leaf)]
    else [Allocate(leaf), Release(Handle(lane.active, |lane.slots|))]
  }

  /** A row that kept a handle names it; every other row names none. */
  predicate Holds(cell: CellMetadata) {
    cell.stateSlot >= 0
  }

  function HandleOf(cell: CellMetadata): Handle {
    Handle(cell.sessionGeneration, cell.stateSlot)
  }

  /** A finished game has no player, prompt or context to report. */
  ghost predicate DescribesLeaf(e: Engine, cell: CellMetadata, leaf: State) {
    var p := e.prompt(leaf);
    && cell.result == p.result
    && (if p.finished then cell.leafPlayer == -1 && cell.leafContext == -1 && cell.leafSelectType == -1
        else
          && cell.leafPlayer == p.player && cell.leafContext == Pred32(p.context)
          && cell.leafSelectType == Pred32(p.kind))
  }

  /** What a row says about the transition it reports, in terms of the uncapped consequence. */
  ghost predicate Reports(e: Engine, l: Lane, scratch: bytes, job: Job, cell: CellMetadata, leaf: Slot) {
    && cell.transitionSteps == 1 + cell.forcedSteps
    && Consequence(e, l.rootPlayer, true, job.root, job.rng, job.action, leaf, cell.forcedSteps)
    && cell.rulesExact && cell.endpoint == EndpointFor(e, e.prompt(leaf.state), l.rootPlayer)
    && DescribesLeaf(e, cell, leaf.state)
    && (Holds(cell) ==> cell.sessionGeneration == l.active && Get(l, HandleOf(cell)) == Some(leaf))
    && cell.observationOffset + cell.observationSize <= |scratch|
    && scratch[cell.observationOffset..cell.observationOffset + cell.observationSize]
         == ObservationOf(e, l.rootPlayer, job, leaf)
  }

  /** The steps a row counts are those of its transition under the budget it found. */
  ghost predicate CountsSteps(e: Engine, rootPlayer: int, caps: Caps, mark: Mark, job: Job, cell: CellMetadata) {
    var budget := Max(0, caps.maxEngineSteps - mark.steps);
    var t := Transition(e, rootPlayer, true, caps.maxForcedSteps, budget, job.root, job.rng, job.action);
    cell.transitionSteps == t.steps && cell.forcedSteps == t.forced
  }

  /** No row claims more steps, bytes or handles than the call could have produced. */
  ghost predicate Sized(caps: Caps, scratch: bytes, cell: CellMetadata) {
    && cell.forcedSteps <= caps.maxForcedSteps && cell.transitionSteps <= 1 + cell.forcedSteps
    && cell.observationOffset + cell.observationSize <= |scratch|
    && (!Holds(cell) ==> cell.sessionGeneration == -1 && cell.stateSlot == -1)
  }

  /** A row is honest: its error is the decided one, it holds a handle exactly when its state
      was kept, and it reports the consequence of its action or nothing at all. */
  ghost predicate Honest(e: Engine, l: Lane, caps: Caps, scratch: bytes, mark: Mark, job: Job, cell: CellMetadata) {
    && cell.rootPlayer == l.rootPlayer && Sized(caps, scratch, cell)
    && cell.error == DecidedError(e, l.rootPlayer, caps, mark, job)
    && (Holds(cell) <==> KeepsState(e, l.rootPlayer, caps, mark, job))
    && CountsSteps(e, l.rootPlayer, caps, mark, job, cell)
    && (if cell.error == 0 then
          && FreeOf(e, l.rootPlayer, caps, job).failure.Fine?
          && cell.observationOffset == mark.bytes
          && Reports(e, l, scratch, job, cell, FreeOf(e, l.rootPlayer, caps, job).leaf.value)
        else !cell.rulesExact && cell.endpoint == Invalid && cell.observationSize == 0)
  }

  ghost predicate Within(caps: Caps, steps: nat, scratch: bytes) {
    steps <= caps.maxEngineSteps && |scratch| <= caps.maxObservationBytes
  }

  /** What one transition, whatever its outcome, does to the arena and the scratch: at most
      one slot more, never an old handle released, and the counters still agree. */
  ghost predicate Keeps(lane: Lane, caps: Caps, scratch: bytes, r: Effect, ops: seq<Op>) {
    && Within(caps, r.steps, r.scratch) && scratch <= r.scratch
    && |r.scratch| == |scratch| + r.cell.observationSize
    && r.lane == Run(lane, ops) && Valid(r.lane) && KeepsHandles(ops, lane)
    && SameSession(lane, r.lane)
    && |lane.slots| <= |r.lane.slots| <= |lane.slots| + 1
    && r.lane.live == lane.live + (if Holds(r.cell) then 1 else 0)
    && (r.failure.Fine? <==> r.cell.error == 0) && r.cell.error == r.failure.Code()
    && (|lane.slots| < lane.maxSlots ==> !r.failure.ArenaCapacity?)
    && (Holds(r.cell) ==> HandleOf(r.cell) == Handle(lane.active, |lane.slots|) && |r.lane.slots| == |lane.slots| + 1)
  }

  ghost predicate SameSession(a: Lane, b: Lane) {
    && a.last == b.last && a.active == b.active && a.rootPlayer == b.rootPlayer && a.manualCoin == b.manualCoin
    && a.maxSlots == b.maxSlots && a.producer == b.producer
  }

  /** No transition ends a session or releases a handle that existed before it. */
  ghost predicate KeepsHandles(ops: seq<Op>, lane: Lane) {
    Reset !in ops && forall h :: Release(h) in ops ==> !Issued(lane, h)
  }

  lemma SettleArena(e: Engine, lane: Lane, root: State, leaf: Slot, caps: Caps, steps: nat, scratch: bytes,
                    cell: CellMetadata)
    requires Valid(lane) && lane.active != 0 && Within(caps, steps, scratch)
    requires !Holds(cell) && cell.error == 0 && cell.observationSize == 0
    ensures var r := Settle(e, lane, root, leaf, caps, steps, scratch, cell);
      Keeps(lane, caps, scratch, r, OpsOf(lane, r, leaf)) && r.steps == steps
          && r.cell.transitionSteps == cell.transitionSteps
  {
    hide Live;
    var h := Handle(lane.active, |lane.slots|);
    StepValid(lane, Allocate(leaf));
    StepValid(Step(lane, Allocate(leaf)), Release(h));
    RunOfAtMostTwo(lane, Allocate(leaf), Release(h));
  }

  /** The budget a row finds does not hinder its transition, or it is what stops it. */
  lemma BudgetDecides(e: Engine, rootPlayer: int, caps: Caps, mark: Mark, job: Job)
    requires mark.steps <= caps.maxEngineSteps
    ensures var budget := caps.maxEngineSteps - mark.steps;
            var t := Transition(e, rootPlayer, true, caps.maxForcedSteps, budget, job.root, job.rng, job.action);
            var free := FreeOf(e, rootPlayer, caps, job);
      && (mark.steps + free.used > caps.maxEngineSteps <==> t.failure.StepBudget?)
      && (mark.steps + free.used <= caps.maxEngineSteps ==> t == free)
      && (t.failure.StepBudget? ==> t.used == budget)
      && (t.failure.Fine? <==> t.failure.Code() == 0)
  {
    hide Transition;
    var budget := caps.maxEngineSteps - mark.steps;
    TransitionBudget(e, rootPlayer, true, caps.maxForcedSteps, budget, job.root, job.rng, job.action);
    TransitionShape(e, rootPlayer, true, caps.maxForcedSteps, budget, job.root, job.rng, job.action);
  }

  lemma SettleReports(e: Engine, lane: Lane, job: Job, caps: Caps, mark: Mark, steps: nat, scratch: bytes,
                      cell: CellMetadata)
    requires lane.active != 0 && |lane.slots| < lane.maxSlots && mark.bytes == |scratch|
    requires var free := FreeOf(e, lane.rootPlayer, caps, job);
      && mark.steps + free.used <= caps.maxEngineSteps && free.failure.Fine?
      && cell.transitionSteps == 1 + cell.forcedSteps && cell.forcedSteps == free.forced <= caps.maxForcedSteps
      && Consequence(e, lane.rootPlayer, true, job.root, job.rng, job.action, free.leaf.value, cell.forcedSteps)
      && CountsSteps(e, lane.rootPlayer, caps, mark, job, cell)
      && cell == LeafCell(e, FRESH_CELL.(rootPlayer := lane.rootPlayer, transitionSteps := 1 + cell.forcedSteps,
                                         forcedSteps := cell.forcedSteps), lane.rootPlayer, free.leaf.value.state)
    ensures var free := FreeOf(e, lane.rootPlayer, caps, job);
            var r := Settle(e, lane, job.root.state.value, free.leaf.value, caps, steps, scratch, cell);
      Honest(e, r.lane, caps, r.scratch, mark, job, r.cell)
  {
    hide Consequence, EndpointFor, Valid, Retained, Transition, FreeOf, CountsSteps;
    var leaf := FreeOf(e, lane.rootPlayer, caps, job).leaf.value;
    var r := Settle(e, lane, job.root.state.value, leaf, caps, steps, scratch, cell);
    assert CountsSteps(e, lane.rootPlayer, caps, mark, job, r.cell) by {
      CountsAlike(e, lane.rootPlayer, caps, mark, job, cell, r.cell);
    }
    if r.failure.Fine? {
      var json := ObservationOf(e, lane.rootPlayer, job, leaf);
      assert r.scratch[|scratch|..|scratch| + |json|] == json;
      assert Reports(e, r.lane, r.scratch, job, r.cell, leaf);
    }
  }

  lemma CountsAlike(e: Engine, rootPlayer: int, caps: Caps, mark: Mark, job: Job, a: CellMetadata, b: CellMetadata)
    requires CountsSteps(e, rootPlayer, caps, mark, job, a)
    requires a.transitionSteps == b.transitionSteps && a.forcedSteps == b.forcedSteps
    ensures CountsSteps(e, rootPlayer, caps, mark, job, b)
  {
    hide Transition;
  }

  lemma RunOfAtMostTwo(l: Lane, a: Op, b: Op)
    ensures Run(l, []) == l && Run(l, [a]) == Step(l, a) && Run(l, [a, b]) == Step(Step(l, a), b)
  {
    assert [a][..0] == [] && [a, b][..1] == [a];
    assert Run(l, [a]) == Step(Run(l, [a][..0]), a);
    assert Run(l, [a, b]) == Step(Run(l, [a, b][..1]), b);
  }

  /** Every transition stays within the caps and keeps the arena valid; with a free slot it
      fills an honest row. */
  lemma ExecuteKeeps(e: Engine, lane: Lane, job: Job, caps: Caps, steps: nat, scratch: bytes) returns (ops: seq<Op>)
    requires Valid(lane) && lane.active != 0 && Within(caps, steps, scratch)
    ensures var r := Execute(e, lane, job, caps, steps, scratch);
      && Keeps(lane, caps, scratch, r, ops)
      && (|lane.slots| < lane.maxSlots ==> Honest(e, r.lane, caps, r.scratch, Mark(steps, |scratch|), job, r.cell))
      && r.steps >= steps + (if r.cell.error == 0 then r.cell.transitionSteps else 0)
  {
    hide Transition, Consequence, Settle, LeafCell, Retained, Honest, Keeps, FreeOf;
    var budget, mark := caps.maxEngineSteps - steps, Mark(steps, |scratch|);
    var t := Transition(e, lane.rootPlayer, true, caps.maxForcedSteps, budget, job.root, job.rng, job.action);
    TransitionShape(e, lane.rootPlayer, true, caps.maxForcedSteps, budget, job.root, job.rng, job.action);
    BudgetDecides(e, lane.rootPlayer, caps, mark, job);
    if t.failure.Fine? {
      var leaf := t.leaf.value;
      TransitionSucceeds(e, lane.rootPlayer, true, caps.maxForcedSteps, budget, job.root, job.rng, job.action, leaf,
                         t.forced);
      var cell := LeafCell(e,
                           FRESH_CELL.(rootPlayer := lane.rootPlayer, transitionSteps := t.steps,
                                       forcedSteps := t.forced),
                           lane.rootPlayer, leaf.state);
      LeafCellKeeps(e, lane.rootPlayer, t.steps, t.forced, leaf.state);
      SettleArena(e, lane, job.root.state.value, leaf, caps, steps + t.used, scratch, cell);
      if |lane.slots| < lane.maxSlots {
        SettleReports(e, lane, job, caps, mark, steps + t.used, scratch, cell);
      }
      ops := OpsOf(lane, Execute(e, lane, job, caps, steps, scratch), leaf);
    } else {
      FailureKeeps(e, lane, job, t, caps, steps, scratch);
      ops := [];
    }
  }

  lemma FailureKeeps(e: Engine, lane: Lane, job: Job, t: Trace, caps: Caps, steps: nat, scratch: bytes)
    requires Valid(lane) && Within(caps, steps, scratch)
    requires t == Transition(e, lane.rootPlayer, true, caps.maxForcedSteps, caps.maxEngineSteps - steps,
                             job.root, job.rng, job.action)
    requires !t.failure.Fine? && !t.failure.ArenaCapacity?
    ensures
      var cell := FRESH_CELL.(rootPlayer := lane.rootPlayer, transitionSteps := t.steps, forcedSteps := t.forced);
      var r := Effect(t.failure, lane, steps + t.used, scratch, cell.(error := t.failure.Code()));
      Keeps(lane, caps, scratch, r, []) && Honest(e, r.lane, caps, r.scratch, Mark(steps, |scratch|), job, r.cell)
  {
    hide Transition, Live, FreeOf;
    BudgetDecides(e, lane.rootPlayer, caps, Mark(steps, |scratch|), job);
  }

  /** What a row does to the call's budgets and to the arena is decided by where it starts. */
  lemma ExecuteSpends(e: Engine, lane: Lane, job: Job, caps: Caps, steps: nat, scratch: bytes)
    requires Valid(lane) && lane.active != 0 && |lane.slots| < lane.maxSlots && Within(caps, steps, scratch)
    ensures var r := Execute(e, lane, job, caps, steps, scratch);
            var mark := Mark(steps, |scratch|);
      && r.steps == Min(caps.maxEngineSteps, steps + FreeOf(e, lane.rootPlayer, caps, job).used)
      && (if Allocates(e, lane.rootPlayer, caps, mark, job) then |r.lane.slots| == |lane.slots| + 1 else r.lane == lane)
  {
    hide Transition, EndpointFor, FreeOf, Live;
    BudgetDecides(e, lane.rootPlayer, caps, Mark(steps, |scratch|), job);
  }

  /** A row adds its observation to the scratch exactly when it succeeds. */
  lemma ExecuteWrites(e: Engine, lane: Lane, job: Job, caps: Caps, steps: nat, scratch: bytes)
    requires Valid(lane) && lane.active != 0 && |lane.slots| < lane.maxSlots && Within(caps, steps, scratch)
    ensures var r := Execute(e, lane, job, caps, steps, scratch);
            var free := FreeOf(e, lane.rootPlayer, caps, job);
      |r.scratch| == |scratch| +
        if DecidedError(e, lane.rootPlayer, caps, Mark(steps, |scratch|), job) == 0 then
          |ObservationOf(e, lane.rootPlayer, job, free.leaf.value)|
        else 0
  {
    hide Transition, EndpointFor, FreeOf, Live;
    BudgetDecides(e, lane.rootPlayer, caps, Mark(steps, |scratch|), job);
  }

  /** A row that finishes spends at least its first step, and only such a row has no error. */
  lemma FinishingSpends(e: Engine, rootPlayer: int, caps: Caps, job: Job)
    ensures var free := FreeOf(e, rootPlayer, caps, job);
      && (free.failure.Fine? ==> free.used > 0)
      && (free.failure.Fine? <==> free.failure.Code() == 0)
  {
    hide Transition;
    TransitionShape(e, rootPlayer, true, caps.maxForcedSteps, caps.maxForcedSteps + 1, job.root, job.rng, job.action);
  }

  /** An exception at the observation leaves the leaf behind exactly when the row would have
      taken a slot, and disturbs no earlier handle. */
  lemma InterruptedKeeps(e: Engine, lane: Lane, job: Job, caps: Caps, steps: nat, scratch: bytes) returns (ops: seq<Op>)
    requires Valid(lane) && lane.active != 0 && |lane.slots| < lane.maxSlots && Within(caps, steps, scratch)
    requires Observes(e, lane, job, caps, steps)
    ensures var after := Interrupted(e, lane, job, caps, steps);
      && Valid(after) && after == Run(lane, ops) && KeepsHandles(ops, lane)
      && (if Allocates(e, lane.rootPlayer, caps, Mark(steps, |scratch|), job) then
            after.live == lane.live + 1 && |after.slots| == |lane.slots| + 1
          else after == lane)
  {
    hide Transition, EndpointFor, FreeOf, Live;
    BudgetDecides(e, lane.rootPlayer, caps, Mark(steps, |scratch|), job);
    var leaf := FreeOf(e, lane.rootPlayer, caps, job).leaf.value;
    StepValid(lane, Allocate(leaf));
    RunOfAtMostTwo(lane, Allocate(leaf), Allocate(leaf));
    ops := if Interrupted(e, lane, job, caps, steps) == lane then [] else [Allocate(leaf)];
  }

  lemma LeafCellKeeps(e: Engine, rootPlayer: int32, steps: nat, forced: nat, leaf: State)
    ensures var c := LeafCell(e, FRESH_CELL.(rootPlayer := rootPlayer, transitionSteps := steps, forcedSteps := forced),
                              rootPlayer, leaf);
      c.forcedSteps == forced && c.transitionSteps == steps && c.error == 0 && !Holds(c) && c.observationSize == 0
  {
  }
}
