/** The planner's decision batch: a world-major loop over one mutable game, whose answer is
    the candidate-major grid of cell outcomes. */
module PlannerGrid {
  import opened Common
  import opened Bytes
  import opened TransitionModel
  import opened PlannerInput
  import opened PlannerGame
  import opened GridOrder
  import opened PlannerGridModel
  import opened SessionCalls
  import opened SessionModel
  import opened SessionTransition
  import opened PlannerSession
  import opened Wire

  datatype GridRequest = GridRequest(
    producer: bytes, token: bytes, hiddenCounts: seq<int32>, hiddenValues: seq<int32>, worldCount: int32,
    candidateCounts: seq<int32>, candidateValues: seq<int32>, candidateCount: int32, rootPlayer: int32,
    manualCoin: int32, seed: uint64, maxCells: int32, maxEngineSteps: int32, maxForcedSteps: int32,
    maxObservationBytes: int32)

  predicate GridShapeOk(r: GridRequest) {
    && |r.producer| == FINGERPRINT_BYTES && 0 < |r.token| <= MAXIMUM_STATE_TOKEN_BYTES
    && 0 < r.worldCount <= MAXIMUM_CELLS_PER_CALL && 0 < r.candidateCount <= MAXIMUM_CELLS_PER_CALL
    && 0 <= r.rootPlayer <= 1
    && |r.hiddenCounts| == r.worldCount * HIDDEN_LIST_COUNT && |r.candidateCounts| == r.candidateCount
    && (r.manualCoin == 0 || r.manualCoin == 1) && 0 < r.maxCells <= MAXIMUM_CELLS_PER_CALL
    && CapsOk(r.maxEngineSteps, r.maxForcedSteps, r.maxObservationBytes)
  }

  predicate GridRequestOk(e: Engine, r: GridRequest) {
    && GridShapeOk(r)
    && r.candidateCount * r.worldCount <= r.maxCells && r.candidateCount * r.worldCount <= r.maxEngineSteps
    && BuffersOk(r.hiddenCounts, r.hiddenValues, e.deckSize)
    && BuffersOk(r.candidateCounts, r.candidateValues, MAXIMUM_SELECT_COUNT)
  }

  function Cells(r: GridRequest): nat
    requires GridShapeOk(r)
  {
    r.candidateCount * r.worldCount
  }

  // ---------------------------------------------------------------- the pure grid

  ghost function HiddenLists(e: Engine, r: GridRequest, world: nat): seq<seq<int>>
    requires GridRequestOk(e, r) && world < r.worldCount
  {
    BuffersAreRagged(r.hiddenCounts, r.hiddenValues, e.deckSize);
    WorldLists(r.hiddenCounts, r.hiddenValues, world)
  }

  ghost function Candidate(e: Engine, r: GridRequest, candidate: nat): seq<int>
    requires GridRequestOk(e, r) && candidate < r.candidateCount
  {
    BuffersAreRagged(r.candidateCounts, r.candidateValues, MAXIMUM_SELECT_COUNT);
    Item(r.candidateCounts, r.candidateValues, candidate)
  }

  /** A cell from its world's hidden lists, the world's seeded stream and its candidate. */
  ghost function OutcomeAt(e: Engine, r: GridRequest, base: State, world: nat, candidate: nat): Outcome
    requires GridRequestOk(e, r) && world < r.worldCount && candidate < r.candidateCount
  {
    var (root, rootRng) := StartWorld(e, base, r.rootPlayer, r.manualCoin != 0, HiddenLists(e, r, world),
                                      e.seeded(r.seed, world));
    CellOutcome(e, r.rootPlayer, r.manualCoin != 0, r.maxForcedSteps, root, rootRng, Candidate(e, r, candidate))
  }

  ghost function Outcomes(e: Engine, r: GridRequest, base: State): (os: seq<Outcome>)
    requires GridRequestOk(e, r)
    ensures |os| == Cells(r)
  {
    seq(Cells(r), i requires 0 <= i < Cells(r) =>
      (GridCellBack(r.worldCount, r.candidateCount, i);
       OutcomeAt(e, r, base, WorldOf(r.worldCount, i), CandidateOf(r.worldCount, i))))
  }

  lemma OutcomesAt(e: Engine, r: GridRequest, base: State, world: nat, candidate: nat)
    requires GridRequestOk(e, r) && world < r.worldCount && candidate < r.candidateCount
    ensures GridCell(r.worldCount, candidate, world) < Cells(r)
    ensures Outcomes(e, r, base)[GridCell(r.worldCount, candidate, world)] == OutcomeAt(e, r, base, world, candidate)
  {
    GridCellAt(r.worldCount, r.candidateCount, candidate, world);
  }

  /** Two requests put the same outcome wherever they put the same candidate in the same
      world: adding, dropping or permuting other candidates or worlds changes no cell. */
  lemma OutcomesAreIndependent(e: Engine, r: GridRequest, q: GridRequest, base: State, world: nat, c: nat, d: nat)
    requires GridRequestOk(e, r) && GridRequestOk(e, q)
    requires world < r.worldCount && world < q.worldCount && c < r.candidateCount && d < q.candidateCount
    requires r.rootPlayer == q.rootPlayer && r.manualCoin == q.manualCoin && r.seed == q.seed
    requires r.maxForcedSteps == q.maxForcedSteps
    requires HiddenLists(e, r, world) == HiddenLists(e, q, world) && Candidate(e, r, c) == Candidate(e, q, d)
    ensures GridCell(r.worldCount, c, world) < Cells(r) && GridCell(q.worldCount, d, world) < Cells(q)
    ensures Outcomes(e, r, base)[GridCell(r.worldCount, c, world)]
        == Outcomes(e, q, base)[GridCell(q.worldCount, d, world)]
  {
    OutcomesAt(e, r, base, world, c);
    OutcomesAt(e, q, base, world, d);
  }

  function PlanOf(r: GridRequest, requestFingerprint: bytes, os: seq<Outcome>): Plan {
    Plan(r.worldCount, r.candidateCount, requestFingerprint, r.producer, Flatten(PlacedCells(os)), Observations(os))
  }

  // ---------------------------------------------------------------- what the grid costs

  function UsedBy(os: seq<Outcome>, done: set<int>): nat {
    if os == [] then 0
    else UsedBy(os[..|os| - 1], done) + (if |os| - 1 in done then os[|os| - 1].used else 0)
  }

  function BytesBy(os: seq<Outcome>, done: set<int>): nat {
    if os == [] then 0
    else BytesBy(os[..|os| - 1], done) + (if |os| - 1 in done then |os[|os| - 1].root| + |os[|os| - 1].leaf| else 0)
  }

  lemma {:induction false} CostOfOne(os: seq<Outcome>, done: set<int>, i: nat)
    requires i !in done
    ensures UsedBy(os, done + {i}) == UsedBy(os, done) + (if i < |os| then os[i].used else 0)
    ensures BytesBy(os, done + {i}) == BytesBy(os, done) + (if i < |os| then |os[i].root| + |os[i].leaf| else 0)
  {
    if os != [] {
      CostOfOne(os[..|os| - 1], done, i);
    }
  }

  lemma {:induction false} CostGrows(os: seq<Outcome>, done: set<int>, more: set<int>)
    requires done <= more
    ensures UsedBy(os, done) <= UsedBy(os, more) && BytesBy(os, done) <= BytesBy(os, more)
    ensures UsedBy(os, {}) == 0 && BytesBy(os, {}) == 0
  {
    if os != [] {
      CostGrows(os[..|os| - 1], done, more);
    }
  }

  function TotalUsed(os: seq<Outcome>): nat {
    UsedBy(os, Everything(|os|))
  }

  function TotalBytes(os: seq<Outcome>): nat {
    BytesBy(os, Everything(|os|))
  }

  /** The cells done fit both budgets. */
  predicate Affordable(os: seq<Outcome>, done: set<int>, maxEngineSteps: int, maxObservationBytes: int) {
    UsedBy(os, done) <= maxEngineSteps && BytesBy(os, done) <= maxObservationBytes
  }

  /** The engine throws in a cell that the grid gets to: the cells before it fit both budgets,
      and at the observation also its own steps do and it has one. */
  predicate GridThrows(r: GridRequest, os: seq<Outcome>, throws: Throw)
    requires GridShapeOk(r) && |os| == Cells(r)
  {
    && !throws.Never? && throws.row < Cells(r)
    && var done := Filled(r.worldCount, r.candidateCount, WorldOf(r.worldCount, throws.row),
                          CandidateOf(r.worldCount, throws.row));
       && Affordable(os, done, r.maxEngineSteps, r.maxObservationBytes)
       && (throws.Observing? ==>
           UsedBy(os, done) + os[throws.row].used <= r.maxEngineSteps && os[throws.row].cell.error == 0)
  }

  /** What that says at a cell of the loop. */
  lemma GridThrowsAt(r: GridRequest, os: seq<Outcome>, throws: Throw, world: nat, candidate: nat)
    requires GridShapeOk(r) && |os| == Cells(r) && world < r.worldCount && candidate < r.candidateCount
    requires Affordable(os, Filled(r.worldCount, r.candidateCount, world, candidate), r.maxEngineSteps,
                        r.maxObservationBytes)
    ensures var cell := GridCell(r.worldCount, candidate, world);
            var done := Filled(r.worldCount, r.candidateCount, world, candidate);
      && cell < Cells(r)
      && (throws == Stepping(cell) ==> GridThrows(r, os, throws))
      && (throws == Observing(cell) ==>
            (GridThrows(r, os, throws) <==>
             UsedBy(os, done) + os[cell].used <= r.maxEngineSteps && os[cell].cell.error == 0))
  {
    hide Filled, UsedBy, BytesBy;
    GridCellAt(r.worldCount, r.candidateCount, candidate, world);
  }

  // ---------------------------------------------------------------- one cell

  /** A cell as stored: its outcome, with offsets that find both observations in the scratch. */
  predicate Stored(scratch: bytes, cell: PlanCell, o: Outcome) {
    && cell == o.cell.(observationOffset := cell.observationOffset, leafObservationOffset := cell.leafObservationOffset)
    && o.cell.observationSize == |o.root| && o.cell.leafObservationSize == |o.leaf|
    && cell.observationOffset + |o.root| <= |scratch| && cell.leafObservationOffset + |o.leaf| <= |scratch|
    && scratch[cell.observationOffset..cell.observationOffset + |o.root|] == o.root
    && scratch[cell.leafObservationOffset..cell.leafObservationOffset + |o.leaf|] == o.leaf
  }

  lemma StoredStays(scratch: bytes, more: bytes, cell: PlanCell, o: Outcome)
    requires Stored(scratch, cell, o) && scratch <= more
    ensures Stored(more, cell, o)
  {
  }

  /** How the call goes on after a cell. */
  function CellCode(o: Outcome, caps: Caps, steps: nat, observed: nat, observingThrows: bool): int {
    if steps + o.used > caps.maxEngineSteps then StepBudget.Code()
    else if observingThrows && o.cell.error == 0 then EXCEPTION
    else if observed + |o.root| + |o.leaf| > caps.maxObservationBytes then OutputCapacity.Code()
    else 0
  }

  /** The cell of a transition that failed. */
  function FailedCell(rootPlayer: int32, t: Trace): PlanCell {
    FRESH_PLAN.(rootPlayer := rootPlayer, error := t.failure.Code(), transitionSteps := t.steps,
                forcedSteps := t.forced)
  }

  /** The cell of a leaf before its observations are sized. */
  function LeafCellOf(e: Engine, rootPlayer: int32, t: Trace): PlanCell
    requires t.leaf.Some?
  {
    var p := e.prompt(t.leaf.value.state);
    FailedCell(rootPlayer, t).(
      rulesExact := true, endpoint := EndpointFor(e, p, rootPlayer), result := p.result,
      leafPlayer := if p.finished then -1 else p.player,
      leafContext := if p.finished then -1 else Pred32(p.context),
      leafSelectType := if p.finished then -1 else Pred32(p.kind))
  }

  /** What an outcome is made of, by the free transition behind it. */
  lemma OutcomeParts(e: Engine, rootPlayer: int32, manualCoin: bool, maxForced: nat, root: SearchInfo, rootRng: Rng,
                     action: seq<int>)
    ensures var t := Freely(e, rootPlayer, manualCoin, maxForced, root, rootRng, action);
            var o := CellOutcome(e, rootPlayer, manualCoin, maxForced, root, rootRng, action);
      && o.used == t.used && (t.failure.Fine? <==> o.cell.error == 0)
      && o.cell.observationSize == |o.root| && o.cell.leafObservationSize == |o.leaf|
      && (if !t.failure.Fine? then o.cell == FailedCell(rootPlayer, t) && o.root == [] && o.leaf == []
          else
            && t.leaf.Some? && root.state.Some?
            && var leaf, logs := t.leaf.value.state, e.prompt(root.state.value).logs;
               && o.root == e.observe(leaf, rootPlayer, logs)
               && o.leaf == (if e.prompt(leaf).finished then [] else e.observe(leaf, e.prompt(leaf).player, logs))
               && o.cell == LeafCellOf(e, rootPlayer, t).(observationSize := |o.root|, leafObservationSize := |o.leaf|))
  {
    hide Transition, EndpointFor;
    TransitionShape(e, rootPlayer, manualCoin, maxForced, maxForced + 1, root, rootRng, action);
  }

  /** Both observations appended in turn are found where the cell says. */
  lemma AppendedIsStored(before: bytes, cell: PlanCell, o: Outcome)
    requires o.cell.observationSize == |o.root| && o.cell.leafObservationSize == |o.leaf|
    requires cell == o.cell.(observationOffset := cell.observationOffset,
                             leafObservationOffset := cell.leafObservationOffset)
    requires o.root == [] || cell.observationOffset == |before|
    requires o.leaf == [] || cell.leafObservationOffset == |before| + |o.root|
    requires cell.observationOffset <= |before| && cell.leafObservationOffset <= |before| + |o.root|
    ensures Stored(before + o.root + o.leaf, cell, o)
  {
  }

  class PlannerLane {
    const game: Game

    constructor (rng: Rng)
      ensures fresh(game)
    {
      game := new Game(rng);
    }

    /** The body of the inner loop. */
    method RunCell(e: Engine, rootPlayer: int32, manualCoin: bool, caps: Caps, steps: nat, observations: bytes,
                   root: SearchInfo, rootRng: Rng, action: seq<int>, observingThrows: bool)
      returns (error: int, engineSteps: nat, scratch: bytes, cell: PlanCell)
      requires steps <= caps.maxEngineSteps && |observations| <= caps.maxObservationBytes
      modifies game
      ensures game.rng == old(game.rng)
      ensures var o := CellOutcome(e, rootPlayer, manualCoin, caps.maxForcedSteps, root, rootRng, action);
        && error == CellCode(o, caps, steps, |observations|, observingThrows)
        && (error == 0 ==>
              engineSteps == steps + o.used && scratch == observations + o.root + o.leaf && Stored(scratch, cell, o))
    {
      hide Transition, EndpointFor, Freely, CellOutcome, Stored;
      cell, scratch := FRESH_PLAN.(rootPlayer := rootPlayer), observations;
      ghost var o := CellOutcome(e, rootPlayer, manualCoin, caps.maxForcedSteps, root, rootRng, action);
      OutcomeParts(e, rootPlayer, manualCoin, caps.maxForcedSteps, root, rootRng, action);
      TransitionBudget(e, rootPlayer, manualCoin, caps.maxForcedSteps, caps.maxEngineSteps - steps, root, rootRng,
                       action);
      var t: Trace;
      t, engineSteps := game.Branch(e, rootPlayer, manualCoin, caps.maxForcedSteps, caps.maxEngineSteps, steps, root,
                                    rootRng, action);
      if t.failure.StepBudget? {
        return StepBudget.Code(), engineSteps, scratch, cell;
      }
      cell := cell.(error := t.failure.Code(), transitionSteps := t.steps, forcedSteps := t.forced);
      if t.failure != Fine || t.leaf.None? || root.state.None? {
        AppendedIsStored(observations, cell, o);
        return 0, engineSteps, scratch, cell;
      }
      var leaf := t.leaf.value.state;
      var prompt := e.prompt(leaf);
      var rootLogIndex := e.prompt(root.state.value).logs;
      cell := cell.(rulesExact := true, endpoint := EndpointFor(e, prompt, rootPlayer), result := prompt.result);
      if prompt.finished {
        cell := cell.(leafPlayer := -1, leafContext := -1, leafSelectType := -1);
      } else {
        cell := cell.(leafPlayer := prompt.player, leafContext := Pred32(prompt.context),
                      leafSelectType := Pred32(prompt.kind));
      }
      if observingThrows {
        return EXCEPTION, engineSteps, scratch, cell;
      }
      var json := e.observe(leaf, rootPlayer, rootLogIndex);
      if |json| > caps.maxObservationBytes - |scratch| {
        return OutputCapacity.Code(), engineSteps, scratch, cell;
      }
      cell := cell.(observationOffset := |scratch|, observationSize := |json|);
      scratch := scratch + json;
      if !prompt.finished {
        var leafJson := e.observe(leaf, cell.leafPlayer, rootLogIndex);
        if |leafJson| > caps.maxObservationBytes - |scratch| {
          return OutputCapacity.Code(), engineSteps, scratch, cell;
        }
        cell := cell.(leafObservationOffset := |scratch|, leafObservationSize := |leafJson|);
        scratch := scratch + leafJson;
      }
      AppendedIsStored(observations, cell, o);
      return 0, engineSteps, scratch, cell;
    }

    // -------------------------------------------------------------- the grid

    method RunGrid(e: Engine, r: GridRequest, base: State, throws: Throw)
      returns (error: int, metadata: seq<PlanCell>, scratch: bytes)
      requires GridRequestOk(e, r)
      modifies game
      ensures GridAnswer(r, Outcomes(e, r, base), throws, error)
      ensures error == 0 ==> var os := Outcomes(e, r, base); AllStored(scratch, metadata, os, Everything(|os|))
    {
      hide StartWorld, BuffersOk, Outcomes, Filled, GridCell, Everything, Stored, CellOutcome, GridThrows, Affordable;
      hide InRange, Item, WorldLists, AllStored, HiddenLists, Candidate;
      ghost var os := Outcomes(e, r, base);
      OutcomesSized(e, r, base);
      var worlds, candidates := r.worldCount, r.candidateCount;
      var caps := Caps(r.maxEngineSteps, r.maxForcedSteps, r.maxObservationBytes);
      BuffersAreRagged(r.hiddenCounts, r.hiddenValues, e.deckSize);
      BuffersAreRagged(r.candidateCounts, r.candidateValues, MAXIMUM_SELECT_COUNT);
      var actions := ReadActions(r.candidateCounts, r.candidateValues);
      metadata, scratch := seq(Cells(r), i => FRESH_PLAN), [];
      var hiddenOffset := 0;
      var engineSteps: nat := 0;
      GridStarts(r, os, metadata, caps, throws);
      for world := 0 to worlds
        invariant hiddenOffset == Total(r.hiddenCounts, HIDDEN_LIST_COUNT * world)
        invariant GridOk(os, Filled(worlds, candidates, world, 0), metadata, scratch, engineSteps, caps)
        invariant NotYetThrown(r, os, throws, world, 0)
      {
        game.rng := e.seeded(r.seed, world);
        var root, rootRng, next := StartRoot(e, base, r.rootPlayer, r.manualCoin != 0, r.hiddenCounts, r.hiddenValues,
                                             world, hiddenOffset, game.rng);
        hiddenOffset := next;
        game.rng := rootRng;
        for candidate := 0 to candidates
          invariant GridOk(os, Filled(worlds, candidates, world, candidate), metadata, scratch, engineSteps, caps)
          invariant NotYetThrown(r, os, throws, world, candidate)
        {
          var cell := GridCell(worlds, candidate, world);
          ghost var before, steps, table := scratch, engineSteps, metadata;
          GridTurn(r, os, metadata, scratch, engineSteps, caps, throws, world, candidate);
          if throws == Stepping(cell) {
            return EXCEPTION, metadata, scratch;
          }
          OutcomeIs(e, r, base, world, candidate, root, rootRng);
          var failed, after, longer, row := RunCell(e, r.rootPlayer, r.manualCoin != 0, caps, engineSteps, scratch,
                                                    root, rootRng,
                                                    actions[candidate], throws == Observing(cell));
          if failed != 0 {
            return failed, metadata, scratch;
          }
          engineSteps, scratch := after, longer;
          metadata := metadata[cell := row];
          GridGrows(r, os, before, scratch, table, metadata, steps, engineSteps, caps, world, candidate);
        }
        GridTurns(r, os, world, throws);
      }
      GridEnds(r, os, metadata, scratch, engineSteps, caps, throws);
      return 0, metadata, scratch;
    }
  }

  lemma OutcomeIs(e: Engine, r: GridRequest, base: State, world: nat, candidate: nat, root: SearchInfo, rootRng: Rng)
    requires GridRequestOk(e, r) && world < r.worldCount && candidate < r.candidateCount
    requires RaggedOk(r.hiddenCounts, r.hiddenValues) && RaggedOk(r.candidateCounts, r.candidateValues)
    requires (root, rootRng) == StartWorld(e, base, r.rootPlayer, r.manualCoin != 0,
                                           WorldLists(r.hiddenCounts, r.hiddenValues, world), e.seeded(r.seed, world))
    ensures GridCell(r.worldCount, candidate, world) < Cells(r)
    ensures Outcomes(e, r, base)[GridCell(r.worldCount, candidate, world)]
      == CellOutcome(e, r.rootPlayer, r.manualCoin != 0, r.maxForcedSteps, root, rootRng,
                     Item(r.candidateCounts, r.candidateValues, candidate))
  {
    hide StartWorld, WorldLists, Item, CellOutcome, BuffersOk, GridCell;
    OutcomesAt(e, r, base, world, candidate);
  }

  /** What the grid answers: an exception where one is reached, success exactly when the whole
      grid is affordable, otherwise a budget that the whole grid breaks. */
  ghost predicate GridAnswer(r: GridRequest, os: seq<Outcome>, throws: Throw, error: int)
    requires GridShapeOk(r) && |os| == Cells(r)
  {
    && error in {0, OutputCapacity.Code(), StepBudget.Code(), EXCEPTION}
    && (error == EXCEPTION <==> GridThrows(r, os, throws))
    && (error == 0 <==>
          TotalUsed(os) <= r.maxEngineSteps && TotalBytes(os) <= r.maxObservationBytes && !GridThrows(r, os, throws))
    && (error == StepBudget.Code() ==> TotalUsed(os) > r.maxEngineSteps)
    && (error == OutputCapacity.Code() ==> TotalBytes(os) > r.maxObservationBytes)
  }

  /** No exception in the cells before this one. */
  ghost predicate NotYetThrown(r: GridRequest, os: seq<Outcome>, throws: Throw, world: nat, candidate: nat)
    requires GridShapeOk(r) && |os| == Cells(r)
  {
    GridThrows(r, os, throws) ==> throws.row !in Filled(r.worldCount, r.candidateCount, world, candidate)
  }

  // ---------------------------------------------------------------- one turn of the loops

  lemma GridStarts(r: GridRequest, os: seq<Outcome>, metadata: seq<PlanCell>, caps: Caps, throws: Throw)
    requires GridShapeOk(r) && |os| == Cells(r) == |metadata|
    ensures GridOk(os, Filled(r.worldCount, r.candidateCount, 0, 0), metadata, [], 0, caps)
    ensures NotYetThrown(r, os, throws, 0, 0)
  {
    hide Filled, Everything, Stored, UsedBy, BytesBy, GridThrows;
    FillWorld(r.worldCount, r.candidateCount, 0);
    CostGrows(os, {}, Everything(|os|));
  }

  lemma GridTurns(r: GridRequest, os: seq<Outcome>, world: nat, throws: Throw)
    requires GridShapeOk(r) && |os| == Cells(r) && world < r.worldCount
    requires NotYetThrown(r, os, throws, world, r.candidateCount)
    ensures Filled(r.worldCount, r.candidateCount, world, r.candidateCount)
        == Filled(r.worldCount, r.candidateCount, world + 1, 0)
    ensures NotYetThrown(r, os, throws, world + 1, 0)
  {
    hide Filled, Everything, GridThrows;
    FillWorld(r.worldCount, r.candidateCount, world);
  }

  /** Later cells come after everything filled. */
  lemma FilledBefore(worlds: nat, candidates: nat, world: nat, candidate: nat, i: nat)
    requires worlds > 0 && i < candidates * worlds && i !in Filled(worlds, candidates, world, candidate)
    ensures Filled(worlds, candidates, world, candidate) <= Filled(worlds, candidates, WorldOf(worlds, i),
          CandidateOf(worlds, i))
  {
    hide WorldOf, CandidateOf;
  }

  /** A grid that has broken a budget gets to no later exception. */
  lemma NoLaterThrow(r: GridRequest, os: seq<Outcome>, throws: Throw, world: nat, candidate: nat)
    requires GridShapeOk(r) && |os| == Cells(r)
    requires !throws.Never? && throws.row < Cells(r)
    requires throws.row !in Filled(r.worldCount, r.candidateCount, world, candidate)
    requires !Affordable(os, Filled(r.worldCount, r.candidateCount, world, candidate), r.maxEngineSteps,
                         r.maxObservationBytes)
    ensures !GridThrows(r, os, throws)
  {
    hide Filled, UsedBy, BytesBy, WorldOf, CandidateOf;
    FilledBefore(r.worldCount, r.candidateCount, world, candidate, throws.row);
    CostGrows(os, Filled(r.worldCount, r.candidateCount, world, candidate),
              Filled(r.worldCount, r.candidateCount, WorldOf(r.worldCount, throws.row),
                     CandidateOf(r.worldCount, throws.row)));
  }

  /** What the next cell does to the call: it is the answer, or the loops go on. */
  lemma GridTurn(r: GridRequest, os: seq<Outcome>, metadata: seq<PlanCell>, scratch: bytes, engineSteps: nat,
                 caps: Caps,
                 throws: Throw, world: nat, candidate: nat)
    requires GridShapeOk(r) && |os| == Cells(r) && world < r.worldCount && candidate < r.candidateCount
    requires caps == Caps(r.maxEngineSteps, r.maxForcedSteps, r.maxObservationBytes)
    requires forall i :: 0 <= i < |os| ==> OutcomeSized(r, os[i])
    requires GridOk(os, Filled(r.worldCount, r.candidateCount, world, candidate), metadata, scratch, engineSteps, caps)
    requires NotYetThrown(r, os, throws, world, candidate)
    ensures var cell := GridCell(r.worldCount, candidate, world);
      && cell < |os|
      && (if throws == Stepping(cell) then GridAnswer(r, os, throws, EXCEPTION)
          else
            var code := CellCode(os[cell], caps, engineSteps, |scratch|, throws == Observing(cell));
            if code != 0 then GridAnswer(r, os, throws, code) else NotYetThrown(r, os, throws, world, candidate + 1))
  {
    hide Filled, GridCell, UsedBy, BytesBy, Stored, GridThrows, Everything;
    var cell := GridCell(r.worldCount, candidate, world);
    var done := Filled(r.worldCount, r.candidateCount, world, candidate);
    FillCell(r.worldCount, r.candidateCount, world, candidate);
    GridExtends(os, done, metadata, scratch, engineSteps, caps, cell);
    GridThrowsAt(r, os, throws, world, candidate);
    if GridThrows(r, os, throws) {
      GridThrowsRange(r, os, throws);
      if throws.row == cell {
        assert throws == Stepping(cell) || throws == Observing(cell);
      } else if !Affordable(os, done + {cell}, r.maxEngineSteps, r.maxObservationBytes) {
        NoLaterThrow(r, os, throws, world, candidate + 1);
      }
    }
  }

  lemma GridThrowsRange(r: GridRequest, os: seq<Outcome>, throws: Throw)
    requires GridShapeOk(r) && |os| == Cells(r) && GridThrows(r, os, throws)
    ensures !throws.Never? && throws.row < |os|
  {
    hide Affordable, UsedBy, Filled;
  }

  lemma GridGrows(r: GridRequest, os: seq<Outcome>, before: bytes, scratch: bytes, table: seq<PlanCell>,
                  metadata: seq<PlanCell>,
                  steps: nat, engineSteps: nat, caps: Caps, world: nat, candidate: nat)
    requires GridShapeOk(r) && |os| == Cells(r) && world < r.worldCount && candidate < r.candidateCount
    requires GridOk(os, Filled(r.worldCount, r.candidateCount, world, candidate), table, before, steps, caps)
    requires var cell := GridCell(r.worldCount, candidate, world);
      && cell < |os| == |metadata| == |table| && metadata == table[cell := metadata[cell]]
      && Stored(scratch, metadata[cell], os[cell])
      && engineSteps == steps + os[cell].used <= caps.maxEngineSteps
      && scratch == before + os[cell].root + os[cell].leaf && |scratch| <= caps.maxObservationBytes
    ensures GridOk(os, Filled(r.worldCount, r.candidateCount, world, candidate + 1), metadata, scratch, engineSteps,
                   caps)
  {
    hide Filled, GridCell, UsedBy, BytesBy, Stored, Everything;
    var cell := GridCell(r.worldCount, candidate, world);
    var done := Filled(r.worldCount, r.candidateCount, world, candidate);
    FillCell(r.worldCount, r.candidateCount, world, candidate);
    GridExtends(os, done, table, before, steps, caps, cell);
    AllStoredStays(before, scratch, metadata, os, done, cell);
  }

  lemma GridEnds(r: GridRequest, os: seq<Outcome>, metadata: seq<PlanCell>, scratch: bytes, engineSteps: nat,
                 caps: Caps, throws: Throw)
    requires GridShapeOk(r) && |os| == Cells(r)
    requires caps == Caps(r.maxEngineSteps, r.maxForcedSteps, r.maxObservationBytes)
    requires GridOk(os, Filled(r.worldCount, r.candidateCount, r.worldCount, 0), metadata, scratch, engineSteps, caps)
    requires NotYetThrown(r, os, throws, r.worldCount, 0)
    ensures GridAnswer(r, os, throws, 0) && AllStored(scratch, metadata, os, Everything(|os|))
  {
    hide Filled, UsedBy, BytesBy, AllStored, GridThrows;
    FillWorld(r.worldCount, r.candidateCount, 0);
    if GridThrows(r, os, throws) {
      GridThrowsRange(r, os, throws);
    }
  }

  // ---------------------------------------------------------------- the answer

  lemma {:induction false} BlobSize(os: seq<Outcome>, done: set<int>)
    requires forall i :: 0 <= i < |os| ==> i in done
    ensures |Concat(RootsOf(os))| + |Concat(LeavesOf(os))| == BytesBy(os, done)
  {
    if os != [] {
      var n := |os| - 1;
      BlobSize(os[..n], done);
      assert RootsOf(os)[..n] == RootsOf(os[..n]) && LeavesOf(os)[..n] == LeavesOf(os[..n]);
    }
  }

  predicate PlanCellFits(c: PlanCell) {
    Fits(c.transitionSteps) && Fits(c.forcedSteps) && Fits(c.observationOffset) && Fits(c.observationSize)
    && Fits(c.leafObservationOffset) && Fits(c.leafObservationSize)
  }

  lemma PlanIntsFit(c: PlanCell)
    requires PlanCellFits(c)
    ensures AllFit(PlanInts(c))
  {
    assert Fits(c.error) && Fits(c.rootPlayer) && Fits(c.leafPlayer) && Fits(c.leafContext) && Fits(c.result)
        && Fits(c.leafSelectType);
  }

  lemma {:induction false} FlattenFits(cells: seq<PlanCell>)
    requires forall i :: 0 <= i < |cells| ==> PlanCellFits(cells[i])
    ensures AllFit(Flatten(cells))
  {
    hide PlanInts, PlanCellFits;
    if cells != [] {
      FlattenFits(cells[..|cells| - 1]);
      PlanIntsFit(cells[|cells| - 1]);
    }
  }

  /** Row i of the flattened table. */
  lemma {:induction false} FlattenAt(cells: seq<PlanCell>, i: nat)
    requires i < |cells|
    ensures Flatten(cells)[PLAN_WIDTH * i..PLAN_WIDTH * (i + 1)] == PlanInts(cells[i])
  {
    hide PlanInts;
    var n := |cells| - 1;
    if i < n {
      FlattenAt(cells[..n], i);
      assert Flatten(cells)[PLAN_WIDTH * i..PLAN_WIDTH * (i + 1)]
          == Flatten(cells[..n])[PLAN_WIDTH * i..PLAN_WIDTH * (i + 1)];
    }
  }

  lemma AnswerFits(e: Engine, r: GridRequest, requestFingerprint: bytes, os: seq<Outcome>)
    requires GridRequestOk(e, r) && |requestFingerprint| == FINGERPRINT_BYTES && |os| == Cells(r)
    requires TotalBytes(os) <= r.maxObservationBytes
    requires forall i :: 0 <= i < |os| ==> OutcomeSized(r, os[i])
    ensures PlanFits(PlanOf(r, requestFingerprint, os))
  {
    hide BytesBy, Everything, Flatten, PlanCellFits, BuffersOk, Concat;
    BlobSize(os, Everything(|os|));
    var cells := PlacedCells(os);
    forall i | 0 <= i < |os| ensures PlanCellFits(cells[i]) {
      CellFits(r, os, i);
    }
    FlattenFits(cells);
    TableSize(r, cells);
  }

  predicate OutcomeSized(r: GridRequest, o: Outcome)
    requires GridShapeOk(r)
  {
    o.cell.observationSize == |o.root| && o.cell.leafObservationSize == |o.leaf|
    && o.cell.forcedSteps <= r.maxForcedSteps && o.cell.transitionSteps <= 1 + r.maxForcedSteps
  }

  lemma CellFits(r: GridRequest, os: seq<Outcome>, i: nat)
    requires GridShapeOk(r) && i < |os| && OutcomeSized(r, os[i])
    requires |Observations(os)| <= r.maxObservationBytes
    ensures PlanCellFits(PlacedCells(os)[i])
  {
    hide Concat;
    PlacedRowsTile(os, i);
  }

  lemma TableSize(r: GridRequest, cells: seq<PlanCell>)
    requires GridShapeOk(r) && |cells| == Cells(r)
    ensures |Flatten(cells)| == PLAN_WIDTH * (r.candidateCount * r.worldCount)
  {
  }

  /** The two rebasing passes over the rows: root slices first, then leaf slices. */
  method RebaseCells(metadata: seq<PlanCell>, scratch: bytes, ghost os: seq<Outcome>)
    returns (cells: seq<PlanCell>, observations: bytes)
    requires AllStored(scratch, metadata, os, Everything(|os|))
    ensures cells == PlacedCells(os) && observations == Observations(os)
  {
    hide Everything, Concat, AllStored;
    StoredAt(scratch, metadata, os);
    var rooted, prefix := GatherRoots(metadata, scratch, os);
    cells, observations := GatherLeaves(rooted, prefix, scratch, os);
    forall i | 0 <= i < |os| ensures cells[i] == PlacedCells(os)[i] {
      assert Stored(scratch, metadata[i], os[i]);
    }
  }

  lemma StoredAt(scratch: bytes, metadata: seq<PlanCell>, os: seq<Outcome>)
    requires AllStored(scratch, metadata, os, Everything(|os|))
    ensures |metadata| == |os| && forall i :: 0 <= i < |os| ==> Stored(scratch, metadata[i], os[i])
  {
    forall i | 0 <= i < |os| ensures Stored(scratch, metadata[i], os[i]) {
      assert i in Everything(|os|);
    }
  }

  method GatherRoots(metadata: seq<PlanCell>, scratch: bytes, ghost os: seq<Outcome>)
    returns (cells: seq<PlanCell>, observations: bytes)
    requires |metadata| == |os| && forall i :: 0 <= i < |os| ==> Stored(scratch, metadata[i], os[i])
    ensures |cells| == |os| && observations == Concat(RootsOf(os))
    ensures forall i :: 0 <= i < |os| ==> cells[i] == metadata[i].(observationOffset := |Concat(RootsOf(os)[..i])|)
  {
    hide Concat;
    ghost var roots := RootsOf(os);
    ConcatStarts(roots);
    cells, observations := metadata, [];
    for k := 0 to |metadata|
      invariant |cells| == |os| && observations == Concat(roots[..k])
      invariant forall i :: 0 <= i < k ==> cells[i] == metadata[i].(observationOffset := |Concat(roots[..i])|)
      invariant forall i :: k <= i < |os| ==> cells[i] == metadata[i]
    {
      var cell := cells[k];
      assert Stored(scratch, metadata[k], os[k]);
      ConcatStep(roots, k);
      cells := cells[k := cell.(observationOffset := |observations|)];
      if cell.observationSize > 0 {
        observations := observations + scratch[cell.observationOffset..cell.observationOffset + cell.observationSize];
      }
    }
    assert roots[..|os|] == roots;
  }

  method GatherLeaves(rooted: seq<PlanCell>, prefix: bytes, scratch: bytes, ghost os: seq<Outcome>)
    returns (cells: seq<PlanCell>, observations: bytes)
    requires |rooted| == |os| && forall i :: 0 <= i < |os| ==> LeafStored(scratch, rooted[i], os[i])
    ensures |cells| == |os| && observations == prefix + Concat(LeavesOf(os))
    ensures forall i :: 0 <= i < |os| ==>
      cells[i] == rooted[i].(leafObservationOffset := |prefix| + |Concat(LeavesOf(os)[..i])|)
  {
    hide Concat;
    ghost var leaves := LeavesOf(os);
    ConcatStarts(leaves);
    cells, observations := rooted, prefix;
    for k := 0 to |rooted|
      invariant |cells| == |os| && observations == prefix + Concat(leaves[..k])
      invariant forall i :: 0 <= i < k ==>
        cells[i] == rooted[i].(leafObservationOffset := |prefix| + |Concat(leaves[..i])|)
      invariant forall i :: k <= i < |os| ==> cells[i] == rooted[i]
    {
      var cell := cells[k];
      assert LeafStored(scratch, rooted[k], os[k]);
      ConcatStep(leaves, k);
      ConcatAssociates(prefix, Concat(leaves[..k]), leaves[k]);
      cells := cells[k := cell.(leafObservationOffset := |observations|)];
      if cell.leafObservationSize > 0 {
        observations := observations
            + scratch[cell.leafObservationOffset..cell.leafObservationOffset + cell.leafObservationSize];
      }
    }
    assert leaves[..|os|] == leaves;
  }

  /** The part of a stored cell the second pass needs; the first pass does not disturb it. */
  predicate LeafStored(scratch: bytes, cell: PlanCell, o: Outcome) {
    && cell.leafObservationSize == |o.leaf| && cell.leafObservationOffset + |o.leaf| <= |scratch|
    && scratch[cell.leafObservationOffset..cell.leafObservationOffset + |o.leaf|] == o.leaf
  }

  lemma ConcatStarts(parts: seq<bytes>)
    ensures Concat(parts[..0]) == []
  {
  }

  lemma ConcatStep(parts: seq<bytes>, k: nat)
    requires k < |parts|
    ensures Concat(parts[..k + 1]) == Concat(parts[..k]) + parts[k]
  {
    assert parts[..k + 1][..k] == parts[..k];
  }

  lemma FlattenStep(cells: seq<PlanCell>, k: nat)
    requires k < |cells|
    ensures Flatten(cells[..k + 1]) == Flatten(cells[..k]) + PlanInts(cells[k])
  {
    assert cells[..k + 1][..k] == cells[..k];
  }

  /** The request as the fingerprint sees it. */
  function Identity(r: GridRequest): F.Request {
    F.Consequence(r.token, r.hiddenCounts, r.hiddenValues, r.worldCount, r.candidateCounts, r.candidateValues,
                  r.candidateCount,
                  r.rootPlayer, r.manualCoin != 0, r.seed, r.maxCells,
                  F.Caps(r.maxEngineSteps, r.maxForcedSteps, r.maxObservationBytes))
  }

  lemma Hashable(e: Engine, r: GridRequest)
    requires GridRequestOk(e, r)
    ensures F.RequestOk(Identity(r))
  {
    assert |r.hiddenCounts| <= MAXIMUM_CELLS_PER_CALL * HIDDEN_LIST_COUNT;
  }

  /** The batch succeeds exactly when the request is sound and the whole grid fits both the
      step and the byte budget; its answer then depends on the request alone, not on what
      the lane's game held before.  An exception surfaces exactly when the grid gets to it. */
  method DecisionBatch(lane: PlannerLane, e: Engine, r: GridRequest, throws: Throw)
    returns (error: int, payload: bytes)
    modifies lane.game
    ensures error == INVALID_INPUT <==> !GridRequestOk(e, r) || e.load(r.token, r.rootPlayer).None?
    ensures error != INVALID_INPUT ==> GridAnswer(r, Outcomes(e, r, e.load(r.token, r.rootPlayer).value), throws, error)
    ensures error != 0 ==> payload == []
    ensures error == 0 ==>
      && F.RequestOk(Identity(r))
      && var plan := PlanOf(r, H.Digest(F.Preimage(Identity(r))), Outcomes(e, r, e.load(r.token, r.rootPlayer).value));
         payload == EncodePlan(plan) && DecodePlan(payload) == Some(plan)
  {
    hide Outcomes, BuffersOk, TotalUsed, TotalBytes, EncodePlan, DecodePlan, PlanFits, PlanInts, Words, Observations,
         PlacedCells;
    hide GridThrows, Identity, F.Preimage, H.Digest;
    payload := [];
    if !GridShapeOk(r) || r.candidateCount * r.worldCount > r.maxCells
        || r.candidateCount * r.worldCount > r.maxEngineSteps {
      return INVALID_INPUT, payload;
    }
    var hiddenTotal := CheckedSum(r.hiddenCounts, e.deckSize);
    var candidateTotal := CheckedSum(r.candidateCounts, MAXIMUM_SELECT_COUNT);
    BuffersMeanSums(r.hiddenCounts, r.hiddenValues, e.deckSize, hiddenTotal);
    BuffersMeanSums(r.candidateCounts, r.candidateValues, MAXIMUM_SELECT_COUNT, candidateTotal);
    if hiddenTotal != Some(|r.hiddenValues|) || candidateTotal != Some(|r.candidateValues|) {
      return INVALID_INPUT, payload;
    }
    Hashable(e, r);
    var fingerprint := F.Fingerprint(Identity(r));
    var base := e.load(r.token, r.rootPlayer);
    if base.None? {
      return INVALID_INPUT, payload;
    }
    ghost var os := Outcomes(e, r, base.value);
    var metadata, scratch;
    error, metadata, scratch := lane.RunGrid(e, r, base.value, throws);
    if error != 0 {
      return;
    }
    OutcomesSized(e, r, base.value);
    AnswerFits(e, r, fingerprint, os);
    PlanRoundTrip(PlanOf(r, fingerprint, os));
    var cells, observations := RebaseCells(metadata, scratch, os);
    payload := WritePlan(r.worldCount, r.candidateCount, fingerprint, r.producer, cells, observations);
    assert EncodePlan(PlanOf(r, fingerprint, os)) == payload;
  }

  lemma OutcomesSized(e: Engine, r: GridRequest, base: State)
    requires GridRequestOk(e, r)
    ensures forall i :: 0 <= i < Cells(r) ==> OutcomeSized(r, Outcomes(e, r, base)[i])
  {
    hide StartWorld, BuffersOk, CellOutcome;
    forall i | 0 <= i < Cells(r) ensures OutcomeSized(r, Outcomes(e, r, base)[i]) {
      GridCellBack(r.worldCount, r.candidateCount, i);
    }
  }

  method WritePlan(worlds: int, candidates: int, request: bytes, producer: bytes, cells: seq<PlanCell>,
                   observations: bytes)
    returns (payload: bytes)
    ensures payload == EncodePlan(Plan(worlds, candidates, request, producer, Flatten(cells), observations))
  {
    hide Words, PlanInts;
    payload := AppendInts([], [PLANNER_MAGIC, PLANNER_VERSION, worlds, candidates, PLAN_WIDTH, |observations|]);
    payload := payload + request + producer;
    ghost var head := payload;
    WordsOfNothing(cells);
    for k := 0 to |cells|
      invariant payload == head + Words(Flatten(cells[..k]))
    {
      payload := AppendInts(payload, PlanInts(cells[k]));
      FlattenStep(cells, k);
      WordsAppend(Flatten(cells[..k]), PlanInts(cells[k]));
    }
    assert cells[..|cells|] == cells;
    payload := payload + observations;
  }

  lemma WordsOfNothing(cells: seq<PlanCell>)
    ensures Words(Flatten(cells[..0])) == []
  {
  }

  predicate AllStored(scratch: bytes, metadata: seq<PlanCell>, os: seq<Outcome>, done: set<int>) {
    |metadata| == |os| && forall i :: 0 <= i < |os| && i in done ==> Stored(scratch, metadata[i], os[i])
  }

  ghost predicate GridOk(os: seq<Outcome>, done: set<int>, metadata: seq<PlanCell>, scratch: bytes, engineSteps: nat,
                         caps: Caps) {
    && done <= Everything(|os|) && |metadata| == |os|
    && engineSteps == UsedBy(os, done) <= caps.maxEngineSteps
    && |scratch| == BytesBy(os, done) <= caps.maxObservationBytes
    && AllStored(scratch, metadata, os, done)
  }

  /** The next cell: what it adds to the costs, and that a cap it breaks is broken by the whole. */
  lemma GridExtends(os: seq<Outcome>, done: set<int>, metadata: seq<PlanCell>, scratch: bytes, engineSteps: nat,
                    caps: Caps, i: nat)
    requires GridOk(os, done, metadata, scratch, engineSteps, caps) && i < |os| && i !in done
    ensures UsedBy(os, done + {i}) == engineSteps + os[i].used <= TotalUsed(os)
    ensures BytesBy(os, done + {i}) == |scratch| + |os[i].root| + |os[i].leaf| <= TotalBytes(os)
    ensures done + {i} <= Everything(|os|)
  {
    hide UsedBy, BytesBy, Stored;
    CostOfOne(os, done, i);
    CostGrows(os, done + {i}, Everything(|os|));
  }

  lemma AllStoredStays(before: bytes, scratch: bytes, metadata: seq<PlanCell>, os: seq<Outcome>, done: set<int>, i: nat)
    requires |metadata| == |os| && before <= scratch && i < |os| && i !in done
    requires forall k :: 0 <= k < |os| && k in done ==> Stored(before, metadata[k], os[k])
    requires Stored(scratch, metadata[i], os[i])
    ensures AllStored(scratch, metadata, os, done + {i})
  {
    hide Stored;
    forall k | 0 <= k < |os| && k in done ensures Stored(scratch, metadata[k], os[k]) {
      StoredStays(before, scratch, metadata[k], os[k]);
    }
  }
}
