/** Opening a planning session, the answer every batch gives, and calls as runs of the arena. */
module SessionCalls {
  import opened Common
  import opened Bytes
  import opened TransitionModel
  import opened SessionModel
  import opened SessionTransition
  import opened SessionBatch
  import opened SessionFold
  import opened SessionPayload
  import opened PlannerInput
  import opened PlannerSession
  import opened GridOrder
  import opened Wire
  import F = RequestFingerprint
  import H = Sha256Spec

  const OPEN_KIND := 0
  const CONTINUE_KIND := 1

  predicate CapsOk(maxEngineSteps: int, maxForcedSteps: int, maxObservationBytes: int) {
    && 0 < maxEngineSteps <= MAXIMUM_ENGINE_STEPS_PER_CALL
    && 0 <= maxForcedSteps <= MAXIMUM_FORCED_STEPS
    && 0 < maxObservationBytes <= MAXIMUM_OBSERVATION_BYTES
  }

  predicate BuffersOk(counts: seq<int>, values: seq<int>, maximumItem: int) {
    InRange(counts, maximumItem) && Total(counts, |counts|) == |values| <= INT32_MAX
  }

  lemma BuffersAreRagged(counts: seq<int>, values: seq<int>, maximumItem: int)
    requires BuffersOk(counts, values, maximumItem)
    ensures RaggedOk(counts, values)
  {
  }

  // ---------------------------------------------------------------- open

  datatype OpenRequest = OpenRequest(
    producer: bytes, token: bytes, hiddenCounts: seq<int32>, hiddenValues: seq<int32>, worldCount: int32,
    candidateCounts: seq<int32>, candidateValues: seq<int32>, candidateCount: int32, rootPlayer: int32,
    manualCoin: int32, maxStateSlots: int32, maxEngineSteps: int32, maxForcedSteps: int32, maxObservationBytes: int32)

  predicate OpenShapeOk(r: OpenRequest) {
    && |r.producer| == FINGERPRINT_BYTES && 0 < |r.token| <= MAXIMUM_STATE_TOKEN_BYTES
    && 0 < r.worldCount <= MAXIMUM_CELLS_PER_CALL && 0 < r.candidateCount <= MAXIMUM_CELLS_PER_CALL
    && |r.hiddenCounts| == r.worldCount * HIDDEN_LIST_COUNT && |r.candidateCounts| == r.candidateCount
    && 0 <= r.rootPlayer <= 1 && (r.manualCoin == 0 || r.manualCoin == 1)
    && 0 < r.maxStateSlots <= MAXIMUM_STATE_SLOTS
    && CapsOk(r.maxEngineSteps, r.maxForcedSteps, r.maxObservationBytes)
  }

  predicate OpenGridFits(r: OpenRequest) {
    var cells := r.worldCount * r.candidateCount;
    cells <= MAXIMUM_CELLS_PER_CALL && cells <= r.maxStateSlots && cells <= r.maxEngineSteps
  }

  /** Everything the call checks before it touches the lane. */
  predicate OpenRequestOk(e: Engine, r: OpenRequest) {
    && OpenShapeOk(r) && OpenGridFits(r)
    && BuffersOk(r.hiddenCounts, r.hiddenValues, e.deckSize)
    && BuffersOk(r.candidateCounts, r.candidateValues, MAXIMUM_SELECT_COUNT)
  }

  function OpenCaps(r: OpenRequest): Caps
    requires OpenShapeOk(r)
  {
    Caps(r.maxEngineSteps, r.maxForcedSteps, r.maxObservationBytes)
  }

  function OpenCells(r: OpenRequest): nat
    requires OpenShapeOk(r)
  {
    r.candidateCount * r.worldCount
  }

  /** The root of a world and the lane's random stream after starting it; the transitions
      of earlier worlds leave no trace in it. */
  ghost function OpenRoot(e: Engine, r: OpenRequest, base: State, rng: Rng, world: nat): (SearchInfo, Rng)
    requires OpenRequestOk(e, r) && world < r.worldCount
  {
    BuffersAreRagged(r.hiddenCounts, r.hiddenValues, e.deckSize);
    var before := if world == 0 then rng else OpenRoot(e, r, base, rng, world - 1).1;
    StartWorld(e, base, r.rootPlayer, r.manualCoin != 0, WorldLists(r.hiddenCounts, r.hiddenValues, world), before)
  }

  ghost function OpenJob(e: Engine, r: OpenRequest, base: State, rng: Rng, world: nat, candidate: nat): Job
    requires OpenRequestOk(e, r) && world < r.worldCount && candidate < r.candidateCount
  {
    BuffersAreRagged(r.candidateCounts, r.candidateValues, MAXIMUM_SELECT_COUNT);
    var (root, rootRng) := OpenRoot(e, r, base, rng, world);
    Job(root, rootRng, Item(r.candidateCounts, r.candidateValues, candidate))
  }

  /** What every row of the grid executes, candidate-major. */
  ghost function OpenJobs(e: Engine, r: OpenRequest, base: State, rng: Rng): (jobs: seq<Job>)
    requires OpenRequestOk(e, r)
    ensures |jobs| == OpenCells(r)
  {
    seq(OpenCells(r), i requires 0 <= i < OpenCells(r) =>
      (GridCellBack(r.worldCount, r.candidateCount, i);
       OpenJob(e, r, base, rng, WorldOf(r.worldCount, i), CandidateOf(r.worldCount, i))))
  }

  lemma OpenJobAt(e: Engine, r: OpenRequest, base: State, rng: Rng, world: nat, candidate: nat)
    requires OpenRequestOk(e, r) && world < r.worldCount && candidate < r.candidateCount
    ensures GridCell(r.worldCount, candidate, world) < OpenCells(r)
    ensures OpenJobs(e, r, base, rng)[GridCell(r.worldCount, candidate, world)]
        == OpenJob(e, r, base, rng, world, candidate)
  {
    GridCellAt(r.worldCount, r.candidateCount, candidate, world);
  }

  /** The request as the fingerprint sees it. */
  function OpenIdentity(r: OpenRequest): F.Request {
    F.Open(r.token, r.hiddenCounts, r.hiddenValues, r.worldCount, r.candidateCounts, r.candidateValues,
           r.candidateCount,
           r.rootPlayer, r.manualCoin != 0, r.maxStateSlots,
               F.Caps(r.maxEngineSteps, r.maxForcedSteps, r.maxObservationBytes))
  }

  lemma OpenHashable(e: Engine, r: OpenRequest)
    requires OpenRequestOk(e, r)
    ensures F.RequestOk(OpenIdentity(r))
  {
    assert |r.hiddenCounts| <= MAXIMUM_CELLS_PER_CALL * HIDDEN_LIST_COUNT;
  }

  /** The grid of an opening, up to a candidate of a world: rows in world-major order. */
  ghost function OpenBatch(e: Engine, r: OpenRequest, before: Lane, base: State, rng: Rng, world: nat,
                           candidate: nat): Batch
    requires OpenRequestOk(e, r) && world <= r.worldCount && candidate <= r.candidateCount
    requires world == r.worldCount ==> candidate == 0
  {
    WorldMajorOk(r.worldCount, r.candidateCount, world, candidate);
    Fold(e, OpenCaps(r), OpenJobs(e, r, base, rng), before,
         WorldMajor(r.worldCount, r.candidateCount, world, candidate))
  }

  lemma OpenBatchOk(e: Engine, r: OpenRequest, before: Lane, base: State, rng: Rng, world: nat, candidate: nat)
    requires OpenRequestOk(e, r) && world <= r.worldCount && candidate <= r.candidateCount
    requires world == r.worldCount ==> candidate == 0
    requires Valid(before) && before.active != 0 && before.slots == [] && before.maxSlots == r.maxStateSlots
    ensures BatchOk(e, before, OpenCaps(r), OpenJobs(e, r, base, rng),
                    OpenBatch(e, r, before, base, rng, world, candidate),
                    Filled(r.worldCount, r.candidateCount, world, candidate))
  {
    hide BatchOk, OpenJobs, Fold, BuffersOk, Live, Filled;
    WorldMajorOk(r.worldCount, r.candidateCount, world, candidate);
    FoldOk(e, before, OpenCaps(r), OpenJobs(e, r, base, rng),
           WorldMajor(r.worldCount, r.candidateCount, world, candidate));
  }

  /** One turn of the inner loop. */
  lemma OpenBatchStep(e: Engine, r: OpenRequest, before: Lane, base: State, rng: Rng, world: nat, candidate: nat)
    requires OpenRequestOk(e, r) && world < r.worldCount && candidate < r.candidateCount
    ensures var b := OpenBatch(e, r, before, base, rng, world, candidate);
            var i := GridCell(r.worldCount, candidate, world);
            var job := OpenJob(e, r, base, rng, world, candidate);
      && i < |b.rows| == |b.marks|
      && OpenBatch(e, r, before, base, rng, world, candidate + 1)
           == Next(b, i, Execute(e, b.lane, job, OpenCaps(r), b.steps, b.scratch))
  {
    hide OpenJobs, Fold, BuffersOk, Execute, OpenJob, GridCell, Filled;
    WorldMajorOk(r.worldCount, r.candidateCount, world, candidate);
    OpenJobAt(e, r, base, rng, world, candidate);
    FoldAppend(e, OpenCaps(r), OpenJobs(e, r, base, rng), before,
               WorldMajor(r.worldCount, r.candidateCount, world, candidate),
               GridCell(r.worldCount, candidate, world));
  }

  /** The engine throws somewhere in the grid. */
  ghost predicate OpenThrows(e: Engine, r: OpenRequest, before: Lane, base: State, rng: Rng, throws: Throw)
    requires OpenRequestOk(e, r)
  {
    && !throws.Never? && throws.row < OpenCells(r)
    && (GridCellBack(r.worldCount, r.candidateCount, throws.row);
        var world, candidate := WorldOf(r.worldCount, throws.row), CandidateOf(r.worldCount, throws.row);
        ThrowsIn(e, OpenCaps(r), OpenBatch(e, r, before, base, rng, world, candidate),
                 OpenJob(e, r, base, rng, world, candidate), throws.row, throws))
  }

  /** What that says at a cell of the loop. */
  lemma OpenThrowsAt(e: Engine, r: OpenRequest, before: Lane, base: State, rng: Rng, throws: Throw, world: nat,
                     candidate: nat)
    requires OpenRequestOk(e, r) && world < r.worldCount && candidate < r.candidateCount
    ensures var cell := GridCell(r.worldCount, candidate, world);
      (ThrowsIn(e, OpenCaps(r), OpenBatch(e, r, before, base, rng, world, candidate),
                OpenJob(e, r, base, rng, world, candidate), cell, throws) <==>
         OpenThrows(e, r, before, base, rng, throws) && throws.row == cell)
  {
    hide OpenBatch, OpenJob, Observes, BuffersOk;
    GridCellAt(r.worldCount, r.candidateCount, candidate, world);
  }

  /** The arena has a slot for the cells done and for the next one. */
  lemma OpenRoom(e: Engine, r: OpenRequest, before: Lane, world: nat, candidate: nat)
    requires OpenRequestOk(e, r) && world < r.worldCount && candidate < r.candidateCount
    requires Valid(before) && before.active != 0 && before.slots == [] && before.maxSlots == r.maxStateSlots
    ensures var order := WorldMajor(r.worldCount, r.candidateCount, world, candidate);
      && OrderOk(order, OpenCells(r)) && Roomy(before, order) && |before.slots| + |order| < before.maxSlots
  {
    hide BuffersOk, Live, Filled, GridCell, RowsOf, WorldMajor;
    WorldMajorOk(r.worldCount, r.candidateCount, world, candidate);
    FillCell(r.worldCount, r.candidateCount, world, candidate);
    var order := WorldMajor(r.worldCount, r.candidateCount, world, candidate);
    var cell := GridCell(r.worldCount, candidate, world);
    OrderGrows(order, cell, OpenCells(r));
    OrderFits(order + [cell], OpenCells(r));
  }

  /** The lane where the loop stops at a throwing cell. */
  lemma OpenThrowGrows(e: Engine, r: OpenRequest, before: Lane, base: State, rng: Rng, throws: Throw, world: nat,
                       candidate: nat)
    requires OpenRequestOk(e, r) && world < r.worldCount && candidate < r.candidateCount
    requires Valid(before) && before.active != 0 && before.slots == [] && before.maxSlots == r.maxStateSlots
    requires ThrowsIn(e, OpenCaps(r), OpenBatch(e, r, before, base, rng, world, candidate),
                      OpenJob(e, r, base, rng, world, candidate), GridCell(r.worldCount, candidate, world), throws)
    ensures var after := LaneAtThrow(e, OpenCaps(r), OpenBatch(e, r, before, base, rng, world, candidate),
                                     OpenJob(e, r, base, rng, world, candidate),
                                         GridCell(r.worldCount, candidate, world), throws);
      Valid(after) && GrownFrom(before, after)
  {
    hide OpenJob, OpenJobs, Fold, ThrowsIn, LaneAtThrow, BuffersOk, Valid, GrownFrom, GridCell, RowsOf, KeptRows,
         TookSlots, LeavesOne, WorldMajor, OrderOk, Roomy;
    OpenJobAt(e, r, base, rng, world, candidate);
    OpenRoom(e, r, before, world, candidate);
    var order := WorldMajor(r.worldCount, r.candidateCount, world, candidate);
    var cell := GridCell(r.worldCount, candidate, world);
    ThrowLeaves(e, OpenCaps(r), OpenJobs(e, r, base, rng), before, order, cell, throws);
  }

  /** One row of a call: the transition, and its metadata stored. */
  method FillRow(lane: SessionLane, e: Engine, root: SearchInfo, rng: Rng, action: seq<int>, caps: Caps, steps: nat,
                 observations: bytes, table: seq<CellMetadata>, cell: nat, throws: Throw, ghost b: Batch)
    returns (thrown: bool, rows: seq<CellMetadata>, scratch: bytes, engineSteps: nat)
    requires Shows(b, lane.View(), steps, observations, table) && cell < |b.rows| == |b.marks|
    modifies lane, lane.game
    ensures lane.game.rng == old(lane.game.rng)
    ensures thrown <==> ThrowsIn(e, caps, b, Job(root, rng, action), cell, throws)
    ensures thrown ==> lane.View() == LaneAtThrow(e, caps, b, Job(root, rng, action), cell, throws)
    ensures !thrown ==>
      Shows(Next(b, cell, Execute(e, b.lane, Job(root, rng, action), caps, b.steps, b.scratch)),
            lane.View(), engineSteps, scratch, rows)
  {
    hide Observes, Interrupted, Execute;
    thrown, rows, scratch, engineSteps := true, table, observations, steps;
    if throws != Stepping(cell) {
      var metadata: CellMetadata;
      thrown, engineSteps, scratch, metadata :=
        lane.ExecuteTransition(e, root, rng, action, caps, steps, observations, throws == Observing(cell));
      rows := rows[cell := metadata];
    }
  }

  /** No exception in the cells before this one. */
  ghost predicate Unthrown(e: Engine, r: OpenRequest, before: Lane, base: State, rng: Rng, throws: Throw, world: nat,
                           candidate: nat)
    requires OpenRequestOk(e, r)
  {
    OpenThrows(e, r, before, base, rng, throws) ==>
      throws.row !in Filled(r.worldCount, r.candidateCount, world, candidate)
  }

  /** Everything the inner loop needs to know of one cell. */
  lemma OpenTurn(e: Engine, r: OpenRequest, before: Lane, base: State, rng: Rng, throws: Throw, world: nat,
                 candidate: nat)
    requires OpenRequestOk(e, r) && world < r.worldCount && candidate < r.candidateCount
    requires Valid(before) && before.active != 0 && before.slots == [] && before.maxSlots == r.maxStateSlots
    requires Unthrown(e, r, before, base, rng, throws, world, candidate)
    ensures var b, job := OpenBatch(e, r, before, base, rng, world, candidate), OpenJob(e, r, base, rng, world,
          candidate);
            var cell := GridCell(r.worldCount, candidate, world);
      && cell < |b.rows| == |b.marks|
      && OpenBatch(e, r, before, base, rng, world, candidate + 1)
           == Next(b, cell, Execute(e, b.lane, job, OpenCaps(r), b.steps, b.scratch))
      && (if ThrowsIn(e, OpenCaps(r), b, job, cell, throws) then
            var after := LaneAtThrow(e, OpenCaps(r), b, job, cell, throws);
            OpenThrows(e, r, before, base, rng, throws) && Valid(after) && GrownFrom(before, after)
          else Unthrown(e, r, before, base, rng, throws, world, candidate + 1))
  {
    hide OpenThrows, ThrowsIn, LaneAtThrow, OpenBatch, OpenJob, BuffersOk, Filled, GridCell, Live, GrownFrom, Execute;
    FillCell(r.worldCount, r.candidateCount, world, candidate);
    OpenBatchStep(e, r, before, base, rng, world, candidate);
    OpenThrowsAt(e, r, before, base, rng, throws, world, candidate);
    if ThrowsIn(e, OpenCaps(r), OpenBatch(e, r, before, base, rng, world, candidate),
                OpenJob(e, r, base, rng, world, candidate),
                GridCell(r.worldCount, candidate, world), throws) {
      OpenThrowGrows(e, r, before, base, rng, throws, world, candidate);
    }
  }

  /** The two loops compute the fold over the rows in world-major order, unless the engine throws. */
  method OpenGrid(lane: SessionLane, e: Engine, r: OpenRequest, base: State, throws: Throw)
    returns (thrown: bool, rows: seq<CellMetadata>, scratch: bytes, engineSteps: nat)
    requires OpenRequestOk(e, r)
    requires Valid(lane.View()) && lane.activeGeneration != 0 && lane.slots == []
    requires lane.rootPlayer == r.rootPlayer && lane.maxStateSlots == r.maxStateSlots
    modifies lane, lane.game
    ensures thrown <==> OpenThrows(e, r, old(lane.View()), base, old(lane.game.rng), throws)
    ensures Valid(lane.View()) && GrownFrom(old(lane.View()), lane.View())
    ensures !thrown ==>
      && Shows(OpenBatch(e, r, old(lane.View()), base, old(lane.game.rng), r.worldCount, 0),
               lane.View(), engineSteps, scratch, rows)
      && BatchOk(e, old(lane.View()), OpenCaps(r), OpenJobs(e, r, base, old(lane.game.rng)),
                 OpenBatch(e, r, old(lane.View()), base, old(lane.game.rng), r.worldCount, 0), Everything(OpenCells(r)))
  {
    hide BatchOk, Valid, GrownFrom, StartWorld, BuffersOk, OpenJobs, OpenJob, Execute, Filled, GridCell, Everything,
         Fold, OpenBatch;
    hide OpenThrows, ThrowsIn, LaneAtThrow, Unthrown, OpenRoot, Item, WorldLists, InRange;
    var worlds, candidates, caps := r.worldCount, r.candidateCount, OpenCaps(r);
    ghost var before, rng := lane.View(), lane.game.rng;
    BuffersAreRagged(r.hiddenCounts, r.hiddenValues, e.deckSize);
    BuffersAreRagged(r.candidateCounts, r.candidateValues, MAXIMUM_SELECT_COUNT);
    var actions := ReadActions(r.candidateCounts, r.candidateValues);
    thrown, rows, scratch, engineSteps := false, seq(OpenCells(r), i => FRESH_CELL), [], 0;
    OpenBatchStarts(e, r, before, base, rng, throws);
    var hiddenOffset := 0;
    for world := 0 to worlds
      invariant hiddenOffset == Total(r.hiddenCounts, HIDDEN_LIST_COUNT * world)
      invariant lane.game.rng == if world == 0 then rng else OpenRoot(e, r, base, rng, world - 1).1
      invariant Shows(OpenBatch(e, r, before, base, rng, world, 0), lane.View(), engineSteps, scratch, rows)
      invariant Unthrown(e, r, before, base, rng, throws, world, 0)
    {
      OpenRootIs(e, r, base, rng, world);
      var root, after, next := StartRoot(e, base, r.rootPlayer, r.manualCoin != 0, r.hiddenCounts, r.hiddenValues,
                                         world, hiddenOffset, lane.game.rng);
      hiddenOffset := next;
      lane.game.rng := after;
      for candidate := 0 to candidates
        invariant lane.game.rng == after
        invariant Shows(OpenBatch(e, r, before, base, rng, world, candidate), lane.View(), engineSteps, scratch, rows)
        invariant Unthrown(e, r, before, base, rng, throws, world, candidate)
      {
        OpenTurn(e, r, before, base, rng, throws, world, candidate);
        OpenJobIs(e, r, base, rng, world, candidate);
        thrown, rows, scratch, engineSteps :=
          FillRow(lane, e, root, after, actions[candidate], caps, engineSteps, scratch, rows,
                  GridCell(worlds, candidate, world),
                  throws, OpenBatch(e, r, before, base, rng, world, candidate));
        if thrown {
          return;
        }
      }
      OpenBatchTurns(e, r, before, base, rng, throws, world);
    }
    OpenBatchEnds(e, r, before, base, rng, throws);
  }

  lemma OpenRootIs(e: Engine, r: OpenRequest, base: State, rng: Rng, world: nat)
    requires OpenRequestOk(e, r) && world < r.worldCount && RaggedOk(r.hiddenCounts, r.hiddenValues)
    ensures OpenRoot(e, r, base, rng, world)
      == StartWorld(e, base, r.rootPlayer, r.manualCoin != 0, WorldLists(r.hiddenCounts, r.hiddenValues, world),
                    if world == 0 then rng else OpenRoot(e, r, base, rng, world - 1).1)
  {
    hide StartWorld, BuffersOk, WorldLists;
  }

  lemma OpenBatchEnds(e: Engine, r: OpenRequest, before: Lane, base: State, rng: Rng, throws: Throw)
    requires OpenRequestOk(e, r)
    requires Valid(before) && before.active != 0 && before.slots == [] && before.maxSlots == r.maxStateSlots
    requires Unthrown(e, r, before, base, rng, throws, r.worldCount, 0)
    ensures var b := OpenBatch(e, r, before, base, rng, r.worldCount, 0);
      && !OpenThrows(e, r, before, base, rng, throws) && Valid(b.lane) && GrownFrom(before, b.lane)
      && BatchOk(e, before, OpenCaps(r), OpenJobs(e, r, base, rng), b, Everything(OpenCells(r)))
  {
    hide OpenJobs, OpenBatch, ThrowsIn, BuffersOk, BatchOk, Live, GrownFrom, Filled;
    OpenBatchGrown(e, r, before, base, rng, r.worldCount, 0);
    FillWorld(r.worldCount, r.candidateCount, 0);
  }

  lemma OpenBatchStarts(e: Engine, r: OpenRequest, before: Lane, base: State, rng: Rng, throws: Throw)
    requires OpenRequestOk(e, r)
    ensures Shows(OpenBatch(e, r, before, base, rng, 0, 0), before, 0, [], seq(OpenCells(r), i => FRESH_CELL))
    ensures Unthrown(e, r, before, base, rng, throws, 0, 0)
  {
    hide OpenJobs, OpenThrows, BuffersOk, Filled;
    FillWorld(r.worldCount, r.candidateCount, 0);
  }

  lemma OpenBatchTurns(e: Engine, r: OpenRequest, before: Lane, base: State, rng: Rng, throws: Throw, world: nat)
    requires OpenRequestOk(e, r) && world < r.worldCount
    requires Unthrown(e, r, before, base, rng, throws, world, r.candidateCount)
    ensures Unthrown(e, r, before, base, rng, throws, world + 1, 0)
    ensures OpenBatch(e, r, before, base, rng, world, r.candidateCount)
        == OpenBatch(e, r, before, base, rng, world + 1, 0)
  {
    hide OpenJobs, OpenThrows, BuffersOk, Fold, Filled;
    FillWorld(r.worldCount, r.candidateCount, world);
  }

  lemma OpenBatchGrown(e: Engine, r: OpenRequest, before: Lane, base: State, rng: Rng, world: nat, candidate: nat)
    requires OpenRequestOk(e, r) && world <= r.worldCount && candidate <= r.candidateCount
    requires world == r.worldCount ==> candidate == 0
    requires Valid(before) && before.active != 0 && before.slots == [] && before.maxSlots == r.maxStateSlots
    ensures var b := OpenBatch(e, r, before, base, rng, world, candidate);
      && Valid(b.lane) && GrownFrom(before, b.lane)
      && BatchOk(e, before, OpenCaps(r), OpenJobs(e, r, base, rng), b,
                 Filled(r.worldCount, r.candidateCount, world, candidate))
  {
    hide OpenJobs, OpenBatch, BuffersOk, Honest, Live, GrownFrom, OwnHandles, Filled;
    OpenBatchOk(e, r, before, base, rng, world, candidate);
  }

  lemma OpenJobIs(e: Engine, r: OpenRequest, base: State, rng: Rng, world: nat, candidate: nat)
    requires OpenRequestOk(e, r) && world < r.worldCount && candidate < r.candidateCount
    requires RaggedOk(r.candidateCounts, r.candidateValues)
    ensures var (root, rootRng) := OpenRoot(e, r, base, rng, world);
      OpenJob(e, r, base, rng, world, candidate)
          == Job(root, rootRng, Item(r.candidateCounts, r.candidateValues, candidate))
  {
    hide OpenRoot, BuffersOk, Item;
  }

  // ---------------------------------------------------------------- the answer of a batch

  lemma {:induction false} StartIsObserved(rows: seq<CellMetadata>)
    ensures Start(SlicesOf(rows), |rows|) == Observed(rows)
  {
    if rows != [] {
      var n := |rows| - 1;
      StartIsObserved(rows[..n]);
      assert SlicesOf(rows)[..n] == SlicesOf(rows[..n]);
      StartOfPrefix(SlicesOf(rows), n, n);
    }
  }

  lemma {:induction false} StartMonotone(ss: seq<Slice>, i: nat, j: nat)
    requires i <= j <= |ss|
    ensures Start(ss, i) <= Start(ss, j)
  {
    if i < j {
      StartMonotone(ss, i, j - 1);
    }
  }

  predicate ServesOk(caps: Caps) {
    caps.maxForcedSteps <= MAXIMUM_FORCED_STEPS && caps.maxObservationBytes <= MAXIMUM_OBSERVATION_BYTES
  }

  ghost predicate RowServes(caps: Caps, scratch: bytes, l: Lane, cell: CellMetadata) {
    && Sized(caps, scratch, cell)
    && (Holds(cell) ==> cell.sessionGeneration == l.active && cell.stateSlot < |l.slots|)
  }

  lemma HonestServes(e: Engine, l: Lane, caps: Caps, scratch: bytes, mark: Mark, job: Job, cell: CellMetadata)
    requires Honest(e, l, caps, scratch, mark, job, cell)
    ensures RowServes(caps, scratch, l, cell)
  {
    hide Consequence, FreeOf, DecidedError, CountsSteps, Sized;
  }

  lemma RowsServe(e: Engine, before: Lane, caps: Caps, jobs: seq<Job>, b: Batch)
    requires BatchOk(e, before, caps, jobs, b, Everything(|jobs|))
    ensures |b.rows| == |jobs| && forall i :: 0 <= i < |jobs| ==> RowServes(caps, b.scratch, b.lane, b.rows[i])
  {
    hide Everything, Honest, ArenaGrew, RowServes, Accounted, Observed;
    forall i | 0 <= i < |jobs| ensures RowServes(caps, b.scratch, b.lane, b.rows[i]) {
      assert i in Everything(|jobs|);
      HonestServes(e, b.lane, caps, b.scratch, b.marks[i], jobs[i], b.rows[i]);
    }
  }

  lemma RowRebases(caps: Caps, b: Batch, i: nat)
    requires ServesOk(caps) && i < |b.rows| && RowServes(caps, b.scratch, b.lane, b.rows[i])
    requires 0 <= b.lane.active <= INT32_MAX && |b.lane.slots| <= INT32_MAX
    requires Observed(b.rows) == |b.scratch| <= caps.maxObservationBytes
    ensures RowFits(Rebase(b.rows)[i])
  {
    hide Start, Observed, Valid;
    StartIsObserved(b.rows);
    StartMonotone(SlicesOf(b.rows), i, |b.rows|);
  }

  /** The slices of a finished batch are sound, so building its payload cannot fail, and the
      blob carries every observation byte once. */
  lemma BatchServes(e: Engine, before: Lane, caps: Caps, jobs: seq<Job>, b: Batch, kind: int, generation: int,
                    request: bytes, producer: bytes)
    requires BatchOk(e, before, caps, jobs, b, Everything(|jobs|)) && ServesOk(caps) && |jobs| <= INT32_MAX
    requires Fits(kind) && Fits(generation) && |request| == FINGERPRINT_BYTES && |producer| == FINGERPRINT_BYTES
    ensures SlicesOk(b.scratch, SlicesOf(b.rows))
    ensures PayloadFits(RebasedPayload(kind, generation, request, producer, b.rows, b.scratch))
    ensures |Gather(b.scratch, SlicesOf(b.rows))| == |b.scratch|
  {
    hide Everything, ArenaGrew, Gather, Start, Accounted, Observed, Honest, Rebase, RowFits;
    RowsServe(e, before, caps, jobs, b);
    assert forall i :: 0 <= i < |b.rows| ==> RowServes(caps, b.scratch, b.lane, b.rows[i]);
    GatherLength(b.scratch, SlicesOf(b.rows));
    StartIsObserved(b.rows);
    LaneFits(before, b, |Everything(|jobs|)|);
    forall i | 0 <= i < |b.rows| ensures RowFits(Rebase(b.rows)[i]) {
      RowRebases(caps, b, i);
    }
  }

  lemma LaneFits(before: Lane, b: Batch, cells: nat)
    requires ArenaGrew(before, b.lane, b.rows, cells)
    ensures 0 <= b.lane.active <= INT32_MAX && |b.lane.slots| <= INT32_MAX
  {
  }

  /** Where an open leaves the lane before its grid runs. */
  function Begun(l: Lane, r: OpenRequest): Lane
    requires OpenShapeOk(r)
  {
    Step(l, Begin(r.rootPlayer, r.manualCoin != 0, r.maxStateSlots, r.producer))
  }

  /** Opening either refuses and changes nothing, or runs the grid under a generation never
      used before, or fails by an exception and leaves the lane idle.  The answer decodes to
      the fingerprint of the request and the rows of the grid, rebased. */
  method OpenSession(lane: SessionLane, e: Engine, r: OpenRequest, throws: Throw)
    returns (error: int, payload: bytes)
    requires Valid(lane.View())
    modifies lane, lane.game
    ensures error in {0, INVALID_INPUT, EXCEPTION} && Moves(old(lane.View()), lane.View())
    ensures error == INVALID_INPUT <==>
      !OpenRequestOk(e, r) || old(lane.activeGeneration) != 0 || e.load(r.token, r.rootPlayer).None?
          || old(lane.lastGeneration) == INT32_MAX
    ensures error == INVALID_INPUT ==> lane.View() == old(lane.View())
    ensures error == EXCEPTION ==> lane.View() == IDLE.(last := old(lane.lastGeneration) + 1)
    ensures error != INVALID_INPUT ==>
      (error == EXCEPTION <==>
         OpenThrows(e, r, Begun(old(lane.View()), r), e.load(r.token, r.rootPlayer).value, old(lane.game.rng), throws))
    ensures error == 0 ==>
      var base, rng := e.load(r.token, r.rootPlayer).value, old(lane.game.rng);
      var b := OpenBatch(e, r, Begun(old(lane.View()), r), base, rng, r.worldCount, 0);
      && lane.View() == b.lane && lane.activeGeneration == old(lane.lastGeneration) + 1
      && BatchOk(e, Begun(old(lane.View()), r), OpenCaps(r), OpenJobs(e, r, base, rng), b, Everything(OpenCells(r)))
      && SlicesOk(b.scratch, SlicesOf(b.rows)) && F.RequestOk(OpenIdentity(r))
      && Decode(payload) == Some(RebasedPayload(OPEN_KIND, lane.activeGeneration, H.Digest(F.Preimage(OpenIdentity(r))),
                                                r.producer, b.rows, b.scratch))
  {
    hide BatchOk, OpenJobs, OpenBatch, Live, Encode, Decode, PayloadFits, Everything, SlicesOf, SlicesOk, BuffersOk,
         Run;
    hide OpenThrows, OpenIdentity, F.Preimage, H.Digest;
    payload := [];
    MovesNot(lane.View());
    if !OpenShapeOk(r) || !OpenGridFits(r) {
      return INVALID_INPUT, payload;
    }
    var hiddenTotal := CheckedSum(r.hiddenCounts, e.deckSize);
    var candidateTotal := CheckedSum(r.candidateCounts, MAXIMUM_SELECT_COUNT);
    BuffersMeanSums(r.hiddenCounts, r.hiddenValues, e.deckSize, hiddenTotal);
    BuffersMeanSums(r.candidateCounts, r.candidateValues, MAXIMUM_SELECT_COUNT, candidateTotal);
    if hiddenTotal != Some(|r.hiddenValues|) || candidateTotal != Some(|r.candidateValues|) {
      return INVALID_INPUT, payload;
    }
    OpenHashable(e, r);
    var fingerprint := F.Fingerprint(OpenIdentity(r));
    if lane.activeGeneration != 0 {
      return INVALID_INPUT, payload;
    }
    var base := e.load(r.token, r.rootPlayer);
    if base.None? {
      return INVALID_INPUT, payload;
    }
    ghost var begin := Begin(r.rootPlayer, r.manualCoin != 0, r.maxStateSlots, r.producer);
    var generation := lane.BeginSession(r.rootPlayer, r.manualCoin != 0, r.maxStateSlots, r.producer);
    if generation <= 0 {
      return INVALID_INPUT, payload;
    }
    StepValid(old(lane.View()), begin);
    ghost var begun := lane.View();
    var thrown, rows, scratch, engineSteps := OpenGrid(lane, e, r, base.value, throws);
    MovesOn(old(lane.View()), begin, begun, lane.View());
    BatchSession(begun, lane.View());
    if thrown {
      MovesOneMore(old(lane.View()), lane.View(), Op.Reset);
      lane.ResetActiveSession();
      return EXCEPTION, payload;
    }
    ghost var b := OpenBatch(e, r, begun, base.value, old(lane.game.rng), r.worldCount, 0);
    BatchServes(e, begun, OpenCaps(r), OpenJobs(e, r, base.value, old(lane.game.rng)), b, OPEN_KIND, generation,
                fingerprint, r.producer);
    PayloadRoundTrip(RebasedPayload(OPEN_KIND, generation, fingerprint, r.producer, rows, scratch));
    var built := BuildPayload(OPEN_KIND, generation, fingerprint, r.producer, rows, scratch, None);
    return 0, built.value;
  }

  lemma BuffersMeanSums(counts: seq<int>, values: seq<int>, maximumItem: int, total: Option<int>)
    requires total.Some? <==> InRange(counts, maximumItem) && Total(counts, |counts|) <= INT32_MAX
    requires total.Some? ==> total.value == Total(counts, |counts|)
    ensures total == Some(|values|) <==> BuffersOk(counts, values, maximumItem)
  {
  }

  // ---------------------------------------------------------------- calls as runs of the arena

  /** One lane state leads to another by steps of the arena. */
  ghost predicate Moves(a: Lane, b: Lane) {
    exists ops :: b == Run(a, ops)
  }

  lemma MovesNot(a: Lane)
    ensures Moves(a, a)
  {
    assert a == Run(a, []);
  }

  lemma MovesOneMore(a: Lane, b: Lane, op: Op)
    requires Moves(a, b)
    ensures Moves(a, Step(b, op))
  {
    var ops :| b == Run(a, ops);
    assert (ops + [op])[..|ops|] == ops;
    assert Step(b, op) == Run(a, ops + [op]);
  }

  lemma MovesOn(a: Lane, op: Op, b: Lane, c: Lane)
    requires b == Step(a, op) && GrownFrom(b, c)
    ensures Moves(a, c)
  {
    var ops :| c == Run(b, ops) && KeepsHandles(ops, b);
    RunOfAtMostTwo(a, op, op);
    RunAppend(a, [op], ops);
  }

  lemma {:induction false} SessionStays(a: Lane, ops: seq<Op>)
    requires a.active != 0 && Op.Reset !in ops
    ensures SameSession(a, Run(a, ops))
  {
    if ops != [] {
      SessionStays(a, ops[..|ops| - 1]);
    }
  }

  lemma BatchSession(a: Lane, b: Lane)
    requires GrownFrom(a, b) && a.active != 0
    ensures SameSession(a, b)
  {
    hide Run;
    var ops :| b == Run(a, ops) && KeepsHandles(ops, a);
    SessionStays(a, ops);
  }
}
