/** Every answer of a decision batch passes the client's validation. */
module ClientPlanner {
  import opened Common
  import opened Bytes
  import opened TransitionModel
  import opened ForcedPaths
  import opened SessionTransition
  import opened PlannerInput
  import opened SessionCalls
  import opened GridOrder
  import opened PlannerGridModel
  import opened PlannerGrid
  import opened PlannerAnswers
  import opened ClientCheck
  import opened ClientCalls

  /** What the planner validator demands besides: root slices contiguous in row order, leaf slices
      contiguous after all of them, together the whole blob, and a leaf slice exactly where the game
      goes on. */
  predicate PlanValid(rows: seq<seq<int>>, blob: nat, rootPlayer: int, forcedCap: int) {
    && (forall i :: 0 <= i < |rows| ==> RowValid(rows[i], rootPlayer, forcedCap))
    && (forall i :: 0 <= i < |rows| ==>
          && rows[i][12] >= 0 && rows[i][13] >= 0
          && rows[i][8] + rows[i][9] <= blob && rows[i][12] + rows[i][13] <= blob
          && rows[i][8] == ColumnSum(rows, 9, i)
          && rows[i][12] == ColumnSum(rows, 9, |rows|) + ColumnSum(rows, 13, i)
          && (rows[i][0] == 0 && rows[i][2] != 1 <==> rows[i][13] > 0))
    && ColumnSum(rows, 9, |rows|) + ColumnSum(rows, 13, |rows|) == blob
  }

  // ---------------------------------------------------------------- one row

  /** The cell with its slices somewhere in the blob. */
  function At(cell: PlanCell, offset: nat, leafOffset: nat): PlanCell {
    cell.(observationOffset := offset, leafObservationOffset := leafOffset)
  }

  lemma OutcomeIsValid(e: Engine, rootPlayer: int32, manualCoin: bool, maxForced: nat, root: SearchInfo, rng: Rng,
                       action: seq<int>, offset: nat, leafOffset: nat)
    requires Conforms(e) && 0 <= rootPlayer <= 1 && root.error >= 0
    ensures var o := CellOutcome(e, rootPlayer, manualCoin, maxForced, root, rng, action);
            var row := PlanInts(At(o.cell, offset, leafOffset));
      && RowValid(row, rootPlayer, maxForced) && row[9] == |o.root| && row[13] == |o.leaf|
      && (row[0] == 0 && row[2] != 1 <==> row[13] > 0)
  {
    hide Conforms, RowValid, Reaches, Settled, CellOutcome, StandsAt;
    var o := CellOutcome(e, rootPlayer, manualCoin, maxForced, root, rng, action);
    if o.cell.error == 0 {
      var leaf, n := ErrorFreeCell(e, rootPlayer, manualCoin, maxForced, root, rng, action);
      CellSays(e, rootPlayer, manualCoin, maxForced, root, rng, action, leaf, n);
      SuccessIsValid(e, rootPlayer, maxForced, root, leaf, n, o, offset, leafOffset);
    } else {
      FailureIsValid(e, rootPlayer, manualCoin, maxForced, root, rng, action, offset, leafOffset);
    }
  }

  lemma SuccessIsValid(e: Engine, rootPlayer: int32, maxForced: nat, root: SearchInfo, leaf: Slot, n: nat, o: Outcome,
                       offset: nat, leafOffset: nat)
    requires Conforms(e) && 0 <= rootPlayer <= 1 && root.state.Some? && n <= maxForced
    requires RowSays(e, rootPlayer, PlanInts(o.cell), leaf.state, n, |o.root|)
    requires PlanInts(o.cell)[LEAF_SIZE] == |o.leaf|
    requires o.root == e.observe(leaf.state, rootPlayer, e.prompt(root.state.value).logs)
    requires o.leaf == if e.prompt(leaf.state).finished then []
                       else e.observe(leaf.state, e.prompt(leaf.state).player, e.prompt(root.state.value).logs)
    ensures var row := PlanInts(At(o.cell, offset, leafOffset));
      && RowValid(row, rootPlayer, maxForced) && row[9] == |o.root| && row[13] == |o.leaf|
      && (row[0] == 0 && row[2] != 1 <==> row[13] > 0)
  {
    hide Conforms, RowValid;
    NeverEmpty(e, leaf.state, rootPlayer, e.prompt(root.state.value).logs);
    NeverEmpty(e, leaf.state, e.prompt(leaf.state).player, e.prompt(root.state.value).logs);
    TellingIsValid(e, rootPlayer, maxForced, PlanInts(At(o.cell, offset, leafOffset)), leaf.state, n, |o.root|);
  }

  lemma FailureIsValid(e: Engine, rootPlayer: int32, manualCoin: bool, maxForced: nat, root: SearchInfo, rng: Rng,
                       action: seq<int>, offset: nat, leafOffset: nat)
    requires Conforms(e) && 0 <= rootPlayer <= 1 && root.error >= 0
    requires CellOutcome(e, rootPlayer, manualCoin, maxForced, root, rng, action).cell.error != 0
    ensures var o := CellOutcome(e, rootPlayer, manualCoin, maxForced, root, rng, action);
            var row := PlanInts(At(o.cell, offset, leafOffset));
      && RowValid(row, rootPlayer, maxForced) && row[9] == |o.root| && row[13] == |o.leaf| == 0 && row[0] != 0
  {
    hide Conforms, Transition, EndpointFor;
    TransitionErrors(e, rootPlayer, manualCoin, maxForced, maxForced + 1, root, rng, action);
  }

  // ---------------------------------------------------------------- the whole answer

  /** The rows of an answer. */
  ghost function RowsOfPlan(p: Plan, n: nat): (rows: seq<seq<int>>)
    requires PLAN_WIDTH * n <= |p.rows|
    ensures |rows| == n && forall i :: 0 <= i < n ==> |rows[i]| == PLAN_WIDTH
  {
    seq(n, i requires 0 <= i < n => RowAt(p, i))
  }

  /** Where the slices of one row lie among the others. */
  predicate Joins(rows: seq<seq<int>>, mid: int, total: int, i: nat)
    requires i < |rows| && forall k :: 0 <= k < |rows| ==> |rows[k]| == 14
  {
    && rows[i][8] + rows[i][9] == (if i + 1 < |rows| then rows[i + 1][8] else mid)
    && rows[i][12] + rows[i][13] == (if i + 1 < |rows| then rows[i + 1][12] else total)
    && rows[i][8] + rows[i][9] <= total && rows[i][12] + rows[i][13] <= total
  }

  lemma {:induction false} SlicesAreSums(rows: seq<seq<int>>, mid: int, total: int, n: nat)
    requires n <= |rows| && rows != [] && forall k :: 0 <= k < |rows| ==> |rows[k]| == 14
    requires rows[0][8] == 0 && rows[0][12] == mid && forall i :: 0 <= i < |rows| ==> Joins(rows, mid, total, i)
    ensures ColumnSum(rows, 9, n) == if n < |rows| then rows[n][8] else mid
    ensures mid + ColumnSum(rows, 13, n) == if n < |rows| then rows[n][12] else total
  {
    if n > 0 {
      SlicesAreSums(rows, mid, total, n - 1);
      assert Joins(rows, mid, total, n - 1);
    }
  }

  /** Row i of an answer, and how it joins the next one. */
  lemma PlanRow(e: Engine, r: GridRequest, base: State, p: Plan, i: nat)
    requires Conforms(e) && PlanAnswers(e, r, base, p) && i < Cells(r)
    ensures PLAN_WIDTH * (i + 1) <= |p.rows|
    ensures RowValid(RowAt(p, i), r.rootPlayer, r.maxForcedSteps)
    ensures RowAt(p, i)[12] >= 0 && RowAt(p, i)[13] >= 0
    ensures RowAt(p, i)[0] == 0 && RowAt(p, i)[2] != 1 <==> RowAt(p, i)[13] > 0
  {
    hide Conforms, RowValid, Outcomes, BuffersOk, PlanInts, CellOutcome, StartWorld, HiddenLists, Candidate, PlanOf,
         RowAt, Concat;
    var world, candidate := WorldOf(r.worldCount, i), CandidateOf(r.worldCount, i);
    GridCellBack(r.worldCount, r.candidateCount, i);
    OutcomesAt(e, r, base, world, candidate);
    RowOfAnswer(e, r, base, p, i);
    StartedFine(e, base, r.rootPlayer, r.manualCoin != 0, HiddenLists(e, r, world), e.seeded(r.seed, world));
    var (root, rng) := RootOf(e, r, base, world);
    var c := PlacedCells(Outcomes(e, r, base))[i];
    OutcomeIsValid(e, r.rootPlayer, r.manualCoin != 0, r.maxForcedSteps, root, rng, Candidate(e, r, candidate),
                   c.observationOffset, c.leafObservationOffset);
  }

  lemma PlanJoins(e: Engine, r: GridRequest, base: State, p: Plan, i: nat)
    requires PlanAnswers(e, r, base, p) && i < Cells(r) && PLAN_WIDTH * Cells(r) <= |p.rows|
    ensures var rows := RowsOfPlan(p, Cells(r));
      && Joins(rows, |Concat(RootsOf(Outcomes(e, r, base)))|, |p.observations|, i)
      && rows[0][8] == 0 && rows[0][12] == |Concat(RootsOf(Outcomes(e, r, base)))|
  {
    hide Outcomes, BuffersOk, Observations, Flatten, Identity, F.Preimage, H.Digest, RowAt;
    var os := Outcomes(e, r, base);
    OutcomesSized(e, r, base);
    assert OutcomeSized(r, os[i]);
    PlacedRowsTile(os, i);
    RowOfAnswer(e, r, base, p, 0);
    RowOfAnswer(e, r, base, p, i);
    if i + 1 < Cells(r) {
      RowOfAnswer(e, r, base, p, i + 1);
    }
  }

  lemma PlanSize(e: Engine, r: GridRequest, base: State, p: Plan)
    requires PlanAnswers(e, r, base, p)
    ensures PLAN_WIDTH * Cells(r) <= |p.rows| && Cells(r) > 0
  {
    hide Outcomes, BuffersOk, Observations, Identity, F.Preimage, H.Digest;
    MulStrict(0, r.candidateCount, r.worldCount);
  }

  /** The client accepts every answer of the planner: each row is valid, the root observations lie end to
      end in row order, the leaf observations after them, and both together are the whole blob. */
  lemma PlanAnswerIsValid(e: Engine, r: GridRequest, base: State, p: Plan)
    requires Conforms(e) && PlanAnswers(e, r, base, p)
    ensures PLAN_WIDTH * Cells(r) <= |p.rows|
    ensures PlanValid(RowsOfPlan(p, Cells(r)), |p.observations|, r.rootPlayer, r.maxForcedSteps)
  {
    hide Conforms, RowValid, PlanAnswers, BuffersOk, RowAt, ColumnSum, Concat, Outcomes, Joins;
    RequestOf(e, r, base, p);
    PlanSize(e, r, base, p);
    var rows := RowsOfPlan(p, Cells(r));
    var mid, total := |Concat(RootsOf(Outcomes(e, r, base)))|, |p.observations|;
    forall i | 0 <= i < |rows|
      ensures RowValid(rows[i], r.rootPlayer, r.maxForcedSteps) && rows[i][12] >= 0 && rows[i][13] >= 0
      ensures rows[i][0] == 0 && rows[i][2] != 1 <==> rows[i][13] > 0
      ensures Joins(rows, mid, total, i) && rows[0][8] == 0 && rows[0][12] == mid
    {
      PlanRow(e, r, base, p, i);
      PlanJoins(e, r, base, p, i);
    }
    assert Joins(rows, mid, total, 0);
    forall i | 0 <= i < |rows|
      ensures rows[i][8] + rows[i][9] <= total && rows[i][12] + rows[i][13] <= total
      ensures rows[i][8] == ColumnSum(rows, 9, i) && rows[i][12] == mid + ColumnSum(rows, 13, i)
    {
      SlicesAreSums(rows, mid, total, i);
      JoinsInside(rows, mid, total, i);
    }
    SlicesAreSums(rows, mid, total, |rows|);
  }

  lemma JoinsInside(rows: seq<seq<int>>, mid: int, total: int, i: nat)
    requires i < |rows| && (forall k :: 0 <= k < |rows| ==> |rows[k]| == 14) && Joins(rows, mid, total, i)
    ensures rows[i][8] + rows[i][9] <= total && rows[i][12] + rows[i][13] <= total
  {
  }
}
