/** What a caller reads in the answers of two decision batches: wherever both grids hold the same
    candidate in the same world, the two rows say the same. */
module PlannerAnswers {
  import opened Common
  import opened Bytes
  import opened TransitionModel
  import opened PlannerInput
  import opened SessionCalls
  import opened GridOrder
  import opened PlannerGridModel
  import opened PlannerGrid
  import opened ForcedPaths

  // Positions of the slice fields in a row.
  const OFFSET := 8
  const SIZE := 9
  const LEAF_OFFSET := 12
  const LEAF_SIZE := 13

  function RowAt(p: Plan, i: nat): (row: seq<int>)
    requires PLAN_WIDTH * (i + 1) <= |p.rows|
    ensures |row| == PLAN_WIDTH
  {
    p.rows[PLAN_WIDTH * i..PLAN_WIDTH * (i + 1)]
  }

  /** A slice of the blob, or nothing where the answer names no such slice. */
  function SliceAt(p: Plan, offset: int, size: int): Option<bytes> {
    if 0 <= offset && 0 <= size && offset + size <= |p.observations| then Some(p.observations[offset..offset + size])
    else None
  }

  /** What a successful decision batch promises of the plan its payload decodes to. */
  ghost predicate PlanAnswers(e: Engine, r: GridRequest, base: State, p: Plan) {
    GridRequestOk(e, r) && p == PlanOf(r, H.Digest(F.Preimage(Identity(r))), Outcomes(e, r, base))
  }

  /** Row i of an answer: the fourteen fields of its outcome, placed, and both observations. */
  lemma RowOfAnswer(e: Engine, r: GridRequest, base: State, p: Plan, i: nat)
    requires PlanAnswers(e, r, base, p) && i < Cells(r)
    ensures var os := Outcomes(e, r, base);
      && PLAN_WIDTH * (i + 1) <= |p.rows|
      && RowAt(p, i) == PlanInts(PlacedCells(os)[i])
      && SliceAt(p, RowAt(p, i)[OFFSET], RowAt(p, i)[SIZE]) == Some(os[i].root)
      && SliceAt(p, RowAt(p, i)[LEAF_OFFSET], RowAt(p, i)[LEAF_SIZE]) == Some(os[i].leaf)
  {
    hide Outcomes, Observations, Flatten, Identity, F.Preimage, H.Digest, BuffersOk, PlacedCells;
    var os := Outcomes(e, r, base);
    OutcomesSized(e, r, base);
    assert OutcomeSized(r, os[i]);
    FlattenAt(PlacedCells(os), i);
    PlacedRowsTile(os, i);
  }

  lemma SamePlacedFields(a: seq<Outcome>, i: nat, b: seq<Outcome>, j: nat)
    requires i < |a| && j < |b| && a[i] == b[j]
    ensures forall f :: 0 <= f < PLAN_WIDTH && f != OFFSET && f != LEAF_OFFSET ==>
      PlanInts(PlacedCells(a)[i])[f] == PlanInts(PlacedCells(b)[j])[f]
  {
    hide Concat;
  }

  /** Two requests that put the same candidate in the same world, whatever else they ask for and in
      whatever order, get the same row for it: every field but the two offsets agrees, and the
      slices at the two offsets hold the same bytes. */
  lemma AnswersAgree(e: Engine, r: GridRequest, q: GridRequest, base: State, p: Plan, s: Plan, world: nat, c: nat,
                     d: nat)
    requires PlanAnswers(e, r, base, p) && PlanAnswers(e, q, base, s)
    requires world < r.worldCount && world < q.worldCount && c < r.candidateCount && d < q.candidateCount
    requires r.rootPlayer == q.rootPlayer && r.manualCoin == q.manualCoin && r.seed == q.seed
    requires r.maxForcedSteps == q.maxForcedSteps
    requires HiddenLists(e, r, world) == HiddenLists(e, q, world) && Candidate(e, r, c) == Candidate(e, q, d)
    ensures
      var i, j := GridCell(r.worldCount, c, world), GridCell(q.worldCount, d, world);
      && PLAN_WIDTH * (i + 1) <= |p.rows| && PLAN_WIDTH * (j + 1) <= |s.rows|
      && (forall f :: 0 <= f < PLAN_WIDTH && f != OFFSET && f != LEAF_OFFSET ==> RowAt(p, i)[f] == RowAt(s, j)[f])
      && SliceAt(p, RowAt(p, i)[OFFSET], RowAt(p, i)[SIZE]).Some?
      && SliceAt(p, RowAt(p, i)[OFFSET], RowAt(p, i)[SIZE]) == SliceAt(s, RowAt(s, j)[OFFSET], RowAt(s, j)[SIZE])
      && SliceAt(p, RowAt(p, i)[LEAF_OFFSET], RowAt(p, i)[LEAF_SIZE]).Some?
      && SliceAt(p, RowAt(p, i)[LEAF_OFFSET], RowAt(p, i)[LEAF_SIZE])
         == SliceAt(s, RowAt(s, j)[LEAF_OFFSET], RowAt(s, j)[LEAF_SIZE])
  {
    hide Outcomes, PlanOf, GridRequestOk, HiddenLists, Candidate, PlacedCells, RowAt, SliceAt, PlanInts,
         GridCell;
    OutcomesAreIndependent(e, r, q, base, world, c, d);
    var i, j := GridCell(r.worldCount, c, world), GridCell(q.worldCount, d, world);
    RowOfAnswer(e, r, base, p, i);
    RowOfAnswer(e, q, base, s, j);
    SamePlacedFields(Outcomes(e, r, base), i, Outcomes(e, q, base), j);
  }

  // ---------------------------------------------------------------- what an error-free row says

  lemma ErrorFreeCell(e: Engine, rootPlayer: int32, manualCoin: bool, maxForced: nat, root: SearchInfo, rootRng: Rng,
                      action: seq<int>) returns (leaf: Slot, n: nat)
    requires CellOutcome(e, rootPlayer, manualCoin, maxForced, root, rootRng, action).cell.error == 0
    ensures n <= maxForced && Consequence(e, rootPlayer, manualCoin, root, rootRng, action, leaf, n)
  {
    hide Consequence, EndpointFor, Transition;
    var t := Freely(e, rootPlayer, manualCoin, maxForced, root, rootRng, action);
    TransitionShape(e, rootPlayer, manualCoin, maxForced, maxForced + 1, root, rootRng, action);
    leaf, n := t.leaf.value, t.forced;
    TransitionSucceeds(e, rootPlayer, manualCoin, maxForced, maxForced + 1, root, rootRng, action, leaf, n);
  }

  lemma CellSays(e: Engine, rootPlayer: int32, manualCoin: bool, maxForced: nat, root: SearchInfo, rootRng: Rng,
                 action: seq<int>, leaf: Slot, n: nat)
    requires Consequence(e, rootPlayer, manualCoin, root, rootRng, action, leaf, n) && n <= maxForced
    ensures var o := CellOutcome(e, rootPlayer, manualCoin, maxForced, root, rootRng, action);
      && RowSays(e, rootPlayer, PlanInts(o.cell), leaf.state, n, |o.root|) && PlanInts(o.cell)[LEAF_SIZE] == |o.leaf|
      && o.root == e.observe(leaf.state, rootPlayer, e.prompt(root.state.value).logs)
      && (o.leaf == if e.prompt(leaf.state).finished then []
                    else e.observe(leaf.state, e.prompt(leaf.state).player, e.prompt(root.state.value).logs))
  {
    hide Consequence, EndpointFor, Transition, StandsAt;
    OutcomeMeans(e, rootPlayer, manualCoin, maxForced, root, rootRng, action, leaf, n);
    TransitionSucceeds(e, rootPlayer, manualCoin, maxForced, maxForced + 1, root, rootRng, action, leaf, n);
    EndpointStands(e, e.prompt(leaf.state), rootPlayer);
  }

  /** The root of a world: its six lists, dealt under the world's own seeded stream. */
  ghost function RootOf(e: Engine, r: GridRequest, base: State, world: nat): (SearchInfo, Rng)
    requires GridRequestOk(e, r) && world < r.worldCount
  {
    StartWorld(e, base, r.rootPlayer, r.manualCoin != 0, HiddenLists(e, r, world), e.seeded(r.seed, world))
  }

  /** A world is refused with error 1 if one of its lists has not the size the state hides or names an
      unknown card; otherwise its lists are dealt, and what the deal laid open is hidden again. */
  lemma RootMeans(e: Engine, r: GridRequest, base: State, world: nat)
    requires GridRequestOk(e, r) && world < r.worldCount && RaggedOk(r.hiddenCounts, r.hiddenValues)
    requires 6 * (world + 1) <= |r.hiddenCounts|
    ensures var lists := seq(6, k requires 0 <= k < 6 => Item(r.hiddenCounts, r.hiddenValues, 6 * world + k));
            var (root, rng) := RootOf(e, r, base, world);
            var (dealt, after) := e.start(lists, r.manualCoin == 1, base, e.seeded(r.seed, world));
      if exists k :: 0 <= k < 6 && (|lists[k]| != e.hiddenSize(base, r.rootPlayer, k)
                                    || exists j :: 0 <= j < |lists[k]| && !e.knownCard(lists[k][j])) then
        root == SearchInfo(1, None) && rng == e.seeded(r.seed, world)
      else if dealt.error == 0 && dealt.state.Some? then
        root == SearchInfo(0, Some(e.restore(dealt.state.value))) && rng == after
      else root == dealt && rng == after
  {
    hide BuffersOk, Item;
    var lists := seq(6, k requires 0 <= k < 6 => Item(r.hiddenCounts, r.hiddenValues, 6 * world + k));
    assert HiddenLists(e, r, world) == lists;
  }

  ghost predicate PlaysOutIn(e: Engine, r: GridRequest, base: State, world: nat, candidate: nat, path: seq<Slot>)
    requires GridRequestOk(e, r) && world < r.worldCount && candidate < r.candidateCount
  {
    var (root, rng) := RootOf(e, r, base, world);
    && PlaysOut(e, r.rootPlayer, r.manualCoin != 0, root, rng, Candidate(e, r, candidate), path)
    && |path| <= 1 + r.maxForcedSteps
  }

  /** What row i says of a leaf that `forced` prompts without a choice led to: how it stands, how many
      steps it took, what the root player may know of it and what the player to move there may, each
      from where the root's log ended. */
  ghost predicate TellsOf(e: Engine, rootPlayer: int, p: Plan, i: nat, root: State, leaf: State, forced: nat)
    requires PLAN_WIDTH * (i + 1) <= |p.rows|
  {
    var row, prompt, logs := RowAt(p, i), e.prompt(leaf), e.prompt(root).logs;
    && row[SIZE] >= 0 && RowSays(e, rootPlayer, row, leaf, forced, row[SIZE])
    && SliceAt(p, row[OFFSET], row[SIZE]) == Some(e.observe(leaf, rootPlayer, logs))
    && SliceAt(p, row[LEAF_OFFSET], row[LEAF_SIZE])
         == Some(if prompt.finished then [] else e.observe(leaf, prompt.player, logs))
  }

  /** Row i has no error exactly if the candidate plays out from the world through at most the allowed
      number of prompts without a choice, and then it tells of the leaf. */
  ghost predicate RowMeans(e: Engine, r: GridRequest, base: State, p: Plan, world: nat, candidate: nat, i: nat)
    requires GridRequestOk(e, r) && world < r.worldCount && candidate < r.candidateCount
  {
    && PLAN_WIDTH * (i + 1) <= |p.rows|
    && (RowAt(p, i)[0] == 0 <==> exists path: seq<Slot> :: PlaysOutIn(e, r, base, world, candidate, path))
    && forall path: seq<Slot> :: PlaysOutIn(e, r, base, world, candidate, path) ==>
         var root := RootOf(e, r, base, world).0;
         && root.state.Some?
         && TellsOf(e, r.rootPlayer, p, i, root.state.value, path[|path| - 1].state, |path| - 1)
  }

  /** The row of a cell is its outcome, but for where its slices lie. */
  predicate RowIs(p: Plan, i: nat, o: Outcome) {
    && PLAN_WIDTH * (i + 1) <= |p.rows|
    && (forall f :: 0 <= f < PLAN_WIDTH && f != OFFSET && f != LEAF_OFFSET ==> RowAt(p, i)[f] == PlanInts(o.cell)[f])
    && SliceAt(p, RowAt(p, i)[OFFSET], RowAt(p, i)[SIZE]) == Some(o.root)
    && SliceAt(p, RowAt(p, i)[LEAF_OFFSET], RowAt(p, i)[LEAF_SIZE]) == Some(o.leaf)
  }

  lemma RowOfCell(e: Engine, r: GridRequest, base: State, p: Plan, i: nat)
    requires PlanAnswers(e, r, base, p) && i < Cells(r)
    ensures RowIs(p, i, Outcomes(e, r, base)[i])
  {
    hide Outcomes, PlanOf, GridRequestOk, RowAt, SliceAt, Concat;
    RowOfAnswer(e, r, base, p, i);
  }

  /** Where a path leads, its row tells. */
  lemma RowOfPath(e: Engine, r: GridRequest, base: State, p: Plan, world: nat, candidate: nat, i: nat, path: seq<Slot>)
    requires GridRequestOk(e, r) && world < r.worldCount && candidate < r.candidateCount
    requires RowIs(p, i, OutcomeAt(e, r, base, world, candidate)) && PlaysOutIn(e, r, base, world, candidate, path)
    ensures path != []
    ensures var root := RootOf(e, r, base, world).0;
      && root.state.Some? && PLAN_WIDTH * (i + 1) <= |p.rows| && RowAt(p, i)[0] == 0
      && TellsOf(e, r.rootPlayer, p, i, root.state.value, path[|path| - 1].state, |path| - 1)
  {
    hide BuffersOk, HiddenLists, Candidate, RowAt, SliceAt, PlanInts, StartWorld, Consequence, CellOutcome, Passes,
         Stops, StandsAt;
    var (root, rng) := RootOf(e, r, base, world);
    var n := |path| - 1;
    PlaysOutIsConsequence(e, r.rootPlayer, r.manualCoin != 0, root, rng, Candidate(e, r, candidate), path);
    CellSays(e, r.rootPlayer, r.manualCoin != 0, r.maxForcedSteps, root, rng, Candidate(e, r, candidate), path[n], n);
  }

  lemma RowOfError(e: Engine, r: GridRequest, base: State, p: Plan, world: nat, candidate: nat, i: nat)
    requires GridRequestOk(e, r) && world < r.worldCount && candidate < r.candidateCount
    requires RowIs(p, i, OutcomeAt(e, r, base, world, candidate)) && RowAt(p, i)[0] == 0
    ensures exists path: seq<Slot> :: PlaysOutIn(e, r, base, world, candidate, path)
  {
    hide BuffersOk, HiddenLists, Candidate, RowAt, SliceAt, StartWorld, Consequence, CellOutcome, PlaysOut;
    var (root, rng) := RootOf(e, r, base, world);
    var action := Candidate(e, r, candidate);
    var leaf, n := ErrorFreeCell(e, r.rootPlayer, r.manualCoin != 0, r.maxForcedSteps, root, rng, action);
    var path := ConsequencePlaysOut(e, r.rootPlayer, r.manualCoin != 0, root, rng, action, leaf, n);
    assert PlaysOutIn(e, r, base, world, candidate, path);
  }

  /** Row `candidate * worlds + world` of an answer means that candidate in that world. */
  lemma EveryRowMeans(e: Engine, r: GridRequest, base: State, p: Plan, world: nat, candidate: nat, i: nat)
    requires PlanAnswers(e, r, base, p) && world < r.worldCount && candidate < r.candidateCount
    requires i == candidate * r.worldCount + world
    ensures RowMeans(e, r, base, p, world, candidate, i)
  {
    hide *;
    RequestOf(e, r, base, p);
    OutcomesAt(e, r, base, world, candidate);
    CellAt(r, world, candidate, i);
    RowOfCell(e, r, base, p, i);
    MeansFrom(e, r, base, p, world, candidate, i);
  }

  lemma RequestOf(e: Engine, r: GridRequest, base: State, p: Plan)
    requires PlanAnswers(e, r, base, p)
    ensures GridRequestOk(e, r)
  {
    hide PlanOf, GridRequestOk;
  }

  lemma CellAt(r: GridRequest, world: nat, candidate: nat, i: nat)
    requires i == candidate * r.worldCount + world && r.worldCount >= 0
    ensures i == GridCell(r.worldCount, candidate, world)
  {
  }

  lemma MeansFrom(e: Engine, r: GridRequest, base: State, p: Plan, world: nat, candidate: nat, i: nat)
    requires GridRequestOk(e, r) && world < r.worldCount && candidate < r.candidateCount
    requires RowIs(p, i, OutcomeAt(e, r, base, world, candidate))
    ensures RowMeans(e, r, base, p, world, candidate, i)
  {
    hide BuffersOk, RowAt, SliceAt, RootOf, PlaysOut, TellsOf, OutcomeAt;
    if RowAt(p, i)[0] == 0 {
      RowOfError(e, r, base, p, world, candidate, i);
    }
    forall path: seq<Slot> | PlaysOutIn(e, r, base, world, candidate, path)
      ensures path != [] && RowAt(p, i)[0] == 0
      ensures var root := RootOf(e, r, base, world).0;
        root.state.Some? && TellsOf(e, r.rootPlayer, p, i, root.state.value, path[|path| - 1].state, |path| - 1)
    {
      RowOfPath(e, r, base, p, world, candidate, i, path);
    }
  }
}
