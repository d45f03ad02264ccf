/** The client's validation over the calls themselves: whatever request a session call answers, and
    whatever grid the planner answers, the client accepts it. */
module ClientCalls {
  import opened Common
  import opened Bytes
  import opened TransitionModel
  import opened ForcedPaths
  import opened SessionModel
  import opened SessionTransition
  import opened SessionBatch
  import opened GridOrder
  import opened SessionFold
  import opened SessionPayload
  import opened SessionRows
  import opened PlannerInput
  import opened PlannerSession
  import opened PlannerGridModel
  import opened PlannerGrid
  import opened PlannerAnswers
  import opened SessionCalls
  import opened SessionContinue
  import opened ClientCheck
  import opened ClientSession
  import opened Wire

  // ---------------------------------------------------------------- sessions

  lemma ContinueRootsFine(e: Engine, l: Lane, r: ContinueRequest, rng: Rng, i: nat)
    requires Conforms(e) && ContinueRequestOk(r) && ParentsLive(l, r) && i < |r.parentSlots|
    ensures ContinueJobs(e, l, r, rng)[i].root.error >= 0
  {
    hide Get, BuffersOk, Item;
    BuffersAreRagged(r.actionCounts, r.actionValues, MAXIMUM_SELECT_COUNT);
    ContinueJobAt(e, l, r, rng, i);
  }

  /** The answer of a continuation is valid for the client. */
  lemma ContinueAnswerIsValid(e: Engine, l: Lane, r: ContinueRequest, rng: Rng, request: bytes, producer: bytes)
    requires Conforms(e) && Ready(l, r) && 0 <= l.rootPlayer <= 1
    requires var b := ContinueBatch(e, l, r, rng, |r.parentSlots|); SlicesOk(b.scratch, SlicesOf(b.rows))
    ensures var b := ContinueBatch(e, l, r, rng, |r.parentSlots|);
            var p := RebasedPayload(CONTINUE_KIND, r.generation, request, producer, b.rows, b.scratch);
      SessionValid(Table(p.rows), r.generation, |p.observations|, l.rootPlayer, r.maxForcedSteps)
  {
    hide ContinueJobs, Fold, BuffersOk, Live, Get, RowsOf, SlicesOk, SlicesOf, SessionValid, Conforms;
    var n := |r.parentSlots|;
    UptoOk(n, n);
    forall i | 0 <= i < n ensures ContinueJobs(e, l, r, rng)[i].root.error >= 0 {
      ContinueRootsFine(e, l, r, rng, i);
    }
    AnswerIsValid(e, ContinueCaps(r), ContinueJobs(e, l, r, rng), l, Upto(n), CONTINUE_KIND, request, producer);
  }

  /** Row i of a continuation plays action i from the state its parent handle names, restarted without
      hidden lists, under the random stream that state was reached with; and the state it keeps is where
      that leads. */
  lemma ContinueRowMeans(e: Engine, l: Lane, r: ContinueRequest, rng: Rng, i: nat) returns (path: seq<Slot>)
    requires Ready(l, r) && i < |r.parentSlots| && RaggedOk(r.actionCounts, r.actionValues)
    ensures 0 <= r.parentSlots[i] < |l.slots| && l.slots[r.parentSlots[i]].Some?
    ensures var b, parent := ContinueBatch(e, l, r, rng, |r.parentSlots|), l.slots[r.parentSlots[i]].value;
            var restart := if i == 0 then rng else ContinueRoot(e, l, r, rng, i - 1).1;
            var root := e.start([[], [], [], [], [], []], l.manualCoin, parent.state, restart).0;
            var job := Job(root, parent.rng, Item(r.actionCounts, r.actionValues, i));
      && i < |b.rows|
      && (b.rows[i].error == 0 ==> RowTells(e, b.lane, ContinueCaps(r), b.scratch, job, b.rows[i], path))
      && RowHolds(b.lane, MetadataInts(b.rows[i]), if b.rows[i].error == 0 then Some(path[|path| - 1]) else None)
  {
    hide ContinueBatch, Honest, RowTells, RowHolds, BuffersOk, Item, Live, OwnHandles, GrownFrom, MetadataInts;
    var n := |r.parentSlots|;
    var b := ContinueBatch(e, l, r, rng, n);
    ContinueBatchOk(e, l, r, rng, n);
    ContinueJobAt(e, l, r, rng, i);
    assert i in Everything(n);
    assert NO_HIDDEN_LISTS == [[], [], [], [], [], []];
    path := EveryRowTells(e, b.lane, ContinueCaps(r), b.scratch, b.marks[i], ContinueJobs(e, l, r, rng)[i], b.rows[i]);
  }

  lemma StartedFine(e: Engine, base: State, rootPlayer: int, manualCoin: bool, lists: seq<seq<int>>, rng: Rng)
    requires Conforms(e)
    ensures StartWorld(e, base, rootPlayer, manualCoin, lists, rng).0.error >= 0
  {
    hide WorldFits;
    assert e.start(lists, manualCoin, base, rng).0.error >= 0;
  }

  lemma OpenRootsFine(e: Engine, r: OpenRequest, base: State, rng: Rng, i: nat)
    requires Conforms(e) && OpenRequestOk(e, r) && i < OpenCells(r)
    ensures OpenJobs(e, r, base, rng)[i].root.error >= 0
  {
    hide BuffersOk, Item, StartWorld, Conforms, WorldLists;
    GridCellBack(r.worldCount, r.candidateCount, i);
    var world := WorldOf(r.worldCount, i);
    BuffersAreRagged(r.hiddenCounts, r.hiddenValues, e.deckSize);
    var before := if world == 0 then rng else OpenRoot(e, r, base, rng, world - 1).1;
    StartedFine(e, base, r.rootPlayer, r.manualCoin != 0, WorldLists(r.hiddenCounts, r.hiddenValues, world), before);
  }

  /** The answer of an open is valid for the client: one row a cell, under the new generation. */
  lemma OpenAnswerIsValid(e: Engine, r: OpenRequest, before: Lane, base: State, rng: Rng, request: bytes,
                          producer: bytes)
    requires Conforms(e) && OpenRequestOk(e, r) && Valid(before) && before.active > 0 && before.slots == []
    requires before.maxSlots == r.maxStateSlots && before.rootPlayer == r.rootPlayer
    requires var b := OpenBatch(e, r, before, base, rng, r.worldCount, 0); SlicesOk(b.scratch, SlicesOf(b.rows))
    ensures var b := OpenBatch(e, r, before, base, rng, r.worldCount, 0);
            var p := RebasedPayload(OPEN_KIND, before.active, request, producer, b.rows, b.scratch);
      && |p.rows| == r.candidateCount * r.worldCount
      && SessionValid(Table(p.rows), before.active, |p.observations|, r.rootPlayer, r.maxForcedSteps)
  {
    hide OpenJobs, Fold, BuffersOk, Live, RowsOf, SlicesOk, SlicesOf, SessionValid, Conforms, Filled, WorldMajor;
    var order := WorldMajor(r.worldCount, r.candidateCount, r.worldCount, 0);
    WorldMajorOk(r.worldCount, r.candidateCount, r.worldCount, 0);
    FillWorld(r.worldCount, r.candidateCount, 0);
    OrderFits(order, OpenCells(r));
    forall i | 0 <= i < OpenCells(r) ensures OpenJobs(e, r, base, rng)[i].root.error >= 0 {
      OpenRootsFine(e, r, base, rng, i);
    }
    AnswerIsValid(e, OpenCaps(r), OpenJobs(e, r, base, rng), before, order, OPEN_KIND, request, producer);
  }

  /** Row `candidate * worlds + world` of an open plays that candidate from that world's root, under the
      random stream the root was left with; and the state it keeps is where that leads. */
  lemma OpenRowMeans(e: Engine, r: OpenRequest, before: Lane, base: State, rng: Rng, world: nat, candidate: nat, i: nat)
    returns (path: seq<Slot>)
    requires OpenRequestOk(e, r) && world < r.worldCount && candidate < r.candidateCount
    requires i == candidate * r.worldCount + world && RaggedOk(r.candidateCounts, r.candidateValues)
    requires Valid(before) && before.active != 0 && before.slots == [] && before.maxSlots == r.maxStateSlots
    ensures var b := OpenBatch(e, r, before, base, rng, r.worldCount, 0);
            var (root, rootRng) := OpenRoot(e, r, base, rng, world);
            var job := Job(root, rootRng, Item(r.candidateCounts, r.candidateValues, candidate));
      && i < |b.rows|
      && (b.rows[i].error == 0 ==> RowTells(e, b.lane, OpenCaps(r), b.scratch, job, b.rows[i], path))
      && RowHolds(b.lane, MetadataInts(b.rows[i]), if b.rows[i].error == 0 then Some(path[|path| - 1]) else None)
  {
    hide OpenBatch, OpenJobs, OpenRoot, Honest, RowTells, RowHolds, BuffersOk, Item, Live, OwnHandles, GrownFrom,
         MetadataInts, Filled;
    OpenBatchOk(e, r, before, base, rng, r.worldCount, 0);
    FillWorld(r.worldCount, r.candidateCount, 0);
    OpenJobAt(e, r, base, rng, world, candidate);
    assert i == GridCell(r.worldCount, candidate, world);
    assert i in Everything(OpenCells(r));
    var b := OpenBatch(e, r, before, base, rng, r.worldCount, 0);
    path := EveryRowTells(e, b.lane, OpenCaps(r), b.scratch, b.marks[i], OpenJobs(e, r, base, rng)[i], b.rows[i]);
  }
}
