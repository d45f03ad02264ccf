/** The calls on an open session: continue from retained states, release handles, close. */
module SessionContinue {
  import opened Common
  import opened Bytes
  import opened TransitionModel
  import opened SessionModel
  import opened SessionTransition
  import opened SessionBatch
  import opened SessionFold
  import opened SessionPayload
  import opened PlannerInput
  import opened PlannerSession
  import opened SessionCalls
  import opened GridOrder
  import opened Wire

  // ---------------------------------------------------------------- continue

  datatype ContinueRequest = ContinueRequest(
    producer: bytes, generation: int32, parentSlots: seq<int32>, actionCounts: seq<int32>, actionValues: seq<int32>,
    maxEngineSteps: int32, maxForcedSteps: int32, maxObservationBytes: int32)

  predicate ContinueShapeOk(r: ContinueRequest) {
    && |r.producer| == FINGERPRINT_BYTES && r.generation > 0
    && 0 < |r.parentSlots| <= MAXIMUM_CELLS_PER_CALL && |r.actionCounts| == |r.parentSlots|
    && |r.parentSlots| <= r.maxEngineSteps
    && CapsOk(r.maxEngineSteps, r.maxForcedSteps, r.maxObservationBytes)
  }

  predicate ContinueRequestOk(r: ContinueRequest) {
    ContinueShapeOk(r) && BuffersOk(r.actionCounts, r.actionValues, MAXIMUM_SELECT_COUNT)
  }

  predicate Identified(l: Lane, r: ContinueRequest) {
    r.generation == l.active && l.producer == r.producer
  }

  predicate ArenaFits(l: Lane, r: ContinueRequest) {
    |l.slots| + |r.parentSlots| <= l.maxSlots
  }

  predicate ParentsLive(l: Lane, r: ContinueRequest) {
    forall i :: 0 <= i < |r.parentSlots| ==> Get(l, Handle(r.generation, r.parentSlots[i])).Some?
  }

  function ContinueCaps(r: ContinueRequest): Caps
    requires ContinueShapeOk(r)
  {
    Caps(r.maxEngineSteps, r.maxForcedSteps, r.maxObservationBytes)
  }

  function ParentOf(l: Lane, r: ContinueRequest, i: nat): Slot
    requires ParentsLive(l, r) && i < |r.parentSlots|
  {
    Get(l, Handle(r.generation, r.parentSlots[i])).value
  }

  const NO_HIDDEN_LISTS: seq<seq<int>> := seq(HIDDEN_LIST_COUNT, i => [])

  ghost function ContinueRoot(e: Engine, l: Lane, r: ContinueRequest, rng: Rng, i: nat): (SearchInfo, Rng)
    requires ParentsLive(l, r) && i < |r.parentSlots|
  {
    var before := if i == 0 then rng else ContinueRoot(e, l, r, rng, i - 1).1;
    e.start(NO_HIDDEN_LISTS, l.manualCoin, ParentOf(l, r, i).state, before)
  }

  /** Row i applies action i to parent i as it was when the call began, with the parent's own
      random stream, even when the request names a parent twice. */
  ghost function ContinueJobs(e: Engine, l: Lane, r: ContinueRequest, rng: Rng): (jobs: seq<Job>)
    requires ContinueRequestOk(r) && ParentsLive(l, r)
    ensures |jobs| == |r.parentSlots|
  {
    seq(|r.parentSlots|, i requires 0 <= i < |r.parentSlots| =>
      (BuffersAreRagged(r.actionCounts, r.actionValues, MAXIMUM_SELECT_COUNT);
       Job(ContinueRoot(e, l, r, rng, i).0, ParentOf(l, r, i).rng, Item(r.actionCounts, r.actionValues, i))))
  }

  /** The request as the fingerprint sees it. */
  function ContinueIdentity(r: ContinueRequest): F.Request {
    F.Continue(r.generation, r.parentSlots, r.actionCounts, r.actionValues,
               F.Caps(r.maxEngineSteps, r.maxForcedSteps, r.maxObservationBytes))
  }

  /** The first n rows of a continuation, in row order. */
  ghost function ContinueBatch(e: Engine, l: Lane, r: ContinueRequest, rng: Rng, n: nat): Batch
    requires ContinueRequestOk(r) && ParentsLive(l, r) && n <= |r.parentSlots|
  {
    Fold(e, ContinueCaps(r), ContinueJobs(e, l, r, rng), l, Upto(n))
  }

  /** The engine throws somewhere in the continuation. */
  ghost predicate ContinueThrows(e: Engine, l: Lane, r: ContinueRequest, rng: Rng, throws: Throw)
    requires ContinueRequestOk(r) && ParentsLive(l, r)
  {
    && !throws.Never? && throws.row < |r.parentSlots|
    && ThrowsIn(e, ContinueCaps(r), ContinueBatch(e, l, r, rng, throws.row), ContinueJobs(e, l, r, rng)[throws.row],
                throws.row, throws)
  }

  /** What a session needs for a continuation to start. */
  ghost predicate Ready(l: Lane, r: ContinueRequest) {
    && ContinueRequestOk(r) && Valid(l) && l.active != 0
    && Identified(l, r) && ArenaFits(l, r) && ParentsLive(l, r)
  }

  lemma ContinueBatchOk(e: Engine, l: Lane, r: ContinueRequest, rng: Rng, n: nat)
    requires Ready(l, r) && n <= |r.parentSlots|
    ensures BatchOk(e, l, ContinueCaps(r), ContinueJobs(e, l, r, rng), ContinueBatch(e, l, r, rng, n), Everything(n))
    ensures var b := ContinueBatch(e, l, r, rng, n); Valid(b.lane) && GrownFrom(l, b.lane) && SameSession(l, b.lane)
  {
    hide ContinueJobs, Fold, BuffersOk, Honest, Live, GrownFrom, OwnHandles, Everything, Get;
    UptoOk(n, |r.parentSlots|);
    FoldOk(e, l, ContinueCaps(r), ContinueJobs(e, l, r, rng), Upto(n));
  }

  lemma ContinueBatchStep(e: Engine, l: Lane, r: ContinueRequest, rng: Rng, i: nat)
    requires Ready(l, r) && i < |r.parentSlots|
    ensures var b := ContinueBatch(e, l, r, rng, i);
      && i < |b.rows| == |b.marks|
      && ContinueBatch(e, l, r, rng, i + 1)
           == Next(b, i, Execute(e, b.lane, ContinueJobs(e, l, r, rng)[i], ContinueCaps(r), b.steps, b.scratch))
  {
    hide ContinueJobs, Fold, BuffersOk, Execute, Get, Live;
    UptoStep(i);
    FoldAppend(e, ContinueCaps(r), ContinueJobs(e, l, r, rng), l, Upto(i), i);
  }

  lemma ContinueJobAt(e: Engine, l: Lane, r: ContinueRequest, rng: Rng, i: nat)
    requires ContinueRequestOk(r) && ParentsLive(l, r) && i < |r.parentSlots|
    requires RaggedOk(r.actionCounts, r.actionValues)
    ensures ContinueJobs(e, l, r, rng)[i]
      == Job(ContinueRoot(e, l, r, rng, i).0, ParentOf(l, r, i).rng, Item(r.actionCounts, r.actionValues, i))
    ensures ContinueRoot(e, l, r, rng, i)
      == e.start(NO_HIDDEN_LISTS, l.manualCoin, ParentOf(l, r, i).state,
                 if i == 0 then rng else ContinueRoot(e, l, r, rng, i - 1).1)
  {
    hide BuffersOk, Get, Item;
  }

  /** The parent a row names is still there, whatever the rows before it did. */
  lemma ParentStays(e: Engine, l: Lane, r: ContinueRequest, rng: Rng, i: nat)
    requires Ready(l, r) && i < |r.parentSlots|
    ensures var b := ContinueBatch(e, l, r, rng, i);
      Get(b.lane, Handle(r.generation, r.parentSlots[i])) == Some(ParentOf(l, r, i))
          && b.lane.manualCoin == l.manualCoin
  {
    hide ContinueBatch, BatchOk, BuffersOk, GrownFrom, Live, Get, Issued;
    ContinueBatchOk(e, l, r, rng, i);
    GrownKeeps(l, ContinueBatch(e, l, r, rng, i).lane, Handle(r.generation, r.parentSlots[i]));
  }

  /** The loop over the parents computes the fold over the rows in order, up to the row in
      which the engine throws. */
  method ContinueRows(lane: SessionLane, e: Engine, r: ContinueRequest, throws: Throw)
    returns (thrown: bool, rows: seq<CellMetadata>, scratch: bytes, engineSteps: nat)
    requires Ready(lane.View(), r)
    modifies lane, lane.game
    ensures thrown <==> ContinueThrows(e, old(lane.View()), r, old(lane.game.rng), throws)
    ensures var l, rng := old(lane.View()), old(lane.game.rng);
      if thrown then
        lane.View() == LaneAtThrow(e, ContinueCaps(r), ContinueBatch(e, l, r, rng, throws.row),
                                   ContinueJobs(e, l, r, rng)[throws.row], throws.row, throws)
      else Shows(ContinueBatch(e, l, r, rng, |r.parentSlots|), lane.View(), engineSteps, scratch, rows)
  {
    hide Valid, BuffersOk, Execute, Get, ContinueJobs, ContinueBatch, ContinueRoot, ThrowsIn, LaneAtThrow, Item;
    var caps := ContinueCaps(r);
    ghost var before, rng := lane.View(), lane.game.rng;
    BuffersAreRagged(r.actionCounts, r.actionValues, MAXIMUM_SELECT_COUNT);
    var actions := ReadActions(r.actionCounts, r.actionValues);
    thrown, rows, scratch, engineSteps := false, seq(|r.parentSlots|, i => FRESH_CELL), [], 0;
    ContinueStarts(e, before, r, rng);
    for index := 0 to |r.parentSlots|
      invariant lane.game.rng == if index == 0 then rng else ContinueRoot(e, before, r, rng, index - 1).1
      invariant Shows(ContinueBatch(e, before, r, rng, index), lane.View(), engineSteps, scratch, rows)
      invariant ContinueThrows(e, before, r, rng, throws) ==> throws.row >= index
    {
      ParentStays(e, before, r, rng, index);
      ContinueJobAt(e, before, r, rng, index);
      ContinueBatchStep(e, before, r, rng, index);
      ThrowsHere(e, before, r, rng, throws, index);
      var parent := lane.GetSlot(r.generation, r.parentSlots[index]);
      var (root, after) := e.start(NO_HIDDEN_LISTS, lane.manualCoin, parent.value.state, lane.game.rng);
      lane.game.rng := after;
      thrown, rows, scratch, engineSteps :=
        FillRow(lane, e, root, parent.value.rng, actions[index], caps, engineSteps, scratch, rows, index, throws,
                ContinueBatch(e, before, r, rng, index));
      if thrown {
        return;
      }
    }
  }

  lemma ContinueStarts(e: Engine, l: Lane, r: ContinueRequest, rng: Rng)
    requires Ready(l, r)
    ensures Shows(ContinueBatch(e, l, r, rng, 0), l, 0, [], seq(|r.parentSlots|, i => FRESH_CELL))
  {
    hide ContinueJobs, BuffersOk, Live, Get;
  }

  lemma ThrowsHere(e: Engine, l: Lane, r: ContinueRequest, rng: Rng, throws: Throw, i: nat)
    requires Ready(l, r) && i < |r.parentSlots|
    ensures ThrowsIn(e, ContinueCaps(r), ContinueBatch(e, l, r, rng, i), ContinueJobs(e, l, r, rng)[i], i, throws)
      <==> ContinueThrows(e, l, r, rng, throws) && throws.row == i
  {
    hide ContinueBatch, ContinueJobs, BuffersOk, Observes, Live, Get;
  }

  /** From the jobs alone: the engine throws in the steps of a row, or at the observation of a row
      that finishes within what the rows before it leave of the step budget. */
  lemma ContinueThrowsExactly(e: Engine, l: Lane, r: ContinueRequest, rng: Rng, throws: Throw)
    requires Ready(l, r)
    ensures ContinueThrows(e, l, r, rng, throws) <==>
      && !throws.Never? && throws.row < |r.parentSlots|
      && (throws.Observing? ==>
            Finishes(e, l.rootPlayer, ContinueCaps(r), ContinueJobs(e, l, r, rng), Upto(throws.row + 1)))
  {
    hide ContinueJobs, Fold, ThrowsIn, Finishes, BuffersOk, Live, Get, RowsOf;
    if !throws.Never? && throws.row < |r.parentSlots| {
      UptoOk(throws.row, |r.parentSlots|);
      UptoStep(throws.row);
      ThrowsExactly(e, ContinueCaps(r), ContinueJobs(e, l, r, rng), l, Upto(throws.row), throws.row, throws);
    }
  }

  /** The throwing row had just put its own state into the arena. */
  ghost predicate LastLeft(e: Engine, l: Lane, r: ContinueRequest, rng: Rng, throws: Throw)
    requires Ready(l, r) && ContinueThrows(e, l, r, rng, throws)
  {
    LeavesOne(e, l.rootPlayer, ContinueCaps(r), ContinueJobs(e, l, r, rng), Upto(throws.row), throws.row, throws)
  }

  /** The rows before the throwing one that took a slot, and those that kept it. */
  ghost function TookBefore(e: Engine, l: Lane, r: ContinueRequest, rng: Rng, n: nat): set<int>
    requires ContinueRequestOk(r) && ParentsLive(l, r) && n <= |r.parentSlots|
  {
    TookSlots(e, l.rootPlayer, ContinueCaps(r), ContinueJobs(e, l, r, rng), Upto(n))
  }

  ghost function KeptBefore(e: Engine, l: Lane, r: ContinueRequest, rng: Rng, n: nat): set<int>
    requires ContinueRequestOk(r) && ParentsLive(l, r) && n <= |r.parentSlots|
  {
    KeptRows(e, l.rootPlayer, ContinueCaps(r), ContinueJobs(e, l, r, rng), Upto(n))
  }

  /** What an exception in a continuation leaves behind. */
  lemma ContinueLeaves(e: Engine, l: Lane, r: ContinueRequest, rng: Rng, throws: Throw)
    requires Ready(l, r) && ContinueThrows(e, l, r, rng, throws)
    ensures var b, jobs := ContinueBatch(e, l, r, rng, throws.row), ContinueJobs(e, l, r, rng);
            var after := LaneAtThrow(e, ContinueCaps(r), b, jobs[throws.row], throws.row, throws);
            var one := LastLeft(e, l, r, rng, throws);
      && Valid(after) && GrownFrom(l, after)
      && after.live == l.live + |KeptBefore(e, l, r, rng, throws.row)| + (if one then 1 else 0)
      && (after == l <==> TookBefore(e, l, r, rng, throws.row) == {} && !one)
  {
    hide ContinueJobs, Fold, ThrowsIn, LaneAtThrow, LeavesOne, BuffersOk, Live, GrownFrom, Everything, Get, TookSlots,
         KeptRows, RowsOf;
    UptoOk(throws.row, |r.parentSlots|);
    ThrowLeaves(e, ContinueCaps(r), ContinueJobs(e, l, r, rng), l, Upto(throws.row), throws.row, throws);
  }

  /** Continuing refuses unless the session, the room and every parent are as they should be;
      it never fails for want of a slot once it has started.  An exception leaves behind the
      states of the rows before it. */
  method ContinueSession(lane: SessionLane, e: Engine, r: ContinueRequest, throws: Throw)
    returns (error: int, payload: bytes)
    requires Valid(lane.View())
    modifies lane, lane.game
    ensures Moves(old(lane.View()), lane.View()) && Valid(lane.View())
    ensures var l := old(lane.View());
      error ==
        if !ContinueRequestOk(r) then INVALID_INPUT
        else if !Identified(l, r) then STALE_HANDLE
        else if !ArenaFits(l, r) then ARENA_CAPACITY
        else if !ParentsLive(l, r) then STALE_HANDLE
        else if ContinueThrows(e, l, r, old(lane.game.rng), throws) then EXCEPTION
        else 0
    ensures error != 0 ==> payload == []
    ensures error != 0 && error != EXCEPTION ==> lane.View() == old(lane.View())
    ensures error == EXCEPTION ==>
      var l, rng := old(lane.View()), old(lane.game.rng);
      var b, jobs := ContinueBatch(e, l, r, rng, throws.row), ContinueJobs(e, l, r, rng);
      && BatchOk(e, l, ContinueCaps(r), jobs, b, Everything(throws.row))
      && lane.View() == LaneAtThrow(e, ContinueCaps(r), b, jobs[throws.row], throws.row, throws)
      && GrownFrom(l, lane.View())
      && lane.liveStates == l.live + |KeptBefore(e, l, r, rng, throws.row)|
                            + (if LastLeft(e, l, r, rng, throws) then 1 else 0)
      && (lane.View() == l <==> TookBefore(e, l, r, rng, throws.row) == {} && !LastLeft(e, l, r, rng, throws))
    ensures error == 0 ==>
      var l, rng := old(lane.View()), old(lane.game.rng);
      var b := ContinueBatch(e, l, r, rng, |r.parentSlots|);
      && lane.View() == b.lane
      && BatchOk(e, l, ContinueCaps(r), ContinueJobs(e, l, r, rng), b, Everything(|r.parentSlots|))
      && SlicesOk(b.scratch, SlicesOf(b.rows)) && F.RequestOk(ContinueIdentity(r))
      && Decode(payload) == Some(RebasedPayload(CONTINUE_KIND, r.generation, H.Digest(F.Preimage(ContinueIdentity(r))),
                                                r.producer, b.rows, b.scratch))
  {
    hide BatchOk, ContinueJobs, ContinueBatch, Live, Encode, Decode, PayloadFits, Everything, SlicesOf, SlicesOk,
         BuffersOk, Run, Get;
    hide ContinueThrows, LaneAtThrow, LastLeft, KeptBefore, TookBefore, GrownFrom, ContinueIdentity, F.Preimage,
         H.Digest;
    payload := [];
    MovesNot(lane.View());
    if !ContinueShapeOk(r) {
      return INVALID_INPUT, payload;
    }
    var total := CheckedSum(r.actionCounts, MAXIMUM_SELECT_COUNT);
    BuffersMeanSums(r.actionCounts, r.actionValues, MAXIMUM_SELECT_COUNT, total);
    if total != Some(|r.actionValues|) {
      return INVALID_INPUT, payload;
    }
    ContinueHashable(r);
    var fingerprint := F.Fingerprint(ContinueIdentity(r));
    if r.generation != lane.activeGeneration || lane.producerFingerprint != r.producer {
      return STALE_HANDLE, payload;
    }
    if |lane.slots| + |r.parentSlots| > lane.maxStateSlots {
      return ARENA_CAPACITY, payload;
    }
    for index := 0 to |r.parentSlots|
      invariant lane.View() == old(lane.View()) && lane.game.rng == old(lane.game.rng)
      invariant forall i :: 0 <= i < index ==> Get(lane.View(), Handle(r.generation, r.parentSlots[i])).Some?
    {
      var parent := lane.GetSlot(r.generation, r.parentSlots[index]);
      if parent.None? {
        return STALE_HANDLE, payload;
      }
    }
    ghost var l, rng := lane.View(), lane.game.rng;
    var thrown, rows, scratch, engineSteps := ContinueRows(lane, e, r, throws);
    if thrown {
      ThrowRow(e, l, r, rng, throws);
      ContinueBatchOk(e, l, r, rng, throws.row);
      ContinueLeaves(e, l, r, rng, throws);
      GrownMoves(l, lane.View());
      return EXCEPTION, payload;
    }
    ghost var b := ContinueBatch(e, l, r, rng, |r.parentSlots|);
    ContinueBatchOk(e, l, r, rng, |r.parentSlots|);
    GrownMoves(l, lane.View());
    BatchServes(e, l, ContinueCaps(r), ContinueJobs(e, l, r, rng), b, CONTINUE_KIND, r.generation, fingerprint,
                r.producer);
    PayloadRoundTrip(RebasedPayload(CONTINUE_KIND, r.generation, fingerprint, r.producer, rows, scratch));
    var built := BuildPayload(CONTINUE_KIND, r.generation, fingerprint, r.producer, rows, scratch, None);
    return 0, built.value;
  }

  // ---------------------------------------------------------------- an exception that leaks

  /** An engine whose every prompt offers two options and whose steps stay where they are. */
  function IdleEngine(rng: Rng): Engine {
    Engine((token, player) => None, (s, player, list) => 0, card => true,
           (lists, coin, s, g) => (SearchInfo(0, Some(s)), g), s => s, (s, action) => 0,
           (s, g, action) => (SearchInfo(0, Some(s)), g),
           s => Prompt(false, 5, 0, 5, 2, 1, 1, -1, 0), (s, player, logs) => [], (seed, world) => rng, 60, 1, 2, 3)
  }

  /** A session of that engine with one live state, and a request that continues it twice. */
  function OneState(s: State, rng: Rng): Lane {
    Lane(1, 1, 0, false, 8, 1, seq(FINGERPRINT_BYTES, i => 0), [Some(Slot(s, rng))])
  }

  function TwiceTheSame(): ContinueRequest {
    ContinueRequest(seq(FINGERPRINT_BYTES, i => 0), 1, [0, 0], [1, 1], [0, 0], 10, 0, 10)
  }

  lemma IdleReady(s: State, rng: Rng)
    ensures Ready(OneState(s, rng), TwiceTheSame())
    ensures RaggedOk([1, 1], [0, 0])
  {
    assert Total([1, 1], 1) == 1 && Total([1, 1], 2) == 2;
    assert [Some(Slot(s, rng))][..0] == [];
  }

  lemma IdleKeeps(s: State, rng: Rng)
    requires Ready(OneState(s, rng), TwiceTheSame())
    ensures var e, l, r := IdleEngine(rng), OneState(s, rng), TwiceTheSame();
            var jobs := ContinueJobs(e, l, r, rng);
      TakesSlot(e, 0, ContinueCaps(r), jobs, [0]) && Succeeds(e, 0, ContinueCaps(r), jobs, [0])
  {
    var e, l, r := IdleEngine(rng), OneState(s, rng), TwiceTheSame();
    hide BuffersOk, Live, Item;
    IdleReady(s, rng);
    ContinueJobAt(e, l, r, rng, 0);
    var job := ContinueJobs(e, l, r, rng)[0];
    assert job.root == SearchInfo(0, Some(s)) && job.rng == rng && |job.action| == 1;
    assert ForcedHere(e, 0, s) == None;
    assert FreeOf(e, 0, ContinueCaps(r), job) == Trace(Fine, 1, 0, 1, Some(Slot(s, rng)));
    OnlyRow(e, 0, ContinueCaps(r), ContinueJobs(e, l, r, rng));
  }

  /** The first row of a call finds both budgets whole. */
  lemma OnlyRow(e: Engine, rootPlayer: int, caps: Caps, jobs: seq<Job>)
    requires jobs != []
    ensures var free := FreeOf(e, rootPlayer, caps, jobs[0]);
      && (Finishes(e, rootPlayer, caps, jobs, [0]) <==> free.failure.Fine? && free.used <= caps.maxEngineSteps)
      && (Succeeds(e, rootPlayer, caps, jobs, [0]) <==>
            && free.failure.Fine? && free.used <= caps.maxEngineSteps
            && |ObservationOf(e, rootPlayer, jobs[0], free.leaf.value)| <= caps.maxObservationBytes)
  {
    hide FreeOf, ObservationOf;
    var order: seq<nat> := [0];
    assert order[..|order| - 1] == [] && order[|order| - 1] == 0;
    assert Needed(e, rootPlayer, caps, jobs, order) == FreeOf(e, rootPlayer, caps, jobs[0]).used;
  }

  /** An exception in the second row leaves the state of the first one in the arena. */
  lemma ExceptionLeaks(s: State, rng: Rng)
    ensures var e, l, r := IdleEngine(rng), OneState(s, rng), TwiceTheSame();
      && Ready(l, r) && ContinueThrows(e, l, r, rng, Stepping(1))
      && LaneAtThrow(e, ContinueCaps(r), ContinueBatch(e, l, r, rng, 1), ContinueJobs(e, l, r, rng)[1], 1,
                     Stepping(1)).live
           == l.live + 1
  {
    hide ContinueJobs, TakesSlot, Succeeds, Fold, Execute, BuffersOk, Get, Live;
    var e, l, r := IdleEngine(rng), OneState(s, rng), TwiceTheSame();
    IdleReady(s, rng);
    IdleKeeps(s, rng);
    ContinueLeaves(e, l, r, rng, Stepping(1));
    assert Upto(1) == [0] && Upto(1)[..1] == [0] && Upto(1)[0] == 0;
    var kept := KeptBefore(e, l, r, rng, 1);
    assert 0 in kept && forall i :: i in kept ==> i == 0;
    assert kept == {0};
  }

  lemma ThrowRow(e: Engine, l: Lane, r: ContinueRequest, rng: Rng, throws: Throw)
    requires Ready(l, r) && ContinueThrows(e, l, r, rng, throws)
    ensures !throws.Never? && throws.row < |r.parentSlots|
  {
    hide ContinueBatch, ContinueJobs, ThrowsIn;
  }

  lemma ContinueHashable(r: ContinueRequest)
    requires ContinueRequestOk(r)
    ensures F.RequestOk(ContinueIdentity(r))
  {
  }

  lemma GrownMoves(a: Lane, b: Lane)
    requires GrownFrom(a, b)
    ensures Moves(a, b)
  {
  }

  // ---------------------------------------------------------------- release and close

  predicate AllLive(l: Lane, generation: int, handles: seq<int>) {
    forall i :: 0 <= i < |handles| ==> Get(l, Handle(generation, handles[i])).Some?
  }

  /** Releasing is all or nothing, and exactly the named slots become empty. */
  method ReleaseHandles(lane: SessionLane, generation: int, handles: seq<int>) returns (error: int)
    requires Valid(lane.View())
    modifies lane
    ensures error ==
      if generation <= 0 || |handles| == 0 || |handles| > MAXIMUM_STATE_SLOTS || !Distinct(handles) then INVALID_INPUT
      else if !AllLive(old(lane.View()), generation, handles) then STALE_HANDLE
      else 0
    ensures error != 0 ==> lane.View() == old(lane.View())
    ensures error == 0 ==>
      && lane.liveStates == old(lane.liveStates) - |handles| && |lane.slots| == |old(lane.slots)|
      && SameSession(old(lane.View()), lane.View())
      && forall k :: 0 <= k < |lane.slots| ==> lane.slots[k] == if k in handles then None else old(lane.slots)[k]
    ensures Valid(lane.View()) && Moves(old(lane.View()), lane.View())
  {
    hide Live, Run;
    MovesNot(lane.View());
    if generation <= 0 || |handles| == 0 || |handles| > MAXIMUM_STATE_SLOTS {
      return INVALID_INPUT;
    }
    if !Distinct(handles) {
      return INVALID_INPUT;
    }
    for index := 0 to |handles|
      invariant lane.View() == old(lane.View()) && AllLive(lane.View(), generation, handles[..index])
    {
      var current := lane.GetSlot(generation, handles[index]);
      if current.None? {
        return STALE_HANDLE;
      }
      assert handles[..index + 1] == handles[..index] + [handles[index]];
    }
    assert handles[..|handles|] == handles;
    for index := 0 to |handles|
      invariant Valid(lane.View()) && Moves(old(lane.View()), lane.View())
      invariant SameSession(old(lane.View()), lane.View()) && |lane.slots| == |old(lane.slots)|
      invariant lane.liveStates == old(lane.liveStates) - index
      invariant forall i :: index <= i < |handles| ==> Get(lane.View(), Handle(generation, handles[i])).Some?
      invariant forall k :: 0 <= k < |lane.slots| ==>
        lane.slots[k] == if k in handles[..index] then None else old(lane.slots)[k]
    {
      StepValid(lane.View(), Release(Handle(generation, handles[index])));
      MovesOneMore(old(lane.View()), lane.View(), Release(Handle(generation, handles[index])));
      assert handles[..index + 1] == handles[..index] + [handles[index]];
      var released := lane.ReleaseSlot(generation, handles[index]);
    }
    return 0;
  }

  method CloseSession(lane: SessionLane, generation: int) returns (error: int)
    requires Valid(lane.View())
    modifies lane
    ensures error == if generation <= 0 then INVALID_INPUT
        else if old(lane.activeGeneration) != generation then STALE_HANDLE else 0
    ensures lane.View() == if error == 0 then IDLE.(last := old(lane.lastGeneration)) else old(lane.View())
    ensures Valid(lane.View()) && Moves(old(lane.View()), lane.View())
  {
    MovesNot(lane.View());
    if generation <= 0 {
      return INVALID_INPUT;
    }
    if lane.activeGeneration != generation {
      return STALE_HANDLE;
    }
    StepValid(lane.View(), Op.Reset);
    MovesOneMore(lane.View(), lane.View(), Op.Reset);
    lane.ResetActiveSession();
    return 0;
  }

  // ---------------------------------------------------------------- histories of calls

  /** The lane states between calls. */
  ghost predicate CallHistory(lanes: seq<Lane>) {
    lanes != [] && Valid(lanes[0]) && forall i :: 0 <= i < |lanes| - 1 ==> Moves(lanes[i], lanes[i + 1])
  }

  /** Through any history of calls, a handle reads the state it was given or is stale, and a
      stale handle that was once issued never reads anything again. */
  lemma {:induction false} HandlesThroughHistory(lanes: seq<Lane>, i: nat, j: nat, h: Handle)
    requires CallHistory(lanes) && i <= j < |lanes| && Issued(lanes[i], h)
    ensures Valid(lanes[j]) && Issued(lanes[j], h)
    ensures Get(lanes[j], h) == Get(lanes[i], h) || Get(lanes[j], h) == None
  {
    hide Moves, Valid, Issued, Get;
    HistoryValid(lanes, i);
    if i < j {
      HandlesThroughHistory(lanes, i, j - 1, h);
      assert Moves(lanes[j - 1], lanes[j - 1 + 1]);
      MovesKeep(lanes[j - 1], lanes[j], h);
    }
  }

  lemma {:induction false} HistoryValid(lanes: seq<Lane>, i: nat)
    requires CallHistory(lanes) && i < |lanes|
    ensures Valid(lanes[i])
  {
    hide Moves, Valid;
    if i > 0 {
      HistoryValid(lanes, i - 1);
      assert Moves(lanes[i - 1], lanes[i - 1 + 1]);
      MovesKeep(lanes[i - 1], lanes[i], Handle(0, 0));
    }
  }

  lemma MovesKeep(a: Lane, b: Lane, h: Handle)
    requires Valid(a) && Moves(a, b)
    ensures Valid(b)
    ensures Issued(a, h) ==> Issued(b, h) && (Get(b, h) == Get(a, h) || Get(b, h) == None)
  {
    hide Valid, Issued, Get;
    var ops :| b == Run(a, ops);
    RunValid(a, ops);
    if Issued(a, h) {
      HandlesNeverAlias(a, ops, h);
    }
  }
}
