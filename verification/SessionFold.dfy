/** The rows of a session call, executed one after the other: the exact result of a call, and
    what decides which rows are refused and what the arena keeps. */
module SessionFold {
  import opened Common
  import opened Bytes
  import opened TransitionModel
  import opened SessionModel
  import opened SessionTransition
  import opened SessionBatch
  import opened GridOrder

  /** The rows of an order, executed one after the other: lane, steps and scratch are threaded
      through them. */
  function Fold(e: Engine, caps: Caps, jobs: seq<Job>, before: Lane, order: seq<nat>): (b: Batch)
    requires forall k :: 0 <= k < |order| ==> order[k] < |jobs|
    ensures |b.rows| == |jobs| && |b.marks| == |jobs|
  {
    if order == [] then Fresh(before, |jobs|)
    else
      var b, i := Fold(e, caps, jobs, before, order[..|order| - 1]), order[|order| - 1];
      Next(b, i, Execute(e, b.lane, jobs[i], caps, b.steps, b.scratch))
  }

  lemma FoldAppend(e: Engine, caps: Caps, jobs: seq<Job>, before: Lane, order: seq<nat>, i: nat)
    requires i < |jobs| && forall k :: 0 <= k < |order| ==> order[k] < |jobs|
    ensures forall k :: 0 <= k < |order + [i]| ==> (order + [i])[k] < |jobs|
    ensures var b := Fold(e, caps, jobs, before, order);
      Fold(e, caps, jobs, before, order + [i]) == Next(b, i, Execute(e, b.lane, jobs[i], caps, b.steps, b.scratch))
  {
    hide Execute, Next;
    assert (order + [i])[..|order|] == order;
  }

  /** The variables of a loop over the rows show a batch. */
  predicate Shows(b: Batch, lane: Lane, steps: nat, scratch: bytes, rows: seq<CellMetadata>) {
    b.lane == lane && b.steps == steps && b.scratch == scratch && b.rows == rows
  }

  /** The arena has a slot for every row of the order. */
  ghost predicate Roomy(before: Lane, order: seq<nat>) {
    Valid(before) && before.active != 0 && |before.slots| + |order| <= before.maxSlots
  }

  /** Executing rows in any order keeps everything a batch promises of its filled rows. */
  lemma {:induction false} FoldOk(e: Engine, before: Lane, caps: Caps, jobs: seq<Job>, order: seq<nat>)
    requires OrderOk(order, |jobs|) && Roomy(before, order)
    ensures BatchOk(e, before, caps, jobs, Fold(e, caps, jobs, before, order), RowsOf(order))
  {
    hide BatchOk, Execute, Next, RowsOf, Valid;
    if order == [] {
      BatchStarts(e, before, caps, jobs);
      RowsOfNothing();
    } else {
      var most := order[..|order| - 1];
      RowsOfStep(order, |jobs|);
      RowsOfSize(most, |jobs|);
      FoldOk(e, before, caps, jobs, most);
      BatchExtends(e, before, caps, jobs, Fold(e, caps, jobs, before, most), RowsOf(most), order[|order| - 1]);
    }
  }

  // ---------------------------------------------------------------- exceptions

  /** The engine throws in row i, whose job finds the call as b. */
  predicate ThrowsIn(e: Engine, caps: Caps, b: Batch, job: Job, i: nat, throws: Throw) {
    throws == Stepping(i) || (throws == Observing(i) && Observes(e, b.lane, job, caps, b.steps))
  }

  function LaneAtThrow(e: Engine, caps: Caps, b: Batch, job: Job, i: nat, throws: Throw): Lane
    requires ThrowsIn(e, caps, b, job, i, throws)
  {
    if throws.Observing? then Interrupted(e, b.lane, job, caps, b.steps) else b.lane
  }

  // ---------------------------------------------------------------- what each row found

  /** Row k of the order is what its job does where the rows before it left the call. */
  lemma {:induction false} FoldRowAt(e: Engine, caps: Caps, jobs: seq<Job>, before: Lane, order: seq<nat>, k: nat)
    requires OrderOk(order, |jobs|) && k < |order|
    ensures var b, p, i := Fold(e, caps, jobs, before, order), Fold(e, caps, jobs, before, order[..k]), order[k];
      && b.rows[i] == Execute(e, p.lane, jobs[i], caps, p.steps, p.scratch).cell
      && b.marks[i] == Mark(p.steps, |p.scratch|)
  {
    hide Execute;
    var n := |order| - 1;
    if k < n {
      FoldRowAt(e, caps, jobs, before, order[..n], k);
      assert order[..n][..k] == order[..k];
    }
  }

  /** The engine steps the rows of an order need when nothing stops them. */
  function Needed(e: Engine, rootPlayer: int, caps: Caps, jobs: seq<Job>, order: seq<nat>): nat
    requires forall k :: 0 <= k < |order| ==> order[k] < |jobs|
  {
    if order == [] then 0
    else
      var most, last := order[..|order| - 1], order[|order| - 1];
      Needed(e, rootPlayer, caps, jobs, most) + FreeOf(e, rootPlayer, caps, jobs[last]).used
  }

  lemma FoldStays(e: Engine, caps: Caps, jobs: seq<Job>, before: Lane, order: seq<nat>)
    requires OrderOk(order, |jobs|) && Roomy(before, order)
    ensures var b := Fold(e, caps, jobs, before, order);
      && Valid(b.lane) && b.lane.active != 0 && SameSession(before, b.lane) && Within(caps, b.steps, b.scratch)
      && |b.lane.slots| <= |before.slots| + |order|
  {
    hide Fold, Honest, Live, OwnHandles, GrownFrom, RowsOf;
    FoldOk(e, before, caps, jobs, order);
    RowsOfSize(order, |jobs|);
  }

  /** The call spends what its rows need, up to the cap. */
  lemma {:induction false} FoldSpends(e: Engine, caps: Caps, jobs: seq<Job>, before: Lane, order: seq<nat>)
    requires OrderOk(order, |jobs|) && Roomy(before, order)
    ensures Fold(e, caps, jobs, before, order).steps
      == Min(caps.maxEngineSteps, Needed(e, before.rootPlayer, caps, jobs, order))
  {
    hide Execute, FreeOf, Valid, Within;
    if order != [] {
      var most, i := order[..|order| - 1], order[|order| - 1];
      FoldSpends(e, caps, jobs, before, most);
      FoldStays(e, caps, jobs, before, most);
      var b := Fold(e, caps, jobs, before, most);
      ExecuteSpends(e, b.lane, jobs[i], caps, b.steps, b.scratch);
    }
  }

  /** A row is stopped by the step budget exactly when it needs an engine step and the rows up
      to it need more than the cap between them. */
  lemma StoppedExactly(e: Engine, caps: Caps, jobs: seq<Job>, before: Lane, order: seq<nat>, k: nat)
    requires OrderOk(order, |jobs|) && Roomy(before, order) && k < |order|
    ensures var b, i := Fold(e, caps, jobs, before, order), order[k];
            var used := FreeOf(e, before.rootPlayer, caps, jobs[i]).used;
      (b.marks[i].steps + used > caps.maxEngineSteps <==>
         used > 0 && Needed(e, before.rootPlayer, caps, jobs, order[..k + 1]) > caps.maxEngineSteps)
  {
    hide Execute, FreeOf, Valid, Fold;
    FoldRowAt(e, caps, jobs, before, order, k);
    FoldSpends(e, caps, jobs, before, order[..k]);
    assert order[..k + 1][..k] == order[..k];
  }

  // ---------------------------------------------------------------- what a row gets

  /** The last row of an order, its budget being what the rows before it leave: it finishes if
      its own transition does and the rows up to it need no more than the cap between them. */
  predicate Finishes(e: Engine, rootPlayer: int, caps: Caps, jobs: seq<Job>, order: seq<nat>)
    requires forall k :: 0 <= k < |order| ==> order[k] < |jobs|
  {
    && order != [] && FreeOf(e, rootPlayer, caps, jobs[order[|order| - 1]]).failure.Fine?
    && Needed(e, rootPlayer, caps, jobs, order) <= caps.maxEngineSteps
  }

  /** It takes a slot if it finishes at a leaf worth keeping. */
  predicate TakesSlot(e: Engine, rootPlayer: int, caps: Caps, jobs: seq<Job>, order: seq<nat>)
    requires forall k :: 0 <= k < |order| ==> order[k] < |jobs|
  {
    && Finishes(e, rootPlayer, caps, jobs, order)
    && var leaf := FreeOf(e, rootPlayer, caps, jobs[order[|order| - 1]]).leaf.value;
       Retained(EndpointFor(e, e.prompt(leaf.state), rootPlayer))
  }

  /** It succeeds if it finishes and its observation fits behind those of the rows that did. */
  predicate Succeeds(e: Engine, rootPlayer: int, caps: Caps, jobs: seq<Job>, order: seq<nat>)
    requires forall k :: 0 <= k < |order| ==> order[k] < |jobs|
    decreases |order|, 0
  {
    && Finishes(e, rootPlayer, caps, jobs, order)
    && BytesOut(e, rootPlayer, caps, jobs, order[..|order| - 1])
         + |LastObservation(e, rootPlayer, caps, jobs, order)| <= caps.maxObservationBytes
  }

  function LastObservation(e: Engine, rootPlayer: int, caps: Caps, jobs: seq<Job>, order: seq<nat>): bytes
    requires forall k :: 0 <= k < |order| ==> order[k] < |jobs|
    requires Finishes(e, rootPlayer, caps, jobs, order)
  {
    var job := jobs[order[|order| - 1]];
    ObservationOf(e, rootPlayer, job, FreeOf(e, rootPlayer, caps, job).leaf.value)
  }

  /** The observations of an order's successful rows. */
  function BytesOut(e: Engine, rootPlayer: int, caps: Caps, jobs: seq<Job>, order: seq<nat>): nat
    requires forall k :: 0 <= k < |order| ==> order[k] < |jobs|
    decreases |order|, 1
  {
    if order == [] then 0
    else
      BytesOut(e, rootPlayer, caps, jobs, order[..|order| - 1])
        + if Succeeds(e, rootPlayer, caps, jobs, order) then |LastObservation(e, rootPlayer, caps, jobs, order)| else 0
  }

  /** Where the rows of an order leave the call's two budgets. */
  function MarkAfter(e: Engine, rootPlayer: int, caps: Caps, jobs: seq<Job>, order: seq<nat>): Mark
    requires forall k :: 0 <= k < |order| ==> order[k] < |jobs|
  {
    Mark(Min(caps.maxEngineSteps, Needed(e, rootPlayer, caps, jobs, order)), BytesOut(e, rootPlayer, caps, jobs, order))
  }

  /** What is decided by the mark a row finds is decided by the jobs up to it. */
  lemma MarkDecides(e: Engine, rootPlayer: int, caps: Caps, jobs: seq<Job>, order: seq<nat>)
    requires order != [] && forall k :: 0 <= k < |order| ==> order[k] < |jobs|
    ensures var mark := MarkAfter(e, rootPlayer, caps, jobs, order[..|order| - 1]);
            var job := jobs[order[|order| - 1]];
      && (Allocates(e, rootPlayer, caps, mark, job) <==> TakesSlot(e, rootPlayer, caps, jobs, order))
      && (DecidedError(e, rootPlayer, caps, mark, job) == 0 <==> Succeeds(e, rootPlayer, caps, jobs, order))
  {
    hide FreeOf, EndpointFor, BytesOut, ObservationOf;
    FinishingSpends(e, rootPlayer, caps, jobs[order[|order| - 1]]);
  }

  /** The budgets of a call, from its jobs alone. */
  lemma {:induction false} FoldMarks(e: Engine, caps: Caps, jobs: seq<Job>, before: Lane, order: seq<nat>)
    requires OrderOk(order, |jobs|) && Roomy(before, order)
    ensures var b := Fold(e, caps, jobs, before, order);
      Mark(b.steps, |b.scratch|) == MarkAfter(e, before.rootPlayer, caps, jobs, order)
  {
    hide Execute, FreeOf, Valid, Within, DecidedError, Allocates, TakesSlot, Succeeds, Finishes;
    FoldSpends(e, caps, jobs, before, order);
    if order != [] {
      var most, i := order[..|order| - 1], order[|order| - 1];
      FoldMarks(e, caps, jobs, before, most);
      FoldStays(e, caps, jobs, before, most);
      MarkDecides(e, before.rootPlayer, caps, jobs, order);
      var b := Fold(e, caps, jobs, before, most);
      ExecuteWrites(e, b.lane, jobs[i], caps, b.steps, b.scratch);
    }
  }

  // ---------------------------------------------------------------- what the arena keeps

  /** The rows that took a slot, whether or not they kept it. */
  function TookSlots(e: Engine, rootPlayer: int, caps: Caps, jobs: seq<Job>, order: seq<nat>): set<int>
    requires forall k :: 0 <= k < |order| ==> order[k] < |jobs|
  {
    set k | 0 <= k < |order| && TakesSlot(e, rootPlayer, caps, jobs, order[..k + 1]) :: order[k]
  }

  /** The rows whose states are still there at the end. */
  function KeptRows(e: Engine, rootPlayer: int, caps: Caps, jobs: seq<Job>, order: seq<nat>): set<int>
    requires forall k :: 0 <= k < |order| ==> order[k] < |jobs|
  {
    set k | 0 <= k < |order| && TakesSlot(e, rootPlayer, caps, jobs, order[..k + 1])
            && Succeeds(e, rootPlayer, caps, jobs, order[..k + 1]) :: order[k]
  }

  lemma TookStep(e: Engine, rootPlayer: int, caps: Caps, jobs: seq<Job>, order: seq<nat>)
    requires order != [] && OrderOk(order, |jobs|)
    ensures var most, last := order[..|order| - 1], order[|order| - 1];
      && last !in TookSlots(e, rootPlayer, caps, jobs, most)
      && TookSlots(e, rootPlayer, caps, jobs, order)
           == TookSlots(e, rootPlayer, caps, jobs, most)
                + if TakesSlot(e, rootPlayer, caps, jobs, order) then {last} else {}
  {
    hide TakesSlot;
    var n := |order| - 1;
    var most := order[..n];
    assert order[..n + 1] == order;
    assert forall k :: 0 <= k < n ==> most[k] == order[k] != order[n] && most[..k + 1] == order[..k + 1];
  }

  /** The arena grows by one slot for every row that took one, and is untouched when none did. */
  lemma {:induction false} FoldSlots(e: Engine, caps: Caps, jobs: seq<Job>, before: Lane, order: seq<nat>)
    requires OrderOk(order, |jobs|) && Roomy(before, order)
    ensures var b := Fold(e, caps, jobs, before, order);
            var took := TookSlots(e, before.rootPlayer, caps, jobs, order);
      && |b.lane.slots| == |before.slots| + |took|
      && (b.lane == before <==> took == {})
  {
    hide Execute, Allocates, Valid, Within, TakesSlot, TookSlots, MarkAfter;
    if order == [] {
      TookNothing(e, before.rootPlayer, caps, jobs);
    } else {
      var most, i := order[..|order| - 1], order[|order| - 1];
      FoldSlots(e, caps, jobs, before, most);
      FoldStays(e, caps, jobs, before, most);
      FoldMarks(e, caps, jobs, before, most);
      MarkDecides(e, before.rootPlayer, caps, jobs, order);
      var p := Fold(e, caps, jobs, before, most);
      ExecuteSpends(e, p.lane, jobs[i], caps, p.steps, p.scratch);
      TookStep(e, before.rootPlayer, caps, jobs, order);
    }
  }

  lemma TookNothing(e: Engine, rootPlayer: int, caps: Caps, jobs: seq<Job>)
    ensures TookSlots(e, rootPlayer, caps, jobs, []) == {}
  {
  }

  /** Row k holds a state at the end exactly if it took a slot and succeeded. */
  lemma RowKept(e: Engine, caps: Caps, jobs: seq<Job>, before: Lane, order: seq<nat>, k: nat)
    requires OrderOk(order, |jobs|) && Roomy(before, order) && k < |order|
    ensures Holds(Fold(e, caps, jobs, before, order).rows[order[k]])
      <==> && TakesSlot(e, before.rootPlayer, caps, jobs, order[..k + 1])
           && Succeeds(e, before.rootPlayer, caps, jobs, order[..k + 1])
  {
    hide Fold, Allocates, DecidedError, CountsSteps, Reports, Live, RowsOf, OwnHandles, GrownFrom, TakesSlot, Succeeds,
         MarkAfter;
    FoldOk(e, before, caps, jobs, order);
    FoldRowAt(e, caps, jobs, before, order, k);
    assert order[..k + 1][..k] == order[..k];
    FoldMarks(e, caps, jobs, before, order[..k]);
    MarkDecides(e, before.rootPlayer, caps, jobs, order[..k + 1]);
    InRowsOf(order, k);
  }

  lemma InRowsOf(order: seq<nat>, k: nat)
    requires k < |order|
    ensures order[k] in RowsOf(order)
  {
  }

  /** One more state is live for every row that kept its own. */
  lemma FoldLive(e: Engine, caps: Caps, jobs: seq<Job>, before: Lane, order: seq<nat>)
    requires OrderOk(order, |jobs|) && Roomy(before, order)
    ensures var b := Fold(e, caps, jobs, before, order);
      && HeldRows(b.rows) == KeptRows(e, before.rootPlayer, caps, jobs, order)
      && b.lane.live == before.live + |KeptRows(e, before.rootPlayer, caps, jobs, order)|
  {
    hide Fold, Honest, Live, OwnHandles, GrownFrom, TakesSlot, Succeeds, Holds;
    FoldOk(e, before, caps, jobs, order);
    var b := Fold(e, caps, jobs, before, order);
    forall k | 0 <= k < |order|
      ensures Holds(b.rows[order[k]]) <==>
        && TakesSlot(e, before.rootPlayer, caps, jobs, order[..k + 1])
        && Succeeds(e, before.rootPlayer, caps, jobs, order[..k + 1])
    {
      RowKept(e, caps, jobs, before, order, k);
    }
    forall i | 0 <= i < |jobs| && Holds(b.rows[i]) ensures i in RowsOf(order) {
      FreshHoldsNothing();
    }
  }

  lemma FreshHoldsNothing()
    ensures !Holds(FRESH_CELL)
  {
  }

  /** The throwing row itself left a state behind. */
  predicate LeavesOne(e: Engine, rootPlayer: int, caps: Caps, jobs: seq<Job>, order: seq<nat>, i: nat, throws: Throw)
    requires i < |jobs| && forall k :: 0 <= k < |order| ==> order[k] < |jobs|
  {
    throws == Observing(i) && TakesSlot(e, rootPlayer, caps, jobs, order + [i])
  }

  /** An exception surfaces exactly in the steps of a row, or at the observation of one that
      finishes. */
  lemma ThrowsExactly(e: Engine, caps: Caps, jobs: seq<Job>, before: Lane, order: seq<nat>, i: nat, throws: Throw)
    requires OrderOk(order, |jobs|) && Roomy(before, order) && |before.slots| + |order| < before.maxSlots && i < |jobs|
    ensures ThrowsIn(e, caps, Fold(e, caps, jobs, before, order), jobs[i], i, throws)
      <==> throws == Stepping(i) || (throws == Observing(i) && Finishes(e, before.rootPlayer, caps, jobs, order + [i]))
  {
    hide Fold, Transition, EndpointFor, Live;
    var b := Fold(e, caps, jobs, before, order);
    FoldStays(e, caps, jobs, before, order);
    FoldSpends(e, caps, jobs, before, order);
    BudgetDecides(e, before.rootPlayer, caps, Mark(b.steps, |b.scratch|), jobs[i]);
    FinishingSpends(e, before.rootPlayer, caps, jobs[i]);
    assert (order + [i])[..|order|] == order;
  }

  /** What an exception leaves in the arena: the states that the rows before it kept, and the
      one that the throwing row had just allocated; nothing at all exactly when no row took a
      slot. */
  lemma ThrowLeaves(e: Engine, caps: Caps, jobs: seq<Job>, before: Lane, order: seq<nat>, i: nat, throws: Throw)
    requires OrderOk(order, |jobs|) && Roomy(before, order) && |before.slots| + |order| < before.maxSlots && i < |jobs|
    requires ThrowsIn(e, caps, Fold(e, caps, jobs, before, order), jobs[i], i, throws)
    ensures var b := Fold(e, caps, jobs, before, order);
            var after := LaneAtThrow(e, caps, b, jobs[i], i, throws);
            var one := LeavesOne(e, before.rootPlayer, caps, jobs, order, i, throws);
      && Valid(after) && GrownFrom(before, after)
      && after.live == before.live + |KeptRows(e, before.rootPlayer, caps, jobs, order)| + (if one then 1 else 0)
      && (after == before <==> TookSlots(e, before.rootPlayer, caps, jobs, order) == {} && !one)
  {
    hide Fold, Honest, Allocates, Observes, Interrupted, Live, OwnHandles, GrownFrom, RowsOf, TakesSlot, KeptRows,
         TookSlots, MarkAfter;
    var b := Fold(e, caps, jobs, before, order);
    FoldOk(e, before, caps, jobs, order);
    FoldStays(e, caps, jobs, before, order);
    FoldSlots(e, caps, jobs, before, order);
    FoldLive(e, caps, jobs, before, order);
    FoldMarks(e, caps, jobs, before, order);
    assert (order + [i])[..|order|] == order;
    MarkDecides(e, before.rootPlayer, caps, jobs, order + [i]);
    if throws.Observing? {
      var ops := InterruptedKeeps(e, b.lane, jobs[i], caps, b.steps, b.scratch);
      GrowsFurther(before, b.lane, Interrupted(e, b.lane, jobs[i], caps, b.steps), ops);
    }
  }
}
