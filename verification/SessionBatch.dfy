/** A batch of transitions against one arena, in any row order: what holds of the rows
    filled so far, and that one more row keeps it. */
module SessionBatch {
  import opened Bytes
  import opened TransitionModel
  import opened SessionModel
  import opened SessionTransition

  /** The state of a call: the lane, what is spent, the rows, and where each row started. */
  datatype Batch = Batch(lane: Lane, steps: nat, scratch: bytes, rows: seq<CellMetadata>, marks: seq<Mark>)

  function HeldRows(rows: seq<CellMetadata>): set<int> {
    set i | 0 <= i < |rows| && Holds(rows[i])
  }

  /** Engine steps accounted for by the successful rows. */
  function Accounted(rows: seq<CellMetadata>): nat {
    if rows == [] then 0
    else
      var last := rows[|rows| - 1];
      Accounted(rows[..|rows| - 1]) + (if last.error == 0 then last.transitionSteps else 0)
  }

  /** Observation bytes the rows claim. */
  function Observed(rows: seq<CellMetadata>): nat {
    if rows == [] then 0 else Observed(rows[..|rows| - 1]) + rows[|rows| - 1].observationSize
  }

  lemma {:induction false} AccountedUpdate(rows: seq<CellMetadata>, i: nat, cell: CellMetadata)
    requires i < |rows| && rows[i] == FRESH_CELL
    ensures Accounted(rows[i := cell]) == Accounted(rows) + (if cell.error == 0 then cell.transitionSteps else 0)
    ensures Observed(rows[i := cell]) == Observed(rows) + cell.observationSize
  {
    var n := |rows| - 1;
    if i == n {
      assert rows[i := cell][..n] == rows[..n];
    } else {
      AccountedUpdate(rows[..n], i, cell);
      assert rows[i := cell][..n] == rows[..n][i := cell];
    }
  }

  lemma HeldUpdate(rows: seq<CellMetadata>, i: nat, cell: CellMetadata)
    requires i < |rows| && rows[i] == FRESH_CELL
    ensures |HeldRows(rows[i := cell])| == |HeldRows(rows)| + (if Holds(cell) then 1 else 0)
  {
    var updated := rows[i := cell];
    if Holds(cell) {
      assert HeldRows(updated) == HeldRows(rows) + {i};
    } else {
      assert HeldRows(updated) == HeldRows(rows);
    }
  }

  /** Every retained row has a handle of its own, given out by this batch. */
  ghost predicate OwnHandles(before: Lane, after: Lane, rows: seq<CellMetadata>) {
    && (forall i :: 0 <= i < |rows| && Holds(rows[i]) ==>
          !Issued(before, HandleOf(rows[i])) && Issued(after, HandleOf(rows[i])))
    && (forall i, j :: 0 <= i < j < |rows| && Holds(rows[i]) && Holds(rows[j]) ==>
        HandleOf(rows[i]) != HandleOf(rows[j]))
  }

  /** The arena after the batch is the one before it plus the states of the retained rows:
      nothing older was touched and nothing was leaked. */
  ghost predicate ArenaGrew(before: Lane, after: Lane, rows: seq<CellMetadata>, cells: nat) {
    && Valid(after) && SameSession(before, after)
    && |before.slots| <= |after.slots| <= |before.slots| + cells
    && after.live == before.live + |HeldRows(rows)|
    && OwnHandles(before, after, rows)
    && GrownFrom(before, after)
  }

  /** Reached by arena steps that leave every earlier handle alone. */
  ghost predicate GrownFrom(before: Lane, after: Lane) {
    exists ops :: after == Run(before, ops) && KeepsHandles(ops, before)
  }

  lemma GrownKeeps(before: Lane, after: Lane, h: Handle)
    requires Valid(before) && GrownFrom(before, after)
    ensures Get(before, h).Some? ==> Issued(before, h)
    ensures Issued(before, h) ==> Issued(after, h) && Get(after, h) == Get(before, h)
  {
    var ops :| after == Run(before, ops) && KeepsHandles(ops, before);
    HandleStays(before, ops, h);
  }

  lemma GrowsFurther(before: Lane, middle: Lane, after: Lane, ops: seq<Op>)
    requires Valid(before) && GrownFrom(before, middle) && after == Run(middle, ops) && KeepsHandles(ops, middle)
    ensures GrownFrom(before, after)
  {
    hide Run, Valid, Issued;
    var first :| middle == Run(before, first) && KeepsHandles(first, before);
    RunAppend(before, first, ops);
    forall h | Release(h) in ops ensures !Issued(before, h) {
      if Issued(before, h) {
        HandleStays(before, first, h);
      }
    }
    assert KeepsHandles(first + ops, before);
  }

  ghost predicate BatchOk(e: Engine, before: Lane, caps: Caps, jobs: seq<Job>, b: Batch, done: set<int>) {
    && |b.rows| == |jobs| && |b.marks| == |jobs|
    && Within(caps, b.steps, b.scratch) && Accounted(b.rows) <= b.steps && Observed(b.rows) == |b.scratch|
    && ArenaGrew(before, b.lane, b.rows, |done|)
    && (forall i :: i in done ==> 0 <= i < |jobs| && Honest(e, b.lane, caps, b.scratch, b.marks[i], jobs[i], b.rows[i]))
    && (forall i :: 0 <= i < |jobs| && i !in done ==> b.rows[i] == FRESH_CELL)
  }

  lemma {:induction false} FreshRows(rows: seq<CellMetadata>)
    requires forall i :: 0 <= i < |rows| ==> rows[i] == FRESH_CELL
    ensures Accounted(rows) == 0 && Observed(rows) == 0 && HeldRows(rows) == {}
  {
    if rows != [] {
      FreshRows(rows[..|rows| - 1]);
    }
  }

  /** A call before its first row. */
  function Fresh(lane: Lane, n: nat): Batch {
    Batch(lane, 0, [], seq(n, i => FRESH_CELL), seq(n, i => Mark(0, 0)))
  }

  lemma BatchStarts(e: Engine, before: Lane, caps: Caps, jobs: seq<Job>)
    requires Valid(before)
    ensures BatchOk(e, before, caps, jobs, Fresh(before, |jobs|), {})
  {
    hide Valid, Honest;
    FreshRows(Fresh(before, |jobs|).rows);
    assert before == Run(before, []) && KeepsHandles([], before);
  }

  /** An honest row stays honest while later transitions run. */
  lemma HonestStays(e: Engine, l: Lane, m: Lane, ops: seq<Op>, caps: Caps, scratch: bytes, more: bytes, mark: Mark,
                    job: Job, cell: CellMetadata)
    requires Valid(l) && SameSession(l, m) && m == Run(l, ops) && KeepsHandles(ops, l) && scratch <= more
    requires Honest(e, l, caps, scratch, mark, job, cell)
    ensures Honest(e, m, caps, more, mark, job, cell)
  {
    hide Consequence, FreeOf, EndpointFor, DescribesLeaf, CountsSteps, DecidedError, KeepsState, Run, Valid, Issued;
    if cell.error == 0 {
      var leaf := FreeOf(e, l.rootPlayer, caps, job).leaf.value;
      if Holds(cell) {
        HandleStays(l, ops, HandleOf(cell));
      }
      assert Reports(e, m, more, job, cell, leaf);
    }
  }

  lemma HandleStays(l: Lane, ops: seq<Op>, h: Handle)
    requires Valid(l) && KeepsHandles(ops, l)
    ensures Get(l, h).Some? ==> Issued(l, h)
    ensures Issued(l, h) ==> Issued(Run(l, ops), h) && Get(Run(l, ops), h) == Get(l, h)
  {
    StepHandle(l, Reset, h);
    if Issued(l, h) {
      HandlesNeverAlias(l, ops, h);
    }
  }

  function Next(b: Batch, i: nat, r: Effect): Batch
    requires i < |b.rows| && |b.marks| == |b.rows|
  {
    Batch(r.lane, r.steps, r.scratch, b.rows[i := r.cell], b.marks[i := Mark(b.steps, |b.scratch|)])
  }

  lemma ArenaExtends(before: Lane, b: Batch, caps: Caps, cells: nat, i: nat, r: Effect, ops: seq<Op>)
    requires i < |b.rows| && b.rows[i] == FRESH_CELL && Valid(before) && Valid(b.lane) && b.lane.active != 0
    requires ArenaGrew(before, b.lane, b.rows, cells) && Keeps(b.lane, caps, b.scratch, r, ops)
    ensures ArenaGrew(before, r.lane, b.rows[i := r.cell], cells + 1)
  {
    hide Live, Run, HeldRows, KeepsHandles, GrownFrom;
    HeldUpdate(b.rows, i, r.cell);
    GrowsFurther(before, b.lane, r.lane, ops);
    HandlesExtend(before, b, i, r, ops);
  }

  lemma HandlesExtend(before: Lane, b: Batch, i: nat, r: Effect, ops: seq<Op>)
    requires i < |b.rows| && b.rows[i] == FRESH_CELL && Valid(b.lane) && b.lane.active != 0
    requires OwnHandles(before, b.lane, b.rows) && r.lane == Run(b.lane, ops) && KeepsHandles(ops, b.lane)
    requires before.last == b.lane.last && before.active == b.lane.active && |before.slots| <= |b.lane.slots|
    requires SameSession(b.lane, r.lane)
    requires Holds(r.cell) ==>
      HandleOf(r.cell) == Handle(b.lane.active, |b.lane.slots|) && |r.lane.slots| == |b.lane.slots| + 1
    ensures OwnHandles(before, r.lane, b.rows[i := r.cell])
  {
    hide Live, Run, Get, KeepsHandles;
    forall k | 0 <= k < |b.rows| && Holds(b.rows[k]) ensures Issued(r.lane, HandleOf(b.rows[k])) {
      HandleStays(b.lane, ops, HandleOf(b.rows[k]));
    }
  }

  /** One more row of the batch. */
  lemma BatchExtends(e: Engine, before: Lane, caps: Caps, jobs: seq<Job>, b: Batch, done: set<int>, i: nat)
    requires BatchOk(e, before, caps, jobs, b, done) && i < |jobs| && i !in done
    requires Valid(before) && before.active != 0 && |before.slots| + |done| < before.maxSlots
    ensures BatchOk(e, before, caps, jobs, Next(b, i, Execute(e, b.lane, jobs[i], caps, b.steps, b.scratch)),
                    done + {i})
  {
    hide Honest, Execute, Live, Run, OwnHandles, Get, Issued, GrownFrom;
    var r := Execute(e, b.lane, jobs[i], caps, b.steps, b.scratch);
    var ops := ExecuteKeeps(e, b.lane, jobs[i], caps, b.steps, b.scratch);
    ArenaExtends(before, b, caps, |done|, i, r, ops);
    AccountedUpdate(b.rows, i, r.cell);
    forall k | k in done ensures Honest(e, r.lane, caps, r.scratch, b.marks[k], jobs[k], b.rows[k]) {
      HonestStays(e, b.lane, r.lane, ops, caps, b.scratch, r.scratch, b.marks[k], jobs[k], b.rows[k]);
    }
  }
}
