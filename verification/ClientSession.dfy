/** Every answer of a session call passes the client's validation. */
module ClientSession {
  import opened Common
  import opened Bytes
  import opened TransitionModel
  import opened ForcedPaths
  import opened SessionModel
  import opened SessionTransition
  import opened SessionBatch
  import opened GridOrder
  import opened SessionFold
  import opened SessionPayload
  import opened SessionRows
  import opened ClientCheck
  import opened Wire

  // ---------------------------------------------------------------- one row

  /** The columns that describe a leaf are in range, whether the row succeeds or not. */
  predicate InRange(cell: CellMetadata) {
    -1 <= cell.leafPlayer <= 1 && -1 <= cell.leafContext <= LAST_CONTEXT
        && -1 <= cell.leafSelectType <= LAST_SELECT_TYPE
    && -1 <= cell.result <= 2
  }

  lemma LeafInRange(e: Engine, cell: CellMetadata, rootPlayer: int, leaf: State)
    requires Conforms(e)
    ensures InRange(LeafCell(e, cell, rootPlayer, leaf))
  {
    hide EndpointFor;
  }

  /** What every executed row has in common. */
  lemma ExecutedColumns(e: Engine, lane: Lane, job: Job, caps: Caps, steps: nat, scratch: bytes)
    requires Conforms(e) && job.root.error >= 0
    ensures var cell := Execute(e, lane, job, caps, steps, scratch).cell;
      && cell.rootPlayer == lane.rootPlayer && cell.error >= 0 && InRange(cell)
      && cell.forcedSteps <= caps.maxForcedSteps && cell.transitionSteps <= caps.maxForcedSteps + 1
      && cell.forcedSteps <= Max(cell.transitionSteps - 1, 0)
      && (cell.error != 0 ==> !cell.rulesExact && cell.endpoint == Invalid && cell.observationSize == 0)
  {
    hide Conforms, Transition, InRange, LeafCell;
    var budget := Max(0, caps.maxEngineSteps - steps);
    var t := Transition(e, lane.rootPlayer, true, caps.maxForcedSteps, budget, job.root, job.rng, job.action);
    TransitionErrors(e, lane.rootPlayer, true, caps.maxForcedSteps, budget, job.root, job.rng, job.action);
    var blank := FRESH_CELL.(rootPlayer := lane.rootPlayer, transitionSteps := t.steps, forcedSteps := t.forced);
    FreshInRange(blank);
    if t.failure.Fine? && t.leaf.Some? && job.root.state.Some? {
      var cell := LeafCell(e, blank, lane.rootPlayer, t.leaf.value.state);
      LeafInRange(e, blank, lane.rootPlayer, t.leaf.value.state);
      LeafKeepsColumns(e, blank, lane.rootPlayer, t.leaf.value.state);
      SettledColumns(e, lane, job.root.state.value, t.leaf.value, caps, steps + t.used, scratch, cell);
    }
  }

  lemma FreshInRange(cell: CellMetadata)
    requires cell.leafPlayer == cell.leafContext == cell.leafSelectType == cell.result == -1
    ensures InRange(cell) && forall code: int32 :: InRange(cell.(error := code))
  {
  }

  lemma LeafKeepsColumns(e: Engine, cell: CellMetadata, rootPlayer: int, leaf: State)
    ensures var c := LeafCell(e, cell, rootPlayer, leaf);
      && c.rootPlayer == cell.rootPlayer && c.error == cell.error && c.forcedSteps == cell.forcedSteps
      && c.transitionSteps == cell.transitionSteps && c.observationSize == cell.observationSize
  {
    hide EndpointFor;
  }

  lemma SettledColumns(e: Engine, lane: Lane, root: State, leaf: Slot, caps: Caps, steps: nat, scratch: bytes,
                       cell: CellMetadata)
    requires InRange(cell) && cell.error == 0 && cell.observationSize == 0
    ensures var c := Settle(e, lane, root, leaf, caps, steps, scratch, cell).cell;
      && c.rootPlayer == cell.rootPlayer && c.error >= 0 && InRange(c) && c.forcedSteps == cell.forcedSteps
      && c.transitionSteps == cell.transitionSteps
      && (c.error != 0 ==> !c.rulesExact && c.endpoint == Invalid && c.observationSize == 0)
  {
    hide Retained, Accepts, Step;
  }

  /** A row with an error is valid, wherever its place in the blob. */
  lemma FailingIsValid(e: Engine, lane: Lane, job: Job, caps: Caps, steps: nat, scratch: bytes, offset: nat)
    requires Conforms(e) && 0 <= lane.rootPlayer <= 1 && job.root.error >= 0
    requires Execute(e, lane, job, caps, steps, scratch).cell.error != 0
    ensures var cell := Execute(e, lane, job, caps, steps, scratch).cell.(observationOffset := offset);
      RowValid(MetadataInts(cell), lane.rootPlayer, caps.maxForcedSteps)
  {
    hide Conforms, Execute;
    ExecutedColumns(e, lane, job, caps, steps, scratch);
  }

  lemma FilledIsValid(e: Engine, l: Lane, caps: Caps, scratch: bytes, mark: Mark, job: Job, cell: CellMetadata,
                      offset: nat)
    requires Conforms(e) && 0 <= l.rootPlayer <= 1 && cell.error == 0
    requires Honest(e, l, caps, scratch, mark, job, cell)
    ensures RowValid(MetadataInts(cell.(observationOffset := offset)), l.rootPlayer, caps.maxForcedSteps)
  {
    hide Honest, Conforms, RowValid, StandsAt, IsWalk, Stops;
    var path := EveryRowTells(e, l, caps, scratch, mark, job, cell);
    var leaf := path[|path| - 1];
    var seen := e.observe(leaf.state, l.rootPlayer, e.prompt(job.root.state.value).logs);
    NeverEmpty(e, leaf.state, l.rootPlayer, e.prompt(job.root.state.value).logs);
    TellingIsValid(e, l.rootPlayer, caps.maxForcedSteps, MetadataInts(cell.(observationOffset := offset)), leaf.state,
                   |path| - 1, |seen|);
  }

  /** The handle columns of a row. */
  lemma HandleColumns(e: Engine, l: Lane, caps: Caps, scratch: bytes, mark: Mark, job: Job, cell: CellMetadata,
                      offset: nat)
    requires Honest(e, l, caps, scratch, mark, job, cell) && l.active > 0
    ensures var row := MetadataInts(cell.(observationOffset := offset));
      && row[12] >= -1 && row[13] >= -1 && (row[12] >= 0 <==> row[13] >= 0)
      && (NeedsHandle(row) <==> row[13] >= 0) && (NeedsHandle(row) ==> row[12] == l.active)
      && (NeedsHandle(row) <==> Holds(cell))
  {
    hide Honest, RowTells;
    var path := EveryRowTells(e, l, caps, scratch, mark, job, cell);
  }

  // ---------------------------------------------------------------- the whole answer

  /** The integers the client reads of an answer. */
  function Table(rows: seq<CellMetadata>): (table: seq<seq<int>>)
    ensures |table| == |rows| && forall i :: 0 <= i < |rows| ==> table[i] == MetadataInts(rows[i])
  {
    seq(|rows|, i requires 0 <= i < |rows| => MetadataInts(rows[i]))
  }

  /** A finished call, all its rows executed in some order. */
  ghost predicate Finished(e: Engine, caps: Caps, jobs: seq<Job>, before: Lane, order: seq<nat>) {
    && OrderOk(order, |jobs|) && Roomy(before, order) && RowsOf(order) == Everything(|jobs|) && jobs != []
    && 0 <= before.rootPlayer <= 1 && before.active > 0
    && forall i :: 0 <= i < |jobs| ==> jobs[i].root.error >= 0
  }

  lemma RowIsValid(e: Engine, caps: Caps, jobs: seq<Job>, before: Lane, order: seq<nat>, i: nat, offset: nat)
    requires Conforms(e) && Finished(e, caps, jobs, before, order) && i < |jobs|
    ensures var b := Fold(e, caps, jobs, before, order);
            var row := MetadataInts(b.rows[i].(observationOffset := offset));
      && RowValid(row, before.rootPlayer, caps.maxForcedSteps)
      && row[12] >= -1 && row[13] >= -1 && (row[12] >= 0 <==> row[13] >= 0)
      && (NeedsHandle(row) <==> row[13] >= 0) && (NeedsHandle(row) ==> row[12] == before.active)
      && (NeedsHandle(row) <==> Holds(b.rows[i]))
  {
    hide Fold, Honest, RowValid, NeedsHandle, MetadataInts, Execute, Live, RowsOf, OwnHandles, GrownFrom;
    var b := Fold(e, caps, jobs, before, order);
    FoldOk(e, before, caps, jobs, order);
    assert i in Everything(|jobs|);
    HandleColumns(e, b.lane, caps, b.scratch, b.marks[i], jobs[i], b.rows[i], offset);
    if b.rows[i].error == 0 {
      FilledIsValid(e, b.lane, caps, b.scratch, b.marks[i], jobs[i], b.rows[i], offset);
    } else {
      var k := PlaceIn(order, |jobs|, i);
      FoldRowAt(e, caps, jobs, before, order, k);
      var p := Fold(e, caps, jobs, before, order[..k]);
      PrefixStays(e, caps, jobs, before, order, k);
      FailingIsValid(e, p.lane, jobs[i], caps, p.steps, p.scratch, offset);
    }
  }

  lemma PlaceIn(order: seq<nat>, n: nat, i: nat) returns (k: nat)
    requires OrderOk(order, n) && i in RowsOf(order)
    ensures k < |order| && order[k] == i
  {
    k :| k < |order| && order[k] == i;
  }

  lemma PrefixStays(e: Engine, caps: Caps, jobs: seq<Job>, before: Lane, order: seq<nat>, k: nat)
    requires OrderOk(order, |jobs|) && Roomy(before, order) && k <= |order|
    ensures Fold(e, caps, jobs, before, order[..k]).lane.rootPlayer == before.rootPlayer
  {
    hide Fold;
    FoldStays(e, caps, jobs, before, order[..k]);
  }

  lemma {:induction false} OffsetsAreSums(table: seq<seq<int>>, total: int, n: nat)
    requires n <= |table| && table != [] && forall i :: 0 <= i < |table| ==> |table[i]| == 14
    requires table[0][8] == 0 && forall i :: 0 <= i < |table| ==> Follows(table, total, i)
    ensures ColumnSum(table, 9, n) == if n < |table| then table[n][8] else total
  {
    if n > 0 {
      OffsetsAreSums(table, total, n - 1);
      assert Follows(table, total, n - 1);
    }
  }

  /** A slice ends where the next one begins, the last one at the end. */
  predicate Follows(table: seq<seq<int>>, total: int, i: nat)
    requires i < |table| && forall k :: 0 <= k < |table| ==> |table[k]| == 14
  {
    table[i][8] + table[i][9] == if i + 1 < |table| then table[i + 1][8] else total
  }

  /** The slices of a payload's rows, one after the other. */
  ghost predicate Tiles(rows: seq<CellMetadata>, p: Payload) {
    |p.rows| == |rows| && forall i :: 0 <= i < |rows| ==> TileAt(rows, p, i)
  }

  ghost predicate TileAt(rows: seq<CellMetadata>, p: Payload, i: nat)
    requires i < |rows| == |p.rows|
  {
    var end := p.rows[i].observationOffset + p.rows[i].observationSize;
    && p.rows[0].observationOffset == 0 && p.rows[i] == rows[i].(observationOffset := p.rows[i].observationOffset)
    && end == (if i + 1 < |rows| then p.rows[i + 1].observationOffset else |p.observations|)
    && end <= |p.observations|
  }

  lemma PayloadTiles(kind: int, generation: int, request: bytes, producer: bytes, rows: seq<CellMetadata>,
                     scratch: bytes)
    requires SlicesOk(scratch, SlicesOf(rows))
    ensures Tiles(rows, RebasedPayload(kind, generation, request, producer, rows, scratch))
  {
    hide SlicesOk, SlicesOf, RebasedPayload;
    var p := RebasedPayload(kind, generation, request, producer, rows, scratch);
    RebasedShape(kind, generation, request, producer, rows, scratch);
    forall i | 0 <= i < |rows| ensures TileAt(rows, p, i) {
      RebasedRowsTile(kind, generation, request, producer, rows, scratch, i);
    }
  }

  lemma RebasedShape(kind: int, generation: int, request: bytes, producer: bytes, rows: seq<CellMetadata>,
                     scratch: bytes)
    requires SlicesOk(scratch, SlicesOf(rows))
    ensures |RebasedPayload(kind, generation, request, producer, rows, scratch).rows| == |rows|
  {
  }

  lemma SlicesAreValid(rows: seq<CellMetadata>, p: Payload)
    requires Tiles(rows, p) && rows != []
    ensures var table := Table(p.rows);
      && (forall i :: 0 <= i < |table| ==>
            table[i][8] + table[i][9] <= |p.observations| && table[i][8] == ColumnSum(table, 9, i))
      && ColumnSum(table, 9, |table|) == |p.observations|
  {
    hide ColumnSum;
    var table := Table(p.rows);
    assert TileAt(rows, p, 0);
    forall i | 0 <= i < |table| ensures Follows(table, |p.observations|, i) {
      assert TileAt(rows, p, i);
    }
    forall i | 0 <= i < |table|
      ensures table[i][8] + table[i][9] <= |p.observations| && table[i][8] == ColumnSum(table, 9, i)
    {
      assert TileAt(rows, p, i);
      OffsetsAreSums(table, |p.observations|, i);
    }
    OffsetsAreSums(table, |p.observations|, |table|);
  }

  /** Two rows that hold states hold different ones. */
  lemma SlotsDiffer(e: Engine, caps: Caps, jobs: seq<Job>, before: Lane, order: seq<nat>, i: nat, j: nat)
    requires Conforms(e) && Finished(e, caps, jobs, before, order) && i < j < |jobs|
    ensures var rows := Fold(e, caps, jobs, before, order).rows;
      Holds(rows[i]) && Holds(rows[j]) ==> rows[i].stateSlot != rows[j].stateSlot
  {
    hide Fold, Honest, Live, RowsOf, GrownFrom, RowValid, Conforms;
    FoldOk(e, before, caps, jobs, order);
    var rows := Fold(e, caps, jobs, before, order).rows;
    if Holds(rows[i]) && Holds(rows[j]) {
      RowIsValid(e, caps, jobs, before, order, i, 0);
      RowIsValid(e, caps, jobs, before, order, j, 0);
      assert HandleOf(rows[i]) != HandleOf(rows[j]);
    }
  }

  /** The client accepts every answer of a session call: each row is valid, the observations lie end to
      end in row order over the whole blob, and exactly the rows that stand at a coin or at a prompt of
      the root player name a state of this generation, no two the same. */
  lemma AnswerIsValid(e: Engine, caps: Caps, jobs: seq<Job>, before: Lane, order: seq<nat>, kind: int, request: bytes,
                      producer: bytes)
    requires Conforms(e) && Finished(e, caps, jobs, before, order)
    requires SlicesOk(Fold(e, caps, jobs, before, order).scratch, SlicesOf(Fold(e, caps, jobs, before, order).rows))
    ensures var b := Fold(e, caps, jobs, before, order);
            var p := RebasedPayload(kind, before.active, request, producer, b.rows, b.scratch);
      SessionValid(Table(p.rows), before.active, |p.observations|, before.rootPlayer, caps.maxForcedSteps)
  {
    hide Fold, RowValid, NeedsHandle, SlicesOk, SlicesOf, RebasedPayload, Holds, ColumnSum, MetadataInts;
    var b := Fold(e, caps, jobs, before, order);
    var p := RebasedPayload(kind, before.active, request, producer, b.rows, b.scratch);
    PayloadTiles(kind, before.active, request, producer, b.rows, b.scratch);
    SlicesAreValid(b.rows, p);
    var table := Table(p.rows);
    forall i | 0 <= i < |table|
      ensures RowValid(table[i], before.rootPlayer, caps.maxForcedSteps)
      ensures table[i][12] >= -1 && table[i][13] >= -1 && (table[i][12] >= 0 <==> table[i][13] >= 0)
      ensures NeedsHandle(table[i]) <==> table[i][13] >= 0
      ensures NeedsHandle(table[i]) ==> table[i][12] == before.active
      ensures (NeedsHandle(table[i]) <==> Holds(b.rows[i])) && table[i][13] == b.rows[i].stateSlot
    {
      assert TileAt(b.rows, p, i);
      RowIsValid(e, caps, jobs, before, order, i, p.rows[i].observationOffset);
      SlotColumn(b.rows[i], p.rows[i].observationOffset);
    }
    forall i, j | 0 <= i < j < |table| && NeedsHandle(table[i]) && NeedsHandle(table[j])
      ensures table[i][13] != table[j][13]
    {
      SlotsDiffer(e, caps, jobs, before, order, i, j);
    }
  }

  lemma SlotColumn(cell: CellMetadata, offset: nat)
    ensures MetadataInts(cell.(observationOffset := offset))[13] == cell.stateSlot
  {
  }
}
