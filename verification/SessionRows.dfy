/** What the reader of a session row learns, integer by integer: where its action led, what may be
    seen there, and whether the state was kept. */
module SessionRows {
  import opened Common
  import opened Bytes
  import opened TransitionModel
  import opened ForcedPaths
  import opened SessionModel
  import opened SessionTransition
  import opened SessionBatch
  import opened SessionPayload

  ghost predicate PlaysOutFrom(e: Engine, rootPlayer: int, caps: Caps, job: Job, path: seq<Slot>) {
    PlaysOut(e, rootPlayer, true, job.root, job.rng, job.action, path) && |path| <= 1 + caps.maxForcedSteps
  }

  /** A row with error 0 tells of the leaf its action plays out to, under the strict rule. */
  ghost predicate RowTells(e: Engine, l: Lane, caps: Caps, scratch: bytes, job: Job, cell: CellMetadata,
                           path: seq<Slot>)
  {
    && PlaysOutFrom(e, l.rootPlayer, caps, job, path) && job.root.state.Some?
    && var leaf, row := path[|path| - 1], MetadataInts(cell);
       var seen := e.observe(leaf.state, l.rootPlayer, e.prompt(job.root.state.value).logs);
       && RowSays(e, l.rootPlayer, row, leaf.state, |path| - 1, |seen|)
       && 0 <= row[8] && row[8] + |seen| <= |scratch| && scratch[row[8]..row[8] + |seen|] == seen
  }

  /** Its last two integers name a state of the session exactly if it has no error and stands at a
      coin or at a prompt of the root player that is not a main prompt; the state there is the leaf,
      with the random stream it was reached with. */
  ghost predicate RowHolds(l: Lane, row: seq<int>, leaf: Option<Slot>)
    requires |row| == METADATA_WIDTH
  {
    if row[0] == 0 && (row[2] == 4 || row[2] == 5) then
      row[12] == l.active && 0 <= row[13] < |l.slots| && l.slots[row[13]] == leaf && leaf.Some?
    else row[12] == -1 && row[13] == -1
  }

  /** Every filled row of a batch tells the truth: with error 0 its action plays out and it says
      where; with another error it says nothing of a leaf. */
  lemma EveryRowTells(e: Engine, l: Lane, caps: Caps, scratch: bytes, mark: Mark, job: Job, cell: CellMetadata)
    returns (path: seq<Slot>)
    requires Honest(e, l, caps, scratch, mark, job, cell)
    ensures cell.error == 0 ==> RowTells(e, l, caps, scratch, job, cell, path)
    ensures cell.error != 0 ==> MetadataInts(cell)[1] == 0 && MetadataInts(cell)[2] == 0 && MetadataInts(cell)[9] == 0
    ensures RowHolds(l, MetadataInts(cell), if cell.error == 0 then Some(path[|path| - 1]) else None)
  {
    hide Consequence, FreeOf, EndpointFor, CountsSteps, StandsAt, Passes, Stops;
    path := [];
    if cell.error == 0 {
      var leaf := FreeOf(e, l.rootPlayer, caps, job).leaf.value;
      path := ConsequencePlaysOut(e, l.rootPlayer, true, job.root, job.rng, job.action, leaf, cell.forcedSteps);
      EndpointStands(e, e.prompt(leaf.state), l.rootPlayer);
    }
  }

  /** What a row needs when nothing stops it is the length of the walk its action plays out along, and
      it finishes exactly if there is one. */
  lemma FreePlaysOut(e: Engine, rootPlayer: int, caps: Caps, job: Job)
    ensures var free := FreeOf(e, rootPlayer, caps, job);
      && (free.failure.Fine? <==> exists path :: PlaysOutFrom(e, rootPlayer, caps, job, path))
      && (forall path :: PlaysOutFrom(e, rootPlayer, caps, job, path) ==>
            free.used == |path| && free.leaf == Some(path[|path| - 1]))
  {
    hide Consequence, PlaysOut, Transition;
    var free := FreeOf(e, rootPlayer, caps, job);
    if free.failure.Fine? {
      TransitionShape(e, rootPlayer, true, caps.maxForcedSteps, caps.maxForcedSteps + 1, job.root, job.rng, job.action);
      TransitionSucceeds(e, rootPlayer, true, caps.maxForcedSteps, caps.maxForcedSteps + 1, job.root, job.rng,
                         job.action, free.leaf.value, free.forced);
      var path := ConsequencePlaysOut(e, rootPlayer, true, job.root, job.rng, job.action, free.leaf.value, free.forced);
      assert PlaysOutFrom(e, rootPlayer, caps, job, path);
    }
    forall path | PlaysOutFrom(e, rootPlayer, caps, job, path)
      ensures path != [] && free.failure.Fine? && free.used == |path| && free.leaf == Some(path[|path| - 1])
    {
      WalkNotEmpty(e, rootPlayer, caps, job, path);
      PlaysOutIsConsequence(e, rootPlayer, true, job.root, job.rng, job.action, path);
      TransitionSucceeds(e, rootPlayer, true, caps.maxForcedSteps, caps.maxForcedSteps + 1, job.root, job.rng,
                         job.action, path[|path| - 1], |path| - 1);
    }
  }

  lemma WalkNotEmpty(e: Engine, rootPlayer: int, caps: Caps, job: Job, path: seq<Slot>)
    requires PlaysOutFrom(e, rootPlayer, caps, job, path)
    ensures path != []
  {
  }
}
