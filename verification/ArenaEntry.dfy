/** The entry points of the arena: step, reset and clear, and what a published batch leaves. */
module ArenaEntry {
  import opened Common
  import opened PublicLogs
  import opened ArenaPlan
  import opened ArenaOutput
  import opened ArenaWrite
  import opened ArenaCommit
  import opened ArenaStep
  import opened ArenaCalls
  import opened RowEntry

  /** Publishing has one outcome for the rows entered, whatever the schedules were. */
  lemma PublishedIsUnique(c0: Contents, a: Contents, b: Contents, pending: seq<Pending>, slots: seq<nat>,
                          json: Renderer, entered: set<nat>)
    requires Published(c0, a, pending, slots, json, entered) && Published(c0, b, pending, slots, json, entered)
    ensures a == b
  {
    hide Written, BatchOk;
    var rows := RowsOf(pending);
    var g :| Committed(c0.slots, g, pending, slots) && BatchOk(rows, slots, g)
             && Written(c0.(slots := g), a, rows, slots, json, entered);
    var h :| Committed(c0.slots, h, pending, slots) && BatchOk(rows, slots, h)
             && Written(c0.(slots := h), b, rows, slots, json, entered);
    CommittedOnce(c0.slots, g, h, pending, slots);
    ResultIsUnique(c0.(slots := g), a, b, rows, slots, json, entered);
  }

  lemma CommittedOnce(before: seq<Option<BattleData>>, g: seq<Option<BattleData>>, h: seq<Option<BattleData>>,
                      pending: seq<Pending>, slots: seq<nat>)
    requires Committed(before, g, pending, slots) && Committed(before, h, pending, slots)
    ensures g == h
  {
    forall k: nat | k < |g| ensures g[k] == h[k] {
      if k in slots {
        var i :| 0 <= i < |slots| && slots[i] == k;
      }
    }
  }

  /** What publishing leaves in a slot: a committed game with its delta delivered, or with nothing
      delivered if its row was not written to the end, a failed row's game untouched, and every
      slot outside the batch as it was. */
  lemma SlotsAfterPublish(c0: Contents, c: Contents, pending: seq<Pending>, slots: seq<nat>, json: Renderer,
                          entered: set<nat>, k: nat)
    requires Published(c0, c, pending, slots, json, entered) && k < |c0.slots|
    ensures |c.slots| == |c0.slots|
    ensures k !in slots ==> c.slots[k] == c0.slots[k]
    ensures |pending| == |slots|
    ensures forall i :: 0 <= i < |slots| && slots[i] == k ==>
      && !CountThrows(pending[i].row) && RowOk(pending[i].row)
      && c.slots[k] == if i in Whole(RowsOf(pending), json, entered) then AfterOutput(pending[i].row)
                       else pending[i].row.data
  {
    hide Placed, ScalarsWritten, SlotsWritten, BatchOk, Written, Whole;
    var rows := RowsOf(pending);
    var g :| Committed(c0.slots, g, pending, slots) && BatchOk(rows, slots, g)
             && Written(c0.(slots := g), c, rows, slots, json, entered);
    WrittenHasSlots(c0.(slots := g), c, rows, slots, json, entered);
    SlotOfWritten(c0.(slots := g), c, rows, slots, json, Whole(rows, json, entered), k);
  }

  lemma WrittenHasSlots(c1: Contents, c: Contents, rows: seq<Row>, slots: seq<nat>, json: Renderer,
                        done: set<nat>)
    requires BatchOk(rows, slots, c1.slots) && Written(c1, c, rows, slots, json, done)
    ensures SlotsWritten(c1, c, rows, slots, json, Whole(rows, json, done))
  {
    hide BatchOk, Placed, ScalarsWritten, SlotsWritten, Whole;
  }

  lemma SlotOfWritten(c1: Contents, c: Contents, rows: seq<Row>, slots: seq<nat>, json: Renderer, whole: set<nat>,
                      k: nat)
    requires BatchOk(rows, slots, c1.slots) && SlotsWritten(c1, c, rows, slots, json, whole) && k < |c1.slots|
    ensures |c.slots| == |c1.slots| && |rows| == |slots|
    ensures k !in slots ==> c.slots[k] == c1.slots[k]
    ensures forall i :: 0 <= i < |slots| && slots[i] == k ==>
      && !CountThrows(rows[i]) && RowOk(rows[i])
      && c.slots[k] == if i in whole then AfterOutput(rows[i]) else rows[i].data
  {
    hide CountThrows, ObservationOf, AfterOutput, RowOk;
  }

  // ---------------------------------------------------------------- step

  predicate CsrOk(offsets: seq<nat>, actions: seq<int>, n: nat)
    requires |offsets| == n + 1
  {
    offsets[0] == 0 && offsets[n] == |actions| && forall i :: 0 <= i < n ==> offsets[i] <= offsets[i + 1]
  }

  lemma {:induction false} CsrMonotone(offsets: seq<nat>, actions: seq<int>, n: nat, i: nat)
    requires |offsets| == n + 1 && CsrOk(offsets, actions, n) && i <= n
    ensures offsets[i] <= |actions|
    decreases n - i
  {
    if i < n {
      CsrMonotone(offsets, actions, n, i + 1);
    }
  }

  predicate Initialized(games: seq<Option<BattleData>>, slots: seq<nat>) {
    forall i :: 0 <= i < |slots| ==> slots[i] < |games| && games[slots[i]].Some?
  }

  function ActionAt(offsets: seq<nat>, actions: seq<int>, n: nat, i: nat): seq<int>
    requires |offsets| == n + 1 && CsrOk(offsets, actions, n) && i < n
  {
    CsrMonotone(offsets, actions, n, i + 1);
    actions[offsets[i]..offsets[i + 1]]
  }

  /** The pending rows of a step, each from its own game and its own actions. */
  function StepPending(e: ArenaEngine, games: seq<Option<BattleData>>, slots: seq<nat>, offsets: seq<nat>,
                       actions: seq<int>): (p: seq<Pending>)
    requires |offsets| == |slots| + 1 && CsrOk(offsets, actions, |slots|) && Initialized(games, slots)
    ensures |p| == |slots|
  {
    seq(|slots|, i requires 0 <= i < |slots| =>
        PlayRow(e, games[slots[i]].value, ActionAt(offsets, actions, |slots|, i)))
  }

  method StepGame(e: ArenaEngine, source: BattleData, offsets: seq<nat>, actions: seq<int>, n: nat, row: nat)
    returns (item: Pending)
    requires |offsets| == n + 1 && CsrOk(offsets, actions, n) && row < n
    ensures item == PlayRow(e, source, ActionAt(offsets, actions, n, row))
  {
    if source.finished {
      return Pending(Row(Some(source), SLOT_FINISHED, ERROR_TERMINAL, 0), false);
    }
    var begin, end := offsets[row], offsets[row + 1];
    CsrMonotone(offsets, actions, n, row + 1);
    var selected: seq<int> := [];
    for action := begin to end
      invariant selected == actions[begin..action]
    {
      selected := selected + [actions[action]];
    }
    var selectError := e.select(source, selected);
    if selectError != 0 {
      return Pending(Row(Some(source), SLOT_ACTION_ERROR, selectError, 0), false);
    }
    var failed := Pending(Row(Some(source), SLOT_ENGINE_ERROR, ERROR_ENGINE_EXCEPTION, 0), false);
    var next := e.next(source, selected);
    if next.None? {
      return failed;
    }
    var chain := AdvanceForcedChain(e, next.value);
    if chain.None? || chain.value.1 == UINT32_MAX {
      return failed;
    }
    return Ready(chain.value.0, chain.value.1 + 1);
  }

  lemma StepPendingOk(e: ArenaEngine, games: seq<Option<BattleData>>, slots: seq<nat>, offsets: seq<nat>,
                      actions: seq<int>)
    requires |offsets| == |slots| + 1 && CsrOk(offsets, actions, |slots|) && Initialized(games, slots)
    requires EngineOk(e) && GamesOk(games)
    ensures PendingOk(StepPending(e, games, slots, offsets, actions), slots, games)
  {
    hide EngineOk, ActionAt, PlayRow;
    var p := StepPending(e, games, slots, offsets, actions);
    forall i | 0 <= i < |p| ensures RowOk(p[i].row) && (!p[i].commit ==> p[i].row.data == games[slots[i]]) {
      PlayedOk(e, games[slots[i]].value, ActionAt(offsets, actions, |slots|, i));
    }
  }

  lemma PlayedOk(e: ArenaEngine, game: BattleData, action: seq<int>)
    requires EngineOk(e) && CursorsOk(game.logs)
    ensures var p := PlayRow(e, game, action); RowOk(p.row) && (!p.commit ==> p.row.data == Some(game))
  {
    if PlayRow(e, game, action).commit {
      ChainExtends(e, e.next(game, action).value, 0);
    }
  }

  predicate StepArgumentsOk(games: seq<Option<BattleData>>, capacity: nat, slots: seq<nat>, offsets: seq<nat>,
                            actions: seq<int>)
    requires |offsets| == |slots| + 1
  {
    SlotsOk(slots, capacity) && CsrOk(offsets, actions, |slots|) && Initialized(games, slots)
  }

  /** A step changes nothing at all, or publishes every row of the batch; an exception of its
      writing pass comes after the games were committed. */
  method CgTrainStep(lane: CgTrainLane, out: ArenaOutput, e: ArenaEngine, slots: seq<nat>, offsets: seq<nat>,
                     actions: seq<int>, order: seq<nat>, late: set<nat>) returns (code: int)
    requires LaneOk(lane) && EngineOk(e) && |offsets| == |slots| + 1 && IsSchedule(order, |slots|)
    modifies lane, out, Columns(out)
    ensures !StepArgumentsOk(old(lane.slots), lane.capacity, slots, offsets, actions) ==>
      code == INVALID_ARGUMENT && ContentsOf(lane, out) == old(ContentsOf(lane, out)) && unchanged(out)
    ensures StepArgumentsOk(old(lane.slots), lane.capacity, slots, offsets, actions) ==>
      var pending := StepPending(e, old(lane.slots), slots, offsets, actions);
      && code == PublishCode(out, RowsOf(pending), e.json)
      && if PlanCode(out, RowsOf(pending)) != OK then
           ContentsOf(lane, out) == old(ContentsOf(lane, out)) && unchanged(out)
         else
           && Published(old(ContentsOf(lane, out)), ContentsOf(lane, out), pending, slots, e.json,
                        Entered(order, late, RowsOf(pending), e.json, |order|))
           && Plans(Plan(out.optionOffsets, out.cardOffsets, out.attachmentOffsets, out.logOffsets), RowsOf(pending))
    ensures LaneOk(lane)
  {
    hide EngineOk, PlayRow, ActionAt, Published, Plans, PlanCode, PublishCode, GamesOk, RowsOf, IsSchedule, Entered;
    var valid := HasUniqueValidSlots(lane, slots);
    if !valid || offsets[0] != 0 || offsets[|slots|] != |actions| {
      return INVALID_ARGUMENT;
    }
    if !CsrOk(offsets, actions, |slots|) || !Initialized(lane.slots, slots) {
      return INVALID_ARGUMENT;
    }
    var pending: seq<Pending> := [];
    ghost var wanted := StepPending(e, lane.slots, slots, offsets, actions);
    for row := 0 to |slots|
      invariant lane.slots == old(lane.slots) && ContentsOf(lane, out) == old(ContentsOf(lane, out)) && unchanged(out)
      invariant LaneOk(lane)
      invariant pending == wanted[..row]
    {
      var item := StepGame(e, lane.slots[slots[row]].value, offsets, actions, |slots|, row);
      assert item == wanted[row];
      pending := pending + [item];
    }
    assert pending == wanted;
    StepPendingOk(e, lane.slots, slots, offsets, actions);
    code := Publish(lane, out, pending, slots, order, late, e.json);
  }

  /** So an exception is no sign that nothing happened: a step of one game whose observation cannot
      be rendered reports one, and the slot holds the advanced game. */
  lemma ExceptionCommits(e: ArenaEngine, game: BattleData, next: BattleData, action: seq<int>, c0: Contents,
                         c: Contents)
    requires !game.finished && e.select(game, action) == 0 && e.next(game, action) == Some(next) && next != game
    requires (next.finished || next.selectMax != 0) && e.json(next).None? && c0.slots == [Some(game)]
    requires Published(c0, c, StepPending(e, c0.slots, [0], [0, |action|], action), [0], e.json, {0})
    ensures BatchThrows(RowsOf(StepPending(e, c0.slots, [0], [0, |action|], action)), e.json)
    ensures c.slots == [Some(next)] && c.slots != c0.slots
  {
    hide Published;
    var pending := StepPending(e, c0.slots, [0], [0, |action|], action);
    assert action[0..|action|] == action;
    SlotsAfterPublish(c0, c, pending, [0], e.json, {0}, 0);
    assert OutputThrows(RowsOf(pending)[0], e.json);
  }

  // ---------------------------------------------------------------- reset

  const DECK_PAIR: nat := 120

  function ResetPending(e: ArenaEngine, games: seq<Option<BattleData>>, slots: seq<nat>, decks: seq<int>,
                        seeds: seq<nat>): (p: seq<Pending>)
    requires |decks| == DECK_PAIR * |slots| && |seeds| == |slots| && forall i :: 0 <= i < |slots| ==> slots[i] < |games|
    ensures |p| == |slots|
  {
    seq(|slots|, i requires 0 <= i < |slots| =>
      ResetRow(e, decks[DECK_PAIR * i..DECK_PAIR * (i + 1)], seeds[i], games[slots[i]]))
  }

  method ResetGame(e: ArenaEngine, game: Option<BattleData>, decks: seq<int>, seed: nat) returns (item: Pending)
    ensures item == ResetRow(e, decks, seed, game)
  {
    var deckError := e.deckError(decks);
    if deckError != 0 {
      return Pending(Row(game, SLOT_RESET_ERROR, deckError, 0), false);
    }
    var failed := Pending(Row(game, SLOT_ENGINE_ERROR, ERROR_ENGINE_EXCEPTION, 0), false);
    var data := e.create(decks, seed);
    if data.None? {
      return failed;
    }
    var chain := AdvanceForcedChain(e, data.value);
    if chain.None? {
      return failed;
    }
    return Ready(chain.value.0, chain.value.1);
  }

  lemma ResetPendingOk(e: ArenaEngine, games: seq<Option<BattleData>>, slots: seq<nat>, decks: seq<int>,
                       seeds: seq<nat>)
    requires |decks| == DECK_PAIR * |slots| && |seeds| == |slots| && forall i :: 0 <= i < |slots| ==> slots[i] < |games|
    requires EngineOk(e) && GamesOk(games)
    ensures PendingOk(ResetPending(e, games, slots, decks, seeds), slots, games)
  {
    hide EngineOk, ResetRow;
    var p := ResetPending(e, games, slots, decks, seeds);
    forall i | 0 <= i < |p| ensures RowOk(p[i].row) && (!p[i].commit ==> p[i].row.data == games[slots[i]]) {
      ResetOk(e, decks[DECK_PAIR * i..DECK_PAIR * (i + 1)], seeds[i], games[slots[i]]);
    }
  }

  lemma ResetOk(e: ArenaEngine, decks: seq<int>, seed: nat, game: Option<BattleData>)
    requires EngineOk(e) && (game.Some? ==> CursorsOk(game.value.logs))
    ensures var p := ResetRow(e, decks, seed, game); RowOk(p.row) && (!p.commit ==> p.row.data == game)
  {
    if ResetRow(e, decks, seed, game).commit {
      ChainExtends(e, e.create(decks, seed).value, 0);
    }
  }

  /** A reset changes nothing at all, or publishes every row of the batch; an exception of its
      writing pass comes after the games were committed. */
  method CgTrainReset(lane: CgTrainLane, out: ArenaOutput, e: ArenaEngine, slots: seq<nat>, decks: seq<int>,
                      seeds: seq<nat>, order: seq<nat>, late: set<nat>) returns (code: int)
    requires LaneOk(lane) && EngineOk(e) && IsSchedule(order, |slots|)
    requires |decks| == DECK_PAIR * |slots| && |seeds| == |slots|
    modifies lane, out, Columns(out)
    ensures !SlotsOk(slots, lane.capacity) ==>
      code == INVALID_ARGUMENT && ContentsOf(lane, out) == old(ContentsOf(lane, out)) && unchanged(out)
    ensures SlotsOk(slots, lane.capacity) ==>
      var pending := ResetPending(e, old(lane.slots), slots, decks, seeds);
      && code == PublishCode(out, RowsOf(pending), e.json)
      && if PlanCode(out, RowsOf(pending)) != OK then
           ContentsOf(lane, out) == old(ContentsOf(lane, out)) && unchanged(out)
         else
           && Published(old(ContentsOf(lane, out)), ContentsOf(lane, out), pending, slots, e.json,
                        Entered(order, late, RowsOf(pending), e.json, |order|))
           && Plans(Plan(out.optionOffsets, out.cardOffsets, out.attachmentOffsets, out.logOffsets), RowsOf(pending))
    ensures LaneOk(lane)
  {
    hide EngineOk, ResetRow, Published, Plans, PlanCode, PublishCode, GamesOk, RowsOf, IsSchedule, Entered;
    var valid := HasUniqueValidSlots(lane, slots);
    if !valid {
      return INVALID_ARGUMENT;
    }
    var pending: seq<Pending> := [];
    ghost var wanted := ResetPending(e, lane.slots, slots, decks, seeds);
    for row := 0 to |slots|
      invariant lane.slots == old(lane.slots) && ContentsOf(lane, out) == old(ContentsOf(lane, out)) && unchanged(out)
      invariant LaneOk(lane)
      invariant pending == wanted[..row]
    {
      var item := ResetGame(e, lane.slots[slots[row]], decks[DECK_PAIR * row..DECK_PAIR * (row + 1)], seeds[row]);
      assert item == wanted[row];
      pending := pending + [item];
    }
    assert pending == wanted;
    ResetPendingOk(e, lane.slots, slots, decks, seeds);
    code := Publish(lane, out, pending, slots, order, late, e.json);
  }

  /** Releasing slots empties exactly the named ones. */
  method CgTrainClearSlots(lane: CgTrainLane, slots: seq<nat>) returns (code: int)
    requires LaneOk(lane)
    modifies lane
    ensures code == if SlotsOk(slots, lane.capacity) then OK else INVALID_ARGUMENT
    ensures LaneOk(lane)
    ensures forall k :: 0 <= k < lane.capacity ==>
      && lane.slots[k] == (if code == OK && k in slots then None else old(lane.slots)[k])
      && lane.observations[k] == (if code == OK && k in slots then "" else old(lane.observations)[k])
  {
    var valid := HasUniqueValidSlots(lane, slots);
    if !valid {
      return INVALID_ARGUMENT;
    }
    for row := 0 to |slots|
      invariant LaneOk(lane)
      invariant forall k :: 0 <= k < lane.capacity ==>
        && lane.slots[k] == (if k in slots[..row] then None else old(lane.slots)[k])
        && lane.observations[k] == (if k in slots[..row] then "" else old(lane.observations)[k])
    {
      assert slots[..row + 1] == slots[..row] + [slots[row]];
      lane.slots := lane.slots[slots[row] := None];
      lane.observations := lane.observations[slots[row] := ""];
    }
    assert slots[..|slots|] == slots;
    return OK;
  }
}
