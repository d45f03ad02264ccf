/** Pending games and how they are published: what a step or a reset makes of one game, and
    the validation, commit and output that both calls share. */
module ArenaCalls {
  import opened Common
  import opened PublicState
  import opened PublicLogs
  import opened ArenaPlan
  import opened ArenaOutput
  import opened ArenaWrite
  import opened ArenaCommit
  import opened ArenaStep
  import opened RowEntry

  /** The engine; None stands for an exception, also of the observation. */
  datatype ArenaEngine = ArenaEngine(
    deckError: seq<int> -> int,
    create: (seq<int>, nat) -> Option<BattleData>,
    select: (BattleData, seq<int>) -> int,
    next: (BattleData, seq<int>) -> Option<BattleData>,
    json: Renderer)

  predicate Extends(a: LogState, b: LogState) {
    a.logs <= b.logs && a.cursor0 == b.cursor0 && a.cursor1 == b.cursor1
  }

  /** Advancing a game only appends to its log; a new game has been shown to nobody. */
  ghost predicate EngineOk(e: ArenaEngine) {
    && (forall d: BattleData, a: seq<int> :: e.next(d, a).Some? ==> Extends(d.logs, e.next(d, a).value.logs))
    && (forall decks: seq<int>, seed: nat :: e.create(decks, seed).Some? ==>
        Extends(FRESH_LOGS, e.create(decks, seed).value.logs))
  }

  // ---------------------------------------------------------------- one game

  /** Callbacks without a choice are consumed, counted in 32 bits. */
  function ForcedChain(e: ArenaEngine, d: BattleData, advances: nat): (r: Option<(BattleData, nat)>)
    ensures r.Some? ==> advances <= r.value.1
    decreases Max(0, UINT32_MAX + 1 - advances)
  {
    if d.finished || d.selectMax != 0 then Some((d, advances))
    else
      match e.next(d, [])
      case None => None
      case Some(n) => if advances >= UINT32_MAX then None else ForcedChain(e, n, advances + 1)
  }

  method AdvanceForcedChain(e: ArenaEngine, start: BattleData) returns (result: Option<(BattleData, nat)>)
    ensures result == ForcedChain(e, start, 0)
  {
    var data, advances: nat := start, 0;
    while !data.finished && data.selectMax == 0
      invariant advances <= UINT32_MAX && ForcedChain(e, start, 0) == ForcedChain(e, data, advances)
      decreases UINT32_MAX - advances
    {
      var next := e.next(data, []);
      if next.None? {
        return None;
      }
      if advances == UINT32_MAX {
        return None;
      }
      data := next.value;
      advances := advances + 1;
    }
    return Some((data, advances));
  }

  lemma {:induction false} ChainExtends(e: ArenaEngine, d: BattleData, advances: nat)
    requires EngineOk(e) && ForcedChain(e, d, advances).Some?
    ensures Extends(d.logs, ForcedChain(e, d, advances).value.0.logs)
    ensures var last := ForcedChain(e, d, advances).value.0; last.finished || last.selectMax != 0
    decreases Max(0, UINT32_MAX + 1 - advances)
  {
    if !d.finished && d.selectMax == 0 {
      ChainExtends(e, e.next(d, []).value, advances + 1);
    }
  }

  datatype Pending = Pending(row: Row, commit: bool)

  function Ready(d: BattleData, advances: nat): Pending {
    Pending(Row(Some(d), if d.finished then SLOT_FINISHED else SLOT_READY, ERROR_NONE, advances), true)
  }

  function Stays(game: Option<BattleData>, status: int, error: int): Pending {
    Pending(Row(game, status, error, 0), false)
  }

  /** A step of one game: the submitted callback and the forced ones after it. */
  function PlayRow(e: ArenaEngine, game: BattleData, action: seq<int>): Pending {
    if game.finished then Stays(Some(game), SLOT_FINISHED, ERROR_TERMINAL)
    else if e.select(game, action) != 0 then Stays(Some(game), SLOT_ACTION_ERROR, e.select(game, action))
    else
      match e.next(game, action)
      case None => Stays(Some(game), SLOT_ENGINE_ERROR, ERROR_ENGINE_EXCEPTION)
      case Some(d) =>
        match ForcedChain(e, d, 0)
        case None => Stays(Some(game), SLOT_ENGINE_ERROR, ERROR_ENGINE_EXCEPTION)
        case Some(last) =>
          if last.1 == UINT32_MAX then Stays(Some(game), SLOT_ENGINE_ERROR, ERROR_ENGINE_EXCEPTION)
          else Ready(last.0, last.1 + 1)
  }

  function ResetRow(e: ArenaEngine, decks: seq<int>, seed: nat, game: Option<BattleData>): Pending {
    if e.deckError(decks) != 0 then Stays(game, SLOT_RESET_ERROR, e.deckError(decks))
    else
      match e.create(decks, seed)
      case None => Stays(game, SLOT_ENGINE_ERROR, ERROR_ENGINE_EXCEPTION)
      case Some(d) =>
        match ForcedChain(e, d, 0)
        case None => Stays(game, SLOT_ENGINE_ERROR, ERROR_ENGINE_EXCEPTION)
        case Some(last) => Ready(last.0, last.1)
  }

  /** In terms of the log machine a step row appends and outputs, or nothing happens. */
  lemma StepFollowsLog(e: ArenaEngine, game: BattleData, action: seq<int>) returns (more: seq<Log>)
    requires EngineOk(e) && CursorsOk(game.logs) && !CountThrows(PlayRow(e, game, action).row)
    ensures var p := PlayRow(e, game, action);
      && RowOk(p.row) && (p.commit <==> IsSuccessfulOutput(p.row))
      && if p.commit then
           var seen := After(game.logs, Appends(more));
           var seat := p.row.data.value.view.selectPlayer;
           && p.row.data.value.logs.logs == game.logs.logs + more
           && Happens(seen, Output(seat)) && LogsOf(p.row) == Unread(seen, seat)
           && AfterOutput(p.row).value.logs == After(seen, Output(seat))
         else LogsOf(p.row) == [] && AfterOutput(p.row) == Some(game) && p.row.data == Some(game)
  {
    hide Unread, Delivered, Traversable;
    more := [];
    var p := PlayRow(e, game, action);
    if p.commit {
      var d := e.next(game, action).value;
      ChainExtends(e, d, 0);
      more := p.row.data.value.logs.logs[|game.logs.logs|..];
      SplitAt(p.row.data.value.logs.logs, |game.logs.logs|);
      assert p.row.data.value.logs == After(game.logs, Appends(more));
    }
  }

  /** What the rows of one output add to what the seats were sent. */
  function Sent(h: History, seat: int, rows: seq<PublicLog>): History {
    if seat == 1 then h.(sent1 := h.sent1 + rows) else h.(sent0 := h.sent0 + rows)
  }

  /** One step of a game keeps its log history faithful: the rows the seat receives are
      appended to what it was sent, the other seat is sent nothing, and a failed row sends
      nothing and moves no cursor. */
  lemma StepKeepsFaithful(e: ArenaEngine, game: BattleData, action: seq<int>, h: History) returns (k: History)
    requires EngineOk(e) && Faithful(h, game.logs) && !CountThrows(PlayRow(e, game, action).row)
    ensures var p := PlayRow(e, game, action);
      && RowOk(p.row) && p.row.data.Some? && Faithful(k, AfterOutput(p.row).value.logs)
      && (p.commit ==> game.logs.logs <= p.row.data.value.logs.logs)
      && k == Sent(h, p.row.data.value.view.selectPlayer, LogsOf(p.row)).(
                all := h.all + (if p.commit then p.row.data.value.logs.logs[|game.logs.logs|..] else []),
                erased := k.erased)
  {
    hide Unread, Delivered, Traversable, Faithful, CountThrows, LogsOf;
    InsideLog(h, game.logs);
    var more := StepFollowsLog(e, game, action);
    var p := PlayRow(e, game, action);
    k := h;
    if p.commit {
      EventStep(h, game.logs, Appends(more));
      var seen := After(game.logs, Appends(more));
      InsideLog(Record(h, game.logs, Appends(more)), seen);
      var seat := p.row.data.value.view.selectPlayer;
      EventStep(Record(h, game.logs, Appends(more)), seen, Output(seat));
      k := Record(Record(h, game.logs, Appends(more)), seen, Output(seat));
    }
  }

  /** A row whose output the call no longer reached, or could not render, sends nothing and moves
      no cursor; what it committed waits in the log. */
  lemma StepUnsent(e: ArenaEngine, game: BattleData, action: seq<int>, h: History) returns (k: History)
    requires EngineOk(e) && Faithful(h, game.logs)
    ensures var p := PlayRow(e, game, action);
      && p.row.data.Some? && Faithful(k, p.row.data.value.logs)
      && (p.commit ==> game.logs.logs <= p.row.data.value.logs.logs)
      && k == h.(all := h.all + (if p.commit then p.row.data.value.logs.logs[|game.logs.logs|..] else []))
  {
    hide Faithful;
    InsideLog(h, game.logs);
    var p := PlayRow(e, game, action);
    k := h;
    if p.commit {
      ChainExtends(e, e.next(game, action).value, 0);
      var more := p.row.data.value.logs.logs[|game.logs.logs|..];
      SplitAt(p.row.data.value.logs.logs, |game.logs.logs|);
      assert p.row.data.value.logs == After(game.logs, Appends(more));
      EventStep(h, game.logs, Appends(more));
      k := Record(h, game.logs, Appends(more));
    } else {
      assert h.all + [] == h.all;
    }
  }

  /** The same of a reset: the new game starts with nothing sent. */
  lemma ResetUnsent(e: ArenaEngine, decks: seq<int>, seed: nat, game: Option<BattleData>)
    requires EngineOk(e) && ResetRow(e, decks, seed, game).commit
    ensures var p := ResetRow(e, decks, seed, game);
      && p.row.data.Some?
      && Faithful(FRESH_HISTORY.(all := p.row.data.value.logs.logs), p.row.data.value.logs)
  {
    hide Faithful;
    var p := ResetRow(e, decks, seed, game);
    ChainExtends(e, e.create(decks, seed).value, 0);
    var more := p.row.data.value.logs.logs;
    assert [] + more == more;
    FreshIsFaithful();
    EventStep(FRESH_HISTORY, FRESH_LOGS, Appends(more));
    assert p.row.data.value.logs == After(FRESH_LOGS, Appends(more));
    assert Record(FRESH_HISTORY, FRESH_LOGS, Appends(more)) == FRESH_HISTORY.(all := more);
  }

  lemma InsideLog(h: History, s: LogState)
    requires Faithful(h, s)
    ensures CursorsOk(s)
  {
  }

  /** A reset row starts a history of its own. */
  lemma ResetFollowsLog(e: ArenaEngine, decks: seq<int>, seed: nat, game: Option<BattleData>) returns (more: seq<Log>)
    requires EngineOk(e) && (game.Some? ==> CursorsOk(game.value.logs))
    requires !CountThrows(ResetRow(e, decks, seed, game).row)
    ensures var p := ResetRow(e, decks, seed, game);
      && RowOk(p.row) && (p.commit <==> IsSuccessfulOutput(p.row))
      && if p.commit then
           var seen := After(FRESH_LOGS, Appends(more));
           var seat := p.row.data.value.view.selectPlayer;
           && p.row.data.value.logs.logs == more
           && Happens(seen, Output(seat)) && LogsOf(p.row) == Unread(seen, seat)
           && AfterOutput(p.row).value.logs == After(seen, Output(seat))
         else LogsOf(p.row) == [] && AfterOutput(p.row) == game && p.row.data == game
  {
    hide Unread, Delivered, Traversable;
    more := [];
    var p := ResetRow(e, decks, seed, game);
    if p.commit {
      ChainExtends(e, e.create(decks, seed).value, 0);
      more := p.row.data.value.logs.logs;
      assert [] + more == more;
      assert p.row.data.value.logs == After(FRESH_LOGS, Appends(more));
    }
  }

  /** A reset that succeeds starts a new history with its own first delivery; one that fails
      leaves game and history alone. */
  lemma ResetKeepsFaithful(e: ArenaEngine, decks: seq<int>, seed: nat, game: Option<BattleData>) returns (k: History)
    requires EngineOk(e) && (game.Some? ==> CursorsOk(game.value.logs))
    requires !CountThrows(ResetRow(e, decks, seed, game).row)
    ensures var p := ResetRow(e, decks, seed, game);
      && RowOk(p.row)
      && if p.commit then
           && p.row.data.Some? && Faithful(k, AfterOutput(p.row).value.logs)
           && k == Sent(FRESH_HISTORY, p.row.data.value.view.selectPlayer, LogsOf(p.row)).(
                     all := p.row.data.value.logs.logs, erased := k.erased)
         else AfterOutput(p.row) == game && LogsOf(p.row) == [] && p.row.data == game
  {
    hide Unread, Delivered, Traversable, Faithful, CountThrows, LogsOf;
    var more := ResetFollowsLog(e, decks, seed, game);
    var p := ResetRow(e, decks, seed, game);
    k := FRESH_HISTORY;
    if p.commit {
      FreshIsFaithful();
      EventStep(FRESH_HISTORY, FRESH_LOGS, Appends(more));
      var h, seen := Record(FRESH_HISTORY, FRESH_LOGS, Appends(more)), After(FRESH_LOGS, Appends(more));
      InsideLog(h, seen);
      var seat := p.row.data.value.view.selectPlayer;
      EventStep(h, seen, Output(seat));
      k := Record(h, seen, Output(seat));
      assert [] + more == more;
    }
  }

  lemma FreshIsFaithful()
    ensures Faithful(FRESH_HISTORY, FRESH_LOGS)
  {
  }

  // ---------------------------------------------------------------- whole calls

  ghost predicate GamesOk(games: seq<Option<BattleData>>) {
    forall k :: 0 <= k < |games| && games[k].Some? ==> CursorsOk(games[k].value.logs)
  }

  ghost predicate LaneOk(lane: CgTrainLane)
    reads lane
  {
    |lane.slots| == |lane.observations| == lane.capacity && GamesOk(lane.slots)
  }

  predicate SlotsOk(slots: seq<nat>, capacity: nat) {
    0 < |slots| <= capacity && (forall i :: 0 <= i < |slots| ==> slots[i] < capacity) && Distinct(slots)
  }

  method HasUniqueValidSlots(lane: CgTrainLane, slots: seq<nat>) returns (ok: bool)
    ensures ok <==> SlotsOk(slots, lane.capacity)
  {
    if |slots| == 0 || |slots| > lane.capacity {
      return false;
    }
    var seen: set<nat> := {};
    for row := 0 to |slots|
      invariant forall i :: 0 <= i < row ==> slots[i] < lane.capacity && slots[i] in seen
      invariant forall x :: x in seen ==> x in slots[..row]
      invariant Distinct(slots[..row])
    {
      assert slots[..row + 1] == slots[..row] + [slots[row]];
      if slots[row] >= lane.capacity {
        return false;
      }
      if slots[row] in seen {
        var i :| 0 <= i < row && slots[..row][i] == slots[row];
        return false;
      }
      seen := seen + {slots[row]};
    }
    assert slots[..|slots|] == slots;
    return true;
  }

  function RowsOf(pending: seq<Pending>): (rows: seq<Row>)
    ensures |rows| == |pending|
  {
    seq(|pending|, i requires 0 <= i < |pending| => pending[i].row)
  }

  /** A row that will not be committed shows the game its slot already holds. */
  ghost predicate PendingOk(pending: seq<Pending>, slots: seq<nat>, games: seq<Option<BattleData>>) {
    && |pending| == |slots|
    && forall i :: 0 <= i < |pending| ==>
         && slots[i] < |games| && RowOk(pending[i].row)
         && (!pending[i].commit ==> pending[i].row.data == games[slots[i]])
  }

  /** The lane with every pending game in its slot. */
  ghost predicate Committed(before: seq<Option<BattleData>>, after: seq<Option<BattleData>>, pending: seq<Pending>,
                            slots: seq<nat>) {
    && |after| == |before| && |pending| == |slots|
    && (forall i :: 0 <= i < |slots| && slots[i] < |after| ==> after[slots[i]] == pending[i].row.data)
    && (forall k: nat :: k < |after| && k !in slots ==> after[k] == before[k])
  }

  method CommitPending(lane: CgTrainLane, pending: seq<Pending>, slots: seq<nat>)
    requires PendingOk(pending, slots, lane.slots) && Distinct(slots)
    modifies lane
    ensures Committed(old(lane.slots), lane.slots, pending, slots) && lane.observations == old(lane.observations)
  {
    hide RowOk;
    ghost var before := lane.slots;
    for i := 0 to |pending|
      invariant |lane.slots| == |before| && lane.observations == old(lane.observations)
      invariant forall k :: 0 <= k < i ==> lane.slots[slots[k]] == pending[k].row.data
      invariant forall k :: i <= k < |slots| ==> lane.slots[slots[k]] == before[slots[k]]
      invariant forall k: nat :: k < |before| && k !in slots ==> lane.slots[k] == before[k]
    {
      if pending[i].commit {
        lane.slots := lane.slots[slots[i] := pending[i].row.data];
      }
    }
  }

  /** The outcome of a published batch: every pending game committed, and the rows entered written
      up to where they throw. */
  ghost predicate Published(c0: Contents, c: Contents, pending: seq<Pending>, slots: seq<nat>, json: Renderer,
                            entered: set<nat>) {
    exists games: seq<Option<BattleData>> ::
      && Committed(c0.slots, games, pending, slots)
      && BatchOk(RowsOf(pending), slots, games)
      && Written(c0.(slots := games), c, RowsOf(pending), slots, json, entered)
  }

  /** How publishing ends: refused by the plan, stopped by a row that throws after the commit, or
      done. */
  ghost function PublishCode(out: ArenaOutput, rows: seq<Row>, json: Renderer): int {
    if PlanCode(out, rows) != OK then PlanCode(out, rows)
    else if BatchThrows(rows, json) then ENGINE_EXCEPTION else OK
  }

  /** The common tail of both calls.  A refused batch changes nothing.  An accepted one commits
      every game, also when a row throws afterwards: then the rows that were not written to the end
      have moved no cursor, and the call reports an exception all the same. */
  method Publish(lane: CgTrainLane, out: ArenaOutput, pending: seq<Pending>, slots: seq<nat>, order: seq<nat>,
                 late: set<nat>, json: Renderer) returns (code: int)
    requires LaneOk(lane) && SlotsOk(slots, lane.capacity) && PendingOk(pending, slots, lane.slots)
    requires IsSchedule(order, |pending|)
    modifies lane, out, Columns(out)
    ensures code == PublishCode(out, RowsOf(pending), json)
    ensures PlanCode(out, RowsOf(pending)) != OK ==>
      ContentsOf(lane, out) == old(ContentsOf(lane, out)) && unchanged(out)
    ensures PlanCode(out, RowsOf(pending)) == OK ==>
      Published(old(ContentsOf(lane, out)), ContentsOf(lane, out), pending, slots, json,
                Entered(order, late, RowsOf(pending), json, |order|))
    ensures PlanCode(out, RowsOf(pending)) == OK ==>
      Plans(Plan(out.optionOffsets, out.cardOffsets, out.attachmentOffsets, out.logOffsets), RowsOf(pending))
    ensures LaneOk(lane)
  {
    hide Written, Fits, Plans, CountThrows, BatchOk, Published, PendingOk, LaneOk, SlotsOk, RowsOf, Committed,
         GamesOk, IsSchedule,
         AllRows, PlanCode, Entered, BatchThrows;
    var rows := RowsOf(pending);
    var plan;
    code, plan := ValidateOutput(out, rows);
    if code != OK {
      return;
    }
    ColumnsApart(lane, out);
    ghost var c0 := ContentsOf(lane, out);
    SameContents(c0, lane, out);
    BeforeCommit(lane, pending, slots);
    CommitPending(lane, pending, slots);
    ghost var c1 := ContentsOf(lane, out);
    SameContents(c1, lane, out);
    assert c1 == c0.(slots := c1.slots);
    AfterCommit(c0.slots, c1.slots, pending, slots);
    var thrown := WriteOutput(lane, out, plan, rows, slots, order, late, json);
    SameContents(ContentsOf(lane, out), lane, out);
    AfterWrite(lane, out, c0, c1, pending, slots, json, Entered(order, late, rows, json, |order|));
    PlanFields(plan);
    if thrown {
      code := ENGINE_EXCEPTION;
    }
  }

  lemma BeforeCommit(lane: CgTrainLane, pending: seq<Pending>, slots: seq<nat>)
    requires LaneOk(lane) && SlotsOk(slots, lane.capacity) && PendingOk(pending, slots, lane.slots)
    ensures Distinct(slots) && GamesOk(lane.slots) && |lane.slots| == |lane.observations| == lane.capacity
    ensures |pending| == |slots|
  {
  }

  lemma AfterCommit(before: seq<Option<BattleData>>, after: seq<Option<BattleData>>, pending: seq<Pending>,
                    slots: seq<nat>)
    requires Committed(before, after, pending, slots) && PendingOk(pending, slots, before) && Distinct(slots)
    requires GamesOk(before)
    requires forall i :: 0 <= i < |RowsOf(pending)| ==> !CountThrows(RowsOf(pending)[i])
    ensures BatchOk(RowsOf(pending), slots, after) && GamesOk(after) && |after| == |before|
  {
    hide CountThrows;
    forall i | 0 <= i < |pending| ensures !CountThrows(RowsOf(pending)[i]) && RowOk(pending[i].row) {
    }
    forall k | 0 <= k < |after| && after[k].Some? ensures CursorsOk(after[k].value.logs) {
      if k in slots {
        var i :| 0 <= i < |slots| && slots[i] == k;
        assert RowOk(pending[i].row);
      }
    }
  }

  lemma AfterWrite(lane: CgTrainLane, out: ArenaOutput, c0: Contents, c1: Contents, pending: seq<Pending>,
                   slots: seq<nat>, json: Renderer, entered: set<nat>)
    requires c1 == c0.(slots := c1.slots) && Committed(c0.slots, c1.slots, pending, slots) && GamesOk(c1.slots)
    requires BatchOk(RowsOf(pending), slots, c1.slots) && |c1.slots| == lane.capacity
    requires Written(c1, ContentsOf(lane, out), RowsOf(pending), slots, json, entered)
    ensures Published(c0, ContentsOf(lane, out), pending, slots, json, entered) && LaneOk(lane)
  {
    hide Placed, ScalarsWritten, CountThrows, ObservationOf, Delivered, OffsetOf, OptionParts, CardParts,
         AttachmentParts, LogParts, OutputThrows, Whole;
    var rows := RowsOf(pending);
    forall k: nat | k < |lane.slots| && lane.slots[k].Some? ensures CursorsOk(lane.slots[k].value.logs) {
      if k in slots {
        var i :| 0 <= i < |slots| && slots[i] == k;
        StaysInside(rows[i]);
      }
    }
  }

  lemma StaysInside(row: Row)
    requires RowOk(row) && !CountThrows(row)
    ensures AfterOutput(row).Some? ==> CursorsOk(AfterOutput(row).value.logs)
  {
  }

  lemma PlanFields(plan: Plan)
    ensures plan == Plan(plan.options, plan.cards, plan.attachments, plan.logs)
  {
  }
}
