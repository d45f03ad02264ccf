/** Whole histories of arena calls: what the log column of the output delivered, slot by slot
    and seat by seat, is the projected prefix of the slot's whole log. */
module ArenaHistory {
  import opened Common
  import opened PublicLogs
  import opened ArenaPlan
  import opened ArenaWrite
  import opened ArenaCommit
  import opened ArenaCalls
  import opened RowEntry
  import opened ArenaEntry

  /** A call that committed its games, with the rows its writing pass entered, or one that was
      refused.  A committed call fails if one of the rows entered throws. */
  datatype Call =
    | Stepped(slots: seq<nat>, offsets: seq<nat>, actions: seq<int>, entered: set<nat>)
    | ResetTo(slots: seq<nat>, decks: seq<int>, seeds: seq<nat>, entered: set<nat>)
    | Cleared(slots: seq<nat>)
    | Refused

  /** A call with the lane and its output buffers just before and just after it.  Between
      calls the buffers are the caller's; only the games carry over. */
  datatype Done = Done(call: Call, before: Contents, after: Contents)

  /** What the contracts of the three calls say of it. */
  ghost predicate Happened(e: ArenaEngine, d: Done) {
    match d.call
    case Stepped(slots, offsets, actions, entered) =>
      && |offsets| == |slots| + 1 && StepArgumentsOk(d.before.slots, |d.before.slots|, slots, offsets, actions)
      && PublishedBy(e, d, StepPending(e, d.before.slots, slots, offsets, actions), slots, entered)
    case ResetTo(slots, decks, seeds, entered) =>
      && SlotsOk(slots, |d.before.slots|) && |decks| == DECK_PAIR * |slots| && |seeds| == |slots|
      && PublishedBy(e, d, ResetPending(e, d.before.slots, slots, decks, seeds), slots, entered)
    case Cleared(slots) =>
      && |d.after.slots| == |d.before.slots|
      && forall k :: 0 <= k < |d.after.slots| ==> d.after.slots[k] == if k in slots then None else d.before.slots[k]
    case Refused => d.after.slots == d.before.slots
  }

  ghost predicate PublishedBy(e: ArenaEngine, d: Done, pending: seq<Pending>, slots: seq<nat>, entered: set<nat>) {
    Published(d.before, d.after, pending, slots, e.json, entered) && EntryOk(entered, RowsOf(pending), e.json)
  }

  /** What a step's contract says is what happened. */
  lemma StepHappened(e: ArenaEngine, before: Contents, after: Contents, slots: seq<nat>, offsets: seq<nat>,
                     actions: seq<int>, order: seq<nat>, late: set<nat>)
    requires |offsets| == |slots| + 1 && StepArgumentsOk(before.slots, |before.slots|, slots, offsets, actions)
    requires IsSchedule(order, |slots|)
    requires var pending := StepPending(e, before.slots, slots, offsets, actions);
      Published(before, after, pending, slots, e.json, Entered(order, late, RowsOf(pending), e.json, |order|))
    ensures var rows := RowsOf(StepPending(e, before.slots, slots, offsets, actions));
      Happened(e, Done(Stepped(slots, offsets, actions, Entered(order, late, rows, e.json, |order|)), before, after))
  {
    hide Published, Entered, CsrOk, SlotsOk, EntryOk, IsSchedule;
    EnteredIsEntry(order, late, RowsOf(StepPending(e, before.slots, slots, offsets, actions)), e.json);
  }

  /** So does a reset's. */
  lemma ResetHappened(e: ArenaEngine, before: Contents, after: Contents, slots: seq<nat>, decks: seq<int>,
                      seeds: seq<nat>, order: seq<nat>, late: set<nat>)
    requires SlotsOk(slots, |before.slots|) && |decks| == DECK_PAIR * |slots| && |seeds| == |slots|
    requires IsSchedule(order, |slots|)
    requires var pending := ResetPending(e, before.slots, slots, decks, seeds);
      Published(before, after, pending, slots, e.json, Entered(order, late, RowsOf(pending), e.json, |order|))
    ensures var rows := RowsOf(ResetPending(e, before.slots, slots, decks, seeds));
      Happened(e, Done(ResetTo(slots, decks, seeds, Entered(order, late, rows, e.json, |order|)), before, after))
  {
    hide Published, Entered, EntryOk, IsSchedule;
    EnteredIsEntry(order, late, RowsOf(ResetPending(e, before.slots, slots, decks, seeds)), e.json);
  }

  /** The pending rows of a published call. */
  ghost function PendingOf(e: ArenaEngine, d: Done): (pending: seq<Pending>)
    requires Happened(e, d) && (d.call.Stepped? || d.call.ResetTo?)
    ensures |pending| == |d.call.slots|
  {
    match d.call
    case Stepped(slots, offsets, actions, _) => StepPending(e, d.before.slots, slots, offsets, actions)
    case ResetTo(slots, decks, seeds, _) => ResetPending(e, d.before.slots, slots, decks, seeds)
  }

  /** The games after a run that began with an empty lane. */
  function GamesAfter(run: seq<Done>, capacity: nat): seq<Option<BattleData>> {
    if run == [] then seq(capacity, i => None) else run[|run| - 1].after.slots
  }

  ghost predicate IsRun(e: ArenaEngine, run: seq<Done>, capacity: nat) {
    forall i :: 0 <= i < |run| ==> Happened(e, run[i]) && run[i].before.slots == GamesAfter(run[..i], capacity)
  }

  /** The batch row of a slot. */
  function RowFor(slots: seq<nat>, k: nat): (i: Option<nat>)
    ensures i.Some? ==> i.value < |slots| && slots[i.value] == k
    ensures i.None? ==> k !in slots
  {
    if slots == [] then None
    else if slots[|slots| - 1] == k then Some(|slots| - 1) else RowFor(slots[..|slots| - 1], k)
  }

  /** Row i was written to the end. */
  ghost predicate Delivers(e: ArenaEngine, d: Done, i: nat)
    requires Happened(e, d) && (d.call.Stepped? || d.call.ResetTo?)
  {
    i in Whole(RowsOf(PendingOf(e, d)), e.json, d.call.entered)
  }

  /** What the call left in row i's stretch of the log column. */
  ghost function OutLogs(e: ArenaEngine, d: Done, i: nat): seq<PublicLog>
    requires Happened(e, d) && (d.call.Stepped? || d.call.ResetTo?) && i < |d.call.slots|
  {
    var parts := LogParts(RowsOf(PendingOf(e, d)));
    if OffsetOf(parts, |parts|) <= |d.after.logs| then Stretch(d.after.logs, parts, i) else []
  }

  // ---------------------------------------------------------------- the ledger of a slot

  /** Everything the slot's game ever logged, and what its two seats were sent of it. */
  datatype Ledger = Ledger(whole: seq<Log>, sent0: seq<PublicLog>, sent1: seq<PublicLog>)

  const EMPTY := Ledger([], [], [])

  function Send(l: Ledger, seat: int, rows: seq<PublicLog>): Ledger {
    if seat == 1 then l.(sent1 := l.sent1 + rows) else l.(sent0 := l.sent0 + rows)
  }

  /** The acting seat of a row reads its stretch. */
  function SeatOf(row: Row): int {
    if row.data.Some? then row.data.value.view.selectPlayer else 0
  }

  /** What a committed row added to the log of the game it was made from. */
  function Grown(game: BattleData, p: Pending): seq<Log> {
    if p.commit && p.row.data.Some? && |game.logs.logs| <= |p.row.data.value.logs.logs| then
      p.row.data.value.logs.logs[|game.logs.logs|..]
    else []
  }

  function LogsHeld(row: Row): seq<Log> {
    if row.data.Some? then row.data.value.logs.logs else []
  }

  /** A call adds what it committed to the log, and sends what it wrote: nothing for a row that
      was not written to the end. */
  ghost function Posted(e: ArenaEngine, d: Done, k: nat, l: Ledger): Ledger
    requires Happened(e, d)
  {
    match d.call
    case Stepped(slots, _, _, _) =>
      var i := RowFor(slots, k);
      if i.None? then l
      else
        var p := PendingOf(e, d)[i.value];
        var posted := l.(whole := l.whole + Grown(d.before.slots[k].value, p));
        if Delivers(e, d, i.value) then Send(posted, SeatOf(p.row), OutLogs(e, d, i.value)) else posted
    case ResetTo(slots, _, _, _) =>
      var i := RowFor(slots, k);
      if i.None? then l
      else
        var p := PendingOf(e, d)[i.value];
        var posted := if p.commit then Ledger(LogsHeld(p.row), [], []) else l;
        if Delivers(e, d, i.value) then Send(posted, SeatOf(p.row), OutLogs(e, d, i.value)) else posted
    case Cleared(slots) => if k in slots then EMPTY else l
    case Refused => l
  }

  ghost function LedgerOf(e: ArenaEngine, run: seq<Done>, k: nat): Ledger
    requires forall i :: 0 <= i < |run| ==> Happened(e, run[i])
  {
    if run == [] then EMPTY else Posted(e, run[|run| - 1], k, LedgerOf(e, run[..|run| - 1], k))
  }

  /** The ledger agrees with the game in the slot: the log it holds is the end of the whole
      one, and each seat was sent the projection of what its cursor has passed. */
  ghost predicate Kept(l: Ledger, game: Option<BattleData>) {
    match game
    case None => l == EMPTY
    case Some(g) =>
      && |g.logs.logs| <= |l.whole|
      && Faithful(History(l.whole, |l.whole| - |g.logs.logs|, l.sent0, l.sent1), g.logs)
  }

  // ---------------------------------------------------------------- one call

  /** The stretch of a row written to the end holds the row's delta. */
  lemma StretchIsDelta(e: ArenaEngine, d: Done, i: nat)
    requires Happened(e, d) && (d.call.Stepped? || d.call.ResetTo?) && i < |d.call.slots| && Delivers(e, d, i)
    ensures OutLogs(e, d, i) == LogsOf(PendingOf(e, d)[i].row)
  {
    hide StepPending, ResetPending, LogParts, OffsetOf, Stretch, Published, SlotsOk, StepArgumentsOk, Whole, EntryOk;
    var pending := PendingOf(e, d);
    LogsPlaced(d.before, d.after, pending, d.call.slots, e.json, d.call.entered);
    LogPartAt(RowsOf(pending), i);
  }

  lemma LogsPlaced(c0: Contents, c: Contents, pending: seq<Pending>, slots: seq<nat>, json: Renderer,
                   entered: set<nat>)
    requires Published(c0, c, pending, slots, json, entered)
    ensures Placed(c0.logs, c.logs, LogParts(RowsOf(pending)), Whole(RowsOf(pending), json, entered))
  {
    hide Whole, LogParts, OffsetOf, Stretch, BatchOk, ScalarsWritten, SlotsWritten, Committed, Placed;
    var rows := RowsOf(pending);
    var g :| Committed(c0.slots, g, pending, slots) && BatchOk(rows, slots, g)
             && Written(c0.(slots := g), c, rows, slots, json, entered);
  }

  lemma LogPartAt(rows: seq<Row>, i: nat)
    requires i < |rows|
    ensures LogParts(rows)[i] == LogsOf(rows[i])
  {
    hide LogsOf;
  }

  lemma LedgerHistory(l: Ledger, g: BattleData, h: History)
    requires Faithful(h, g.logs) && h.all == l.whole && h.sent0 == l.sent0 && h.sent1 == l.sent1
    ensures Kept(l, Some(g))
  {
    hide Delta;
  }

  /** A step keeps the ledger of every slot of its batch. */
  lemma StepPosts(e: ArenaEngine, d: Done, k: nat, l: Ledger)
    requires EngineOk(e) && Happened(e, d) && d.call.Stepped? && k < |d.before.slots| && RowFor(d.call.slots, k).Some?
    requires Kept(l, d.before.slots[k])
    ensures |d.after.slots| == |d.before.slots| && Kept(Posted(e, d, k, l), d.after.slots[k])
  {
    hide EngineOk, PlayRow, Published, Faithful, CountThrows, LogsOf, OutLogs, AfterOutput, CsrOk, SlotsOk, ActionAt,
         Whole, EntryOk;
    var Stepped(slots, offsets, actions, entered) := d.call;
    var i := RowFor(slots, k).value;
    var pending := PendingOf(e, d);
    SlotsAfterPublish(d.before, d.after, pending, slots, e.json, entered, k);
    var game, action := d.before.slots[k].value, ActionAt(offsets, actions, |slots|, i);
    assert pending[i] == PlayRow(e, game, action);
    var erased := |l.whole| - |game.logs.logs|;
    if Delivers(e, d, i) {
      StretchIsDelta(e, d, i);
      var h := StepKeepsFaithful(e, game, action, History(l.whole, erased, l.sent0, l.sent1));
      AfterOutputStays(pending[i].row);
      LedgerHistory(Posted(e, d, k, l), d.after.slots[k].value, h);
    } else {
      var h := StepUnsent(e, game, action, History(l.whole, erased, l.sent0, l.sent1));
      LedgerHistory(Posted(e, d, k, l), d.after.slots[k].value, h);
    }
  }

  lemma AfterOutputStays(row: Row)
    requires RowOk(row) && !CountThrows(row) && row.data.Some?
    ensures AfterOutput(row).Some?
  {
    hide CountThrows, RowOk;
  }

  /** So does a reset, which starts a new one for every row it commits. */
  lemma ResetPosts(e: ArenaEngine, d: Done, k: nat, l: Ledger)
    requires EngineOk(e) && Happened(e, d) && d.call.ResetTo? && k < |d.before.slots| && RowFor(d.call.slots, k).Some?
    requires Kept(l, d.before.slots[k])
    ensures |d.after.slots| == |d.before.slots| && Kept(Posted(e, d, k, l), d.after.slots[k])
  {
    hide EngineOk, ResetRow, Published, Faithful, CountThrows, LogsOf, OutLogs, AfterOutput, SlotsOk, Whole, EntryOk;
    var ResetTo(slots, decks, seeds, entered) := d.call;
    var i := RowFor(slots, k).value;
    var pending := PendingOf(e, d);
    SlotsAfterPublish(d.before, d.after, pending, slots, e.json, entered, k);
    var game := d.before.slots[k];
    KeptInside(l, game);
    var deck := decks[DECK_PAIR * i..DECK_PAIR * (i + 1)];
    assert pending[i] == ResetRow(e, deck, seeds[i], game);
    var h := ResetKeepsFaithful(e, deck, seeds[i], game);
    if Delivers(e, d, i) {
      StretchIsDelta(e, d, i);
    }
    if pending[i].commit && Delivers(e, d, i) {
      AfterOutputStays(pending[i].row);
      LedgerHistory(Posted(e, d, k, l), d.after.slots[k].value, h);
    } else if pending[i].commit {
      ResetUnsent(e, deck, seeds[i], game);
      var h0 := FRESH_HISTORY.(all := LogsHeld(pending[i].row));
      LedgerHistory(Posted(e, d, k, l), d.after.slots[k].value, h0);
    } else {
      assert l.sent0 + [] == l.sent0 && l.sent1 + [] == l.sent1;
      assert Posted(e, d, k, l) == l;
    }
  }

  lemma KeptInside(l: Ledger, game: Option<BattleData>)
    requires Kept(l, game)
    ensures game.Some? ==> CursorsOk(game.value.logs)
  {
    hide Delta;
  }

  lemma CallPosts(e: ArenaEngine, d: Done, k: nat, l: Ledger)
    requires EngineOk(e) && Happened(e, d) && k < |d.before.slots| && Kept(l, d.before.slots[k])
    ensures |d.after.slots| == |d.before.slots| && Kept(Posted(e, d, k, l), d.after.slots[k])
  {
    hide EngineOk, Published, Kept, StepPending, ResetPending, CsrOk, SlotsOk, EntryOk, Whole;
    match d.call
    case Stepped(slots, offsets, actions, entered) =>
      if RowFor(slots, k).Some? {
        StepPosts(e, d, k, l);
      } else {
        SlotsAfterPublish(d.before, d.after, PendingOf(e, d), slots, e.json, entered, k);
      }
    case ResetTo(slots, decks, seeds, entered) =>
      if RowFor(slots, k).Some? {
        ResetPosts(e, d, k, l);
      } else {
        SlotsAfterPublish(d.before, d.after, PendingOf(e, d), slots, e.json, entered, k);
      }
    case Cleared(slots) => EmptyIsKept();
    case Refused =>
  }

  lemma EmptyIsKept()
    ensures Kept(EMPTY, None)
  {
  }

  // ---------------------------------------------------------------- whole histories

  /** Over any history of step, reset and clear calls, successful, refused, failing on single rows
      or stopped by an exception after the commit, a slot's ledger agrees with its game. */
  lemma {:induction false} HistoriesAreFaithful(e: ArenaEngine, run: seq<Done>, capacity: nat, k: nat)
    requires EngineOk(e) && IsRun(e, run, capacity) && k < capacity
    ensures |GamesAfter(run, capacity)| == capacity
    ensures Kept(LedgerOf(e, run, k), GamesAfter(run, capacity)[k])
  {
    hide EngineOk, Happened, Kept, Posted, IsRun;
    RunPrefix(e, run, capacity);
    if run == [] {
      EmptyIsKept();
    } else {
      var n := |run| - 1;
      HistoriesAreFaithful(e, run[..n], capacity, k);
      CallPosts(e, run[n], k, LedgerOf(e, run[..n], k));
    }
  }

  lemma RunPrefix(e: ArenaEngine, run: seq<Done>, capacity: nat)
    requires IsRun(e, run, capacity)
    ensures forall i :: 0 <= i < |run| ==> Happened(e, run[i])
    ensures run != [] ==>
      IsRun(e, run[..|run| - 1], capacity) && run[|run| - 1].before.slots == GamesAfter(run[..|run| - 1], capacity)
  {
    hide Happened, GamesAfter;
    assert forall i :: 0 <= i < |run| - 1 ==> run[..|run| - 1][i] == run[i] && run[..|run| - 1][..i] == run[..i];
  }

  /** In particular what a seat was sent is the projection of a first part of everything its
      game logged: no entry skipped, repeated, reordered or identified against the rules. */
  lemma SeatsAreSentPrefixes(e: ArenaEngine, run: seq<Done>, capacity: nat, k: nat) returns (read0: nat, read1: nat)
    requires EngineOk(e) && IsRun(e, run, capacity) && k < capacity
    ensures var l := LedgerOf(e, run, k);
      && read0 <= |l.whole| && l.sent0 == Delta(l.whole[..read0], 0)
      && read1 <= |l.whole| && l.sent1 == Delta(l.whole[..read1], 1)
  {
    hide EngineOk, Happened, LedgerOf, Kept, GamesAfter;
    HistoriesAreFaithful(e, run, capacity, k);
    read0, read1 := ReadSoFar(LedgerOf(e, run, k), GamesAfter(run, capacity)[k]);
  }

  lemma ReadSoFar(l: Ledger, game: Option<BattleData>) returns (read0: nat, read1: nat)
    requires Kept(l, game)
    ensures read0 <= |l.whole| && l.sent0 == Delta(l.whole[..read0], 0)
    ensures read1 <= |l.whole| && l.sent1 == Delta(l.whole[..read1], 1)
  {
    if game.None? {
      read0, read1 := 0, 0;
    } else {
      var erased := |l.whole| - |game.value.logs.logs|;
      read0, read1 := erased + game.value.logs.cursor0, erased + game.value.logs.cursor1;
    }
  }
}
