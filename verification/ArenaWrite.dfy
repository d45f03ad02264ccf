/** The writing pass: one row fills its planned stretches and moves its own log cursors. */
module ArenaWrite {
  import opened Common
  import opened PublicState
  import opened PublicLogs
  import opened LogSecrecy
  import opened PublicStateSink
  import opened PublicTraversal
  import opened ArenaPlan
  import opened ArenaOutput

  /** The lane owns every game; a row reaches its game through its slot. */
  class CgTrainLane {
    const capacity: nat
    var slots: seq<Option<BattleData>>
    var observations: seq<string>

    constructor (capacity: nat)
      ensures this.capacity == capacity && slots == seq(capacity, i => None) && |observations| == capacity
    {
      this.capacity := capacity;
      slots, observations := seq(capacity, i => None), seq(capacity, i => "");
    }
  }

  // ---------------------------------------------------------------- one row, as values

  /** The observation text of a game; None stands for an exception. */
  type Renderer = BattleData -> Option<string>

  /** Rows whose writing throws: the game's observation cannot be rendered. */
  predicate OutputThrows(row: Row, json: Renderer) {
    IsSuccessfulOutput(row) && json(row.data.value).None?
  }

  function ScalarsOf(row: Row, cardBase: nat): Scalars {
    match row.data
    case None => Scalars(row.status, row.error, row.advances, NONE_ROW, NONE_ROW, -1, [], LOOKING_NULL, false)
    case Some(data) =>
      Scalars(row.status, row.error, row.advances,
              if ContextRow(data.view, cardBase).Some? then ContextRow(data.view, cardBase).value else NONE_ROW,
              if EffectRow(data.view, cardBase).Some? then EffectRow(data.view, cardBase).value else NONE_ROW,
              data.view.selectPlayer, data.facts, LookingMode(data.view), data.view.selectDeck)
  }

  /** The scalar row before anything is read of the game. */
  function BareScalars(row: Row): Scalars {
    Scalars(row.status, row.error, row.advances, NONE_ROW, NONE_ROW, -1, [], LOOKING_NULL, false)
  }

  /** The game after its row was output: only a successful row moves a cursor. */
  function AfterOutput(row: Row): Option<BattleData>
    requires !CountThrows(row) && RowOk(row)
  {
    if !IsSuccessfulOutput(row) then row.data
    else Some(row.data.value.(logs := Delivered(row.data.value.logs, row.data.value.view.selectPlayer)))
  }

  // ---------------------------------------------------------------- one row, in place

  method WriteOptions(options: array<OptionRow>, offset: nat, values: seq<OptionRow>)
    requires offset + |values| <= options.Length
    modifies options
    ensures options[..] == Patch(old(options[..]), offset, values)
  {
    ghost var before := options[..];
    var optionOffset := offset;
    for index := 0 to |values|
      invariant optionOffset == offset + index
      invariant options[..] == Patch(before, offset, values[..index])
    {
      PatchOne(before, offset, values[..index], values[index]);
      assert values[..index + 1] == values[..index] + [values[index]];
      options[optionOffset] := values[index];
      optionOffset := optionOffset + 1;
    }
    assert values[..|values|] == values;
  }

  /** The filtering, projecting copy of a log's unread part. */
  method WriteLogs(output: array<PublicLog>, offset: nat, logs: seq<Log>, start: nat, perspective: int)
    requires start <= |logs| && offset + |Delta(logs[start..], perspective)| <= output.Length
    modifies output
    ensures output[..] == Patch(old(output[..]), offset, Delta(logs[start..], perspective))
    ensures 0 <= perspective <= 1 ==> Arrived(output[..], offset, logs[start..], perspective)
  {
    hide Delta, Patch, Arrived;
    ghost var before := output[..];
    var logOffset := offset;
    DeltaOfNone(logs, start, perspective);
    PatchNone(before, offset);
    for index := start to |logs|
      invariant logOffset == offset + |Delta(logs[start..index], perspective)| <= output.Length
      invariant output[..] == Patch(before, offset, Delta(logs[start..index], perspective))
    {
      DeltaStep(logs, start, index, perspective);
      DeltaOfPrefix(logs, start, index + 1, perspective);
      if !logs[index].kind.Private? {
        PatchOne(before, offset, Delta(logs[start..index], perspective), ProjectPublicLog(logs[index], perspective));
        output[logOffset] := ProjectPublicLog(logs[index], perspective);
        logOffset := logOffset + 1;
      }
    }
    assert logs[start..|logs|] == logs[start..];
    if 0 <= perspective <= 1 {
      DeltaArrives(before, offset, logs[start..], perspective);
    }
  }

  /** Every public entry is in the output, behind those before it. */
  predicate Arrived(output: seq<PublicLog>, offset: nat, logs: seq<Log>, seat: int) {
    forall k :: 0 <= k < |logs| && !logs[k].kind.Private? ==>
      var place := offset + CountPublic(logs[..k]);
      place < |output| && ArrivesAs(logs[k], output[place], seat)
  }

  lemma DeltaArrives(before: seq<PublicLog>, offset: nat, logs: seq<Log>, seat: int)
    requires 0 <= seat <= 1 && offset + |Delta(logs, seat)| <= |before|
    ensures Arrived(Patch(before, offset, Delta(logs, seat)), offset, logs, seat)
  {
    hide Delta, ArrivesAs, CountPublic;
    forall k | 0 <= k < |logs| && !logs[k].kind.Private?
      ensures CountPublic(logs[..k]) < |Delta(logs, seat)|
      ensures ArrivesAs(logs[k], Delta(logs, seat)[CountPublic(logs[..k])], seat)
    {
      EveryEntryArrives(logs, seat, k);
    }
  }

  lemma PatchNone<T>(s: seq<T>, base: nat)
    requires base <= |s|
    ensures Patch(s, base, []) == s
  {
  }

  lemma DeltaOfPrefix(logs: seq<Log>, start: nat, k: nat, perspective: int)
    requires start <= k <= |logs|
    ensures |Delta(logs[start..k], perspective)| <= |Delta(logs[start..], perspective)|
  {
    hide Delta;
    assert logs[start..] == logs[start..k] + logs[k..];
    DeltaAppend(logs[start..k], logs[k..], perspective);
  }

  /** The planned stretches of a row lie inside the buffers. */
  ghost predicate StretchesFit(out: ArenaOutput, plan: Plan, row: Row, r: nat) {
    && r < out.scalars.Length && r < |plan.options| && r < |plan.cards| && r < |plan.attachments| && r < |plan.logs|
    && plan.options[r] + |OptionsOf(row)| <= out.options.Length
    && plan.cards[r] + |VisibleOf(row)| <= out.table.cards.Length
    && plan.attachments[r] + |AttachmentRows(VisibleOf(row), plan.cards[r])| <= out.table.attachments.Length
    && plan.logs[r] + |LogsOf(row)| <= out.logs.Length
  }

  /** A game's cards at the planned offsets. */
  method WriteCards(table: CardOutput, view: View, cardBase: nat, attachmentBase: nat)
    returns (mode: int, contextRow: Option<nat>, effectRow: Option<nat>)
    requires Traversable(view) && cardBase + |Visible(view)| <= table.cards.Length
    requires attachmentBase + |AttachmentRows(Visible(view), cardBase)| <= table.attachments.Length
    modifies table.cards, table.attachments
    ensures table.cards[..] == Patch(old(table.cards[..]), cardBase, CardRows(Visible(view)))
    ensures table.attachments[..]
        == Patch(old(table.attachments[..]), attachmentBase, AttachmentRows(Visible(view), cardBase))
    ensures mode == LookingMode(view) && contextRow == ContextRow(view, cardBase)
    ensures effectRow == EffectRow(view, cardBase)
  {
    hide Visible, AttachmentRows, Patch, Traversable, LookingMode;
    var sink := new Sink(view, table, cardBase, attachmentBase);
    mode, contextRow, effectRow := TraversePublicState(sink);
  }

  /** The body of the parallel writing loop.  Each output column changes in the row's planned
      stretch only, the lane in the row's slot only, and the game only if the row succeeded.
      A row that throws has written its scalars, options and cards and nothing else. */
  method WriteRow(lane: CgTrainLane, out: ArenaOutput, plan: Plan, rows: seq<Row>, slots: seq<nat>, r: nat,
                  json: Renderer) returns (thrown: bool)
    requires r < |rows| == |slots| && slots[r] < |lane.slots| == |lane.observations|
    requires lane.slots[slots[r]] == rows[r].data && RowOk(rows[r]) && !CountThrows(rows[r])
    requires StretchesFit(out, plan, rows[r], r)
    modifies lane, Columns(out)
    ensures out.scalars[..] == old(out.scalars[..])[r := ScalarsOf(rows[r], plan.cards[r])]
    ensures out.options[..] == Patch(old(out.options[..]), plan.options[r], OptionsOf(rows[r]))
    ensures out.table.cards[..] == Patch(old(out.table.cards[..]), plan.cards[r], CardRows(VisibleOf(rows[r])))
    ensures out.table.attachments[..]
         == Patch(old(out.table.attachments[..]), plan.attachments[r],
                  AttachmentRows(VisibleOf(rows[r]), plan.cards[r]))
    ensures thrown <==> OutputThrows(rows[r], json)
    ensures out.logs[..] ==
      if thrown then old(out.logs[..]) else Patch(old(out.logs[..]), plan.logs[r], LogsOf(rows[r]))
    ensures lane.slots == if thrown then old(lane.slots) else old(lane.slots)[slots[r] := AfterOutput(rows[r])]
    ensures lane.observations ==
      if IsSuccessfulOutput(rows[r]) && !thrown then
        old(lane.observations)[slots[r] := json(rows[r].data.value).value]
      else old(lane.observations)
  {
    hide Visible, AttachmentRows, Patch, Traversable, LookingMode, Delta, CardRows, ContextRow, EffectRow,
         Delivered;
    var row := rows[r];
    var line := BareScalars(row);
    NothingWritten(out, plan, r);
    out.scalars[r] := line;
    var game := lane.slots[slots[r]];
    if game.None? {
      return false;
    }
    var data := game.value;
    WriteOptions(out.options, plan.options[r], data.options);
    var mode, contextRow, effectRow := WriteCards(out.table, data.view, plan.cards[r], plan.attachments[r]);
    line := line.(selectPlayer := data.view.selectPlayer, facts := data.facts, lookingMode := mode,
                  deckVisible := data.view.selectDeck);
    if contextRow.Some? {
      line := line.(contextRow := contextRow.value);
    }
    if effectRow.Some? {
      line := line.(effectRow := effectRow.value);
    }
    out.scalars[r] := line;
    if !(row.error == ERROR_NONE && (row.status == SLOT_READY || row.status == SLOT_FINISHED)) {
      return false;
    }
    var perspective := data.view.selectPlayer;
    var start := PublicLogStart(data.logs, perspective).value;
    var observation := json(data);
    if observation.None? {
      return true;
    }
    lane.observations := lane.observations[slots[r] := observation.value];
    WriteLogs(out.logs, plan.logs[r], data.logs.logs, start, perspective);
    var moved := MoveCursor(data.logs, perspective);
    lane.slots := lane.slots[slots[r] := Some(data.(logs := moved))];
    return false;
  }

  lemma NothingWritten(out: ArenaOutput, plan: Plan, r: nat)
    requires r < |plan.options| && r < |plan.cards| && r < |plan.attachments| && r < |plan.logs|
    ensures plan.options[r] <= out.options.Length ==> Patch(out.options[..], plan.options[r], []) == out.options[..]
    ensures plan.cards[r] <= out.table.cards.Length ==>
      Patch(out.table.cards[..], plan.cards[r], CardRows([])) == out.table.cards[..]
    ensures AttachmentRows([], plan.cards[r]) == []
    ensures plan.attachments[r] <= out.table.attachments.Length ==>
      Patch(out.table.attachments[..], plan.attachments[r], []) == out.table.attachments[..]
    ensures plan.logs[r] <= out.logs.Length ==> Patch(out.logs[..], plan.logs[r], []) == out.logs[..]
  {
  }

  /** The cursor assignment, then the erasure of what both seats have consumed. */
  method MoveCursor(logs: LogState, perspective: int) returns (moved: LogState)
    requires PublicLogStart(logs, perspective).Some? && CursorsOk(logs)
    ensures moved == Delivered(logs, perspective)
  {
    moved := logs;
    if perspective == 0 {
      moved := moved.(cursor0 := |moved.logs|);
    } else {
      moved := moved.(cursor1 := |moved.logs|);
    }
    var consumed := Min(moved.cursor0, moved.cursor1);
    if consumed > 0 {
      moved := LogState(moved.logs[consumed..], moved.cursor0 - consumed, moved.cursor1 - consumed);
    }
  }
}
