/** The parallel writing pass: the rows entered, one after the other, and the same result
    from every interleaving of their single writes. */
module ArenaStep {
  import opened Common
  import opened PublicState
  import opened ArenaPlan
  import opened ArenaOutput
  import opened ArenaWrite
  import opened ArenaCommit
  import opened RowInterleaving
  import opened RowEntry

  // ---------------------------------------------------------------- writing

  /** The rows entered, one after the other.  The rows of the parallel loop may also run at the
      same time: however their single writes interleave, the result is this one. */
  method WriteOutput(lane: CgTrainLane, out: ArenaOutput, plan: Plan, rows: seq<Row>, slots: seq<nat>,
                     order: seq<nat>, late: set<nat>, json: Renderer) returns (thrown: bool)
    requires BatchOk(rows, slots, lane.slots) && |lane.slots| == |lane.observations|
    requires Plans(plan, rows) && Fits(out, rows) && IsSchedule(order, |rows|)
    modifies lane, out, Columns(out)
    ensures out.optionOffsets == plan.options && out.cardOffsets == plan.cards
    ensures out.attachmentOffsets == plan.attachments && out.logOffsets == plan.logs
    ensures |lane.slots| == |lane.observations| && (thrown <==> BatchThrows(rows, json))
    ensures Written(old(ContentsOf(lane, out)), ContentsOf(lane, out), rows, slots, json,
                    Entered(order, late, rows, json, |order|))
    ensures forall writes :: Interleaves(writes, rows, slots, json, Entered(order, late, rows, json, |order|)) ==>
      ContentsOf(lane, out) == Run(old(ContentsOf(lane, out)), writes)
  {
    hide *;
    ColumnsApart(lane, out);
    out.optionOffsets, out.cardOffsets := plan.options, plan.cards;
    out.attachmentOffsets, out.logOffsets := plan.attachments, plan.logs;
    ghost var c0 := ContentsOf(lane, out);
    SameContents(c0, lane, out);
    WriteStarts(c0, lane, out, rows, slots, json);
    ScheduleThrows(order, rows, json);
    EntryStarts(order, late, rows, json);
    thrown := false;
    for k := 0 to |order|
      invariant Written(c0, ContentsOf(lane, out), rows, slots, json, Entered(order, late, rows, json, k))
      invariant |lane.slots| == |lane.observations| && (thrown <==> SomeThrows(order[..k], rows, json))
      invariant out.optionOffsets == plan.options && out.cardOffsets == plan.cards
      invariant out.attachmentOffsets == plan.attachments && out.logOffsets == plan.logs
    {
      var r := order[k];
      EntryStep(order, late, rows, json, k);
      if !thrown || r in late {
        ghost var c := ContentsOf(lane, out);
        SameContents(c, lane, out);
        WrittenStep(c0, c, rows, slots, json, Entered(order, late, rows, json, k), r);
        RowReady(c0, lane, out, plan, rows, slots, json, Entered(order, late, rows, json, k), r);
        var threw := WriteRow(lane, out, plan, rows, slots, r, json);
        RowDone(c, lane, out, plan, rows, slots, json, r);
        thrown := thrown || threw;
      }
    }
    EntryEnds(order, late, rows, json);
    AnyInterleaving(c0, ContentsOf(lane, out), rows, slots, json, Entered(order, late, rows, json, |order|));
  }

  lemma EntryStarts(order: seq<nat>, late: set<nat>, rows: seq<Row>, json: Renderer)
    ensures Entered(order, late, rows, json, 0) == {}
  {
  }

  /** One more row of the order is entered or skipped. */
  lemma EntryStep(order: seq<nat>, late: set<nat>, rows: seq<Row>, json: Renderer, k: nat)
    requires IsSchedule(order, |rows|) && k < |order|
    ensures order[k] < |rows| && order[k] !in Entered(order, late, rows, json, k)
    ensures Entered(order, late, rows, json, k + 1)
         == if order[k] in late || !SomeThrows(order[..k], rows, json) then
              Entered(order, late, rows, json, k) + {order[k]}
            else Entered(order, late, rows, json, k)
    ensures SomeThrows(order[..k + 1], rows, json)
      <==> SomeThrows(order[..k], rows, json) || OutputThrows(rows[order[k]], json)
  {
    hide SomeThrows, OutputThrows;
    assert order[k] in order;
    EnteredOfPrefix(order, late, rows, json, k);
    ThrowsStep(order, rows, json, k);
  }

  lemma EntryEnds(order: seq<nat>, late: set<nat>, rows: seq<Row>, json: Renderer)
    requires IsSchedule(order, |rows|)
    ensures Entered(order, late, rows, json, |order|) <= AllRows(|rows|)
  {
    hide Entered;
    EnteredIsEntry(order, late, rows, json);
  }

  lemma AnyInterleaving(c0: Contents, c: Contents, rows: seq<Row>, slots: seq<nat>, json: Renderer, entered: set<nat>)
    requires BatchOk(rows, slots, c0.slots) && Written(c0, c0, rows, slots, json, {})
    requires Written(c0, c, rows, slots, json, entered) && entered <= AllRows(|rows|)
    ensures forall writes :: Interleaves(writes, rows, slots, json, entered) ==> c == Run(c0, writes)
  {
    hide Written, Interleaves, RowOk, CountThrows, Run;
    forall writes | Interleaves(writes, rows, slots, json, entered) ensures c == Run(c0, writes) {
      InterleavingWrites(c0, writes, rows, slots, json, entered);
      ResultIsUnique(c0, c, Run(c0, writes), rows, slots, json, entered);
    }
  }

  lemma ColumnsApart(lane: CgTrainLane, out: ArenaOutput)
    ensures (out as object) !in Columns(out) && (lane as object) !in Columns(out) && (lane as object) != out
  {
  }

  lemma SameContents(c0: Contents, lane: CgTrainLane, out: ArenaOutput)
    requires c0 == ContentsOf(lane, out)
    ensures c0.slots == lane.slots && c0.observations == lane.observations
    ensures c0.scalars == out.scalars[..] && c0.options == out.options[..] && c0.cards == out.table.cards[..]
    ensures c0.attachments == out.table.attachments[..] && c0.logs == out.logs[..]
  {
  }

  lemma WriteStarts(c0: Contents, lane: CgTrainLane, out: ArenaOutput, rows: seq<Row>, slots: seq<nat>,
                    json: Renderer)
    requires c0 == ContentsOf(lane, out) && BatchOk(rows, slots, c0.slots) && |c0.slots| == |c0.observations|
    requires Fits(out, rows)
    ensures Written(c0, c0, rows, slots, json, {})
  {
    hide Written, BatchOk, OffsetOf, OptionParts, CardParts, AttachmentParts, LogParts;
    WrittenNone(c0, rows, slots, json);
  }

  /** Before its turn a row's game and stretches are as planned. */
  lemma RowReady(c0: Contents, lane: CgTrainLane, out: ArenaOutput, plan: Plan, rows: seq<Row>, slots: seq<nat>,
                 json: Renderer, done: set<nat>, r: nat)
    requires BatchOk(rows, slots, c0.slots) && Written(c0, ContentsOf(lane, out), rows, slots, json, done)
    requires Plans(plan, rows) && Fits(out, rows) && r < |rows| && r !in done
    ensures slots[r] < |lane.slots| == |lane.observations| && lane.slots[slots[r]] == rows[r].data
    ensures RowOk(rows[r]) && !CountThrows(rows[r]) && StretchesFit(out, plan, rows[r], r)
    ensures |rows| == |slots| && r < |plan.options| && r < |plan.cards| && r < |plan.attachments| && r < |plan.logs|
    ensures plan.options[r] + |OptionsOf(rows[r])| <= out.options.Length
    ensures plan.cards[r] + |VisibleOf(rows[r])| <= out.table.cards.Length
    ensures plan.attachments[r] + |AttachmentRows(VisibleOf(rows[r]), plan.cards[r])| <= out.table.attachments.Length
    ensures plan.logs[r] + |LogsOf(rows[r])| <= out.logs.Length
  {
    hide Written, OffsetOf, OptionParts, CardParts, AttachmentParts, LogParts, CountThrows, RowOk, Visible,
         AttachmentRows;
    var c := ContentsOf(lane, out);
    WrittenRoom(c0, c, rows, slots, json, done, r);
    PartsOfRow(rows, r);
    assert plan.cards[r] == OffsetOf(CardParts(rows), r) && plan.options[r] == OffsetOf(OptionParts(rows), r);
    assert plan.attachments[r] == OffsetOf(AttachmentParts(rows), r) && plan.logs[r] == OffsetOf(LogParts(rows), r);
  }

  lemma PartsOfRow(rows: seq<Row>, r: nat)
    requires r < |rows|
    ensures OptionParts(rows)[r] == OptionsOf(rows[r]) && CardParts(rows)[r] == CardRows(VisibleOf(rows[r]))
    ensures AttachmentParts(rows)[r] == AttachmentRows(VisibleOf(rows[r]), OffsetOf(CardParts(rows), r))
    ensures LogParts(rows)[r] == LogsOf(rows[r])
  {
  }

  /** After its turn the contents are those with the row written. */
  lemma RowDone(c: Contents, lane: CgTrainLane, out: ArenaOutput, plan: Plan, rows: seq<Row>, slots: seq<nat>,
                json: Renderer, r: nat)
    requires Plans(plan, rows) && r < |rows| == |slots| && slots[r] < |c.slots| == |c.observations| && r < |c.scalars|
    requires RowOk(rows[r]) && !CountThrows(rows[r])
    requires OffsetOf(OptionParts(rows), r) + |OptionParts(rows)[r]| <= |c.options|
    requires OffsetOf(CardParts(rows), r) + |CardParts(rows)[r]| <= |c.cards|
    requires OffsetOf(AttachmentParts(rows), r) + |AttachmentParts(rows)[r]| <= |c.attachments|
    requires OffsetOf(LogParts(rows), r) + |LogParts(rows)[r]| <= |c.logs|
    requires plan.options[r] + |OptionsOf(rows[r])| <= |c.options| && plan.cards[r] + |VisibleOf(rows[r])| <= |c.cards|
    requires plan.attachments[r] + |AttachmentRows(VisibleOf(rows[r]), plan.cards[r])| <= |c.attachments|
    requires plan.logs[r] + |LogsOf(rows[r])| <= |c.logs|
    requires out.scalars[..] == c.scalars[r := ScalarsOf(rows[r], plan.cards[r])]
    requires out.options[..] == Patch(c.options, plan.options[r], OptionsOf(rows[r]))
    requires out.table.cards[..] == Patch(c.cards, plan.cards[r], CardRows(VisibleOf(rows[r])))
    requires out.table.attachments[..]
          == Patch(c.attachments, plan.attachments[r], AttachmentRows(VisibleOf(rows[r]), plan.cards[r]))
    requires out.logs[..]
          == if OutputThrows(rows[r], json) then c.logs else Patch(c.logs, plan.logs[r], LogsOf(rows[r]))
    requires lane.slots == if OutputThrows(rows[r], json) then c.slots else c.slots[slots[r] := AfterOutput(rows[r])]
    requires lane.observations ==
      if IsSuccessfulOutput(rows[r]) && !OutputThrows(rows[r], json) then
        c.observations[slots[r] := json(rows[r].data.value).value]
      else c.observations
    ensures ContentsOf(lane, out) == WithRow(c, rows, slots, json, r)
  {
    hide OffsetOf, OptionParts, CardParts, AttachmentParts, LogParts, CountThrows, RowOk, Visible, AttachmentRows,
         Patch, ScalarsOf, AfterOutput,
         LogsOf, OptionsOf, VisibleOf, CardRows;
    PartsOfRow(rows, r);
    assert plan.cards[r] == OffsetOf(CardParts(rows), r) && plan.options[r] == OffsetOf(OptionParts(rows), r);
    assert plan.attachments[r] == OffsetOf(AttachmentParts(rows), r) && plan.logs[r] == OffsetOf(LogParts(rows), r);
    assert c.observations[slots[r] := c.observations[slots[r]]] == c.observations;
  }
}
