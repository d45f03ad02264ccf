/** The output buffers of a call and the counting pass of a transactional output, which plans
    every stretch or refuses. */
module ArenaOutput {
  import opened Common
  import opened PublicState
  import opened PublicLogs
  import opened PublicStateSink
  import opened PublicTraversal
  import opened ArenaPlan

  /** The scalar columns of a row; NONE_ROW stands where a row has no virtual card. */
  datatype Scalars = Scalars(status: int, error: int, advances: nat, contextRow: nat, effectRow: nat,
                             selectPlayer: int, facts: seq<int>, lookingMode: int, deckVisible: bool)

  const NONE_ROW: nat := 0xFFFF_FFFF

  class ArenaOutput {
    const scalars: array<Scalars>
    const options: array<OptionRow>
    const table: CardOutput
    const logs: array<PublicLog>
    var optionOffsets: seq<nat>
    var cardOffsets: seq<nat>
    var attachmentOffsets: seq<nat>
    var logOffsets: seq<nat>

    constructor (scalars: array<Scalars>, options: array<OptionRow>, table: CardOutput, logs: array<PublicLog>)
      ensures this.scalars == scalars && this.options == options && this.table == table && this.logs == logs
    {
      this.scalars, this.options, this.table, this.logs := scalars, options, table, logs;
      optionOffsets, cardOffsets, attachmentOffsets, logOffsets := [], [], [], [];
    }
  }

  function Columns(out: ArenaOutput): set<object> {
    {out.scalars as object, out.options as object, out.table.cards as object, out.table.attachments as object,
     out.logs as object}
  }

  // ---------------------------------------------------------------- planning

  datatype Plan = Plan(options: seq<nat>, cards: seq<nat>, attachments: seq<nat>, logs: seq<nat>)

  /** Every offset of the plan is the joint length of the parts before it. */
  ghost predicate Plans(plan: Plan, rows: seq<Row>) {
    && |plan.options| == |plan.cards| == |plan.attachments| == |plan.logs| == |rows| + 1
    && forall i :: 0 <= i <= |rows| ==>
         && plan.options[i] == OffsetOf(OptionParts(rows), i) && plan.cards[i] == OffsetOf(CardParts(rows), i)
         && plan.attachments[i] == OffsetOf(AttachmentParts(rows), i) && plan.logs[i] == OffsetOf(LogParts(rows), i)
  }

  /** What the caller's buffers must hold; the offsets are 32-bit. */
  ghost predicate Fits(out: ArenaOutput, rows: seq<Row>) {
    && |rows| <= out.scalars.Length
    && OffsetOf(OptionParts(rows), |rows|) <= Min(out.options.Length, UINT32_MAX)
    && OffsetOf(CardParts(rows), |rows|) <= Min(out.table.cards.Length, UINT32_MAX)
    && OffsetOf(AttachmentParts(rows), |rows|) <= Min(out.table.attachments.Length, UINT32_MAX)
    && OffsetOf(LogParts(rows), |rows|) <= Min(out.logs.Length, UINT32_MAX)
  }

  /** The public entries a successful row will deliver; None when its cursor throws. */
  method CountPublicLogs(row: Row) returns (count: Option<nat>)
    ensures count.None? <==>
      IsSuccessfulOutput(row) && PublicLogStart(row.data.value.logs, row.data.value.view.selectPlayer).None?
    ensures count.Some? ==> count.value == |LogsOf(row)|
  {
    hide Delta;
    if !IsSuccessfulOutput(row) {
      return Some(0);
    }
    var logs, perspective := row.data.value.logs.logs, row.data.value.view.selectPlayer;
    var start := PublicLogStart(row.data.value.logs, perspective);
    if start.None? {
      return None;
    }
    var sum: nat := 0;
    DeltaOfNone(logs, start.value, perspective);
    for index := start.value to |logs|
      invariant sum == |Delta(logs[start.value..index], perspective)|
    {
      DeltaStep(logs, start.value, index, perspective);
      if !logs[index].kind.Private? {
        sum := sum + 1;
      }
    }
    assert logs[start.value..|logs|] == logs[start.value..];
    return Some(sum);
  }

  method CountRow(row: Row) returns (thrown: bool, counts: Counts)
    ensures thrown <==> CountThrows(row)
    ensures !thrown ==> counts == CountsOf(row)
  {
    hide Visible, AttachmentRows, Traversable, LogsOf, PublicLogStart;
    counts := Counts(0, 0, 0, 0);
    if row.data.Some? {
      if !Traversable(row.data.value.view) {
        return true, counts;
      }
      var cards, attachments := CountPublicState(row.data.value.view);
      counts := Counts(|row.data.value.options|, cards, attachments, 0);
    } else {
      NothingAttached();
    }
    var logs := CountPublicLogs(row);
    if logs.None? {
      return true, counts;
    }
    counts := counts.(logs := logs.value);
    return false, counts;
  }

  lemma NothingAttached()
    ensures AttachmentRows([], 0) == []
  {
  }

  lemma DeltaOfNone(logs: seq<Log>, start: nat, perspective: int)
    requires start <= |logs|
    ensures Delta(logs[start..start], perspective) == []
  {
  }

  lemma DeltaStep(logs: seq<Log>, start: nat, k: nat, perspective: int)
    requires start <= k < |logs|
    ensures Delta(logs[start..k + 1], perspective) ==
      if logs[k].kind.Private? then Delta(logs[start..k], perspective)
      else Delta(logs[start..k], perspective) + [ProjectPublicLog(logs[k], perspective)]
  {
    hide ProjectPublicLog;
    assert logs[start..k + 1][..k - start] == logs[start..k];
    assert logs[start..k + 1][k - start] == logs[k];
  }

  /** One offset column after `row` rows; past 32 bits it is no longer kept up. */
  ghost predicate Column<T>(offsets: seq<nat>, total: nat, parts: seq<seq<T>>, row: nat) {
    && row <= |parts| && |offsets| == row + 1 && total == OffsetOf(parts, row)
    && (total <= UINT32_MAX ==> forall i :: 0 <= i <= row ==> offsets[i] == OffsetOf(parts, i))
  }

  function NextOffset(total: nat): nat {
    if total <= UINT32_MAX then total else 0
  }

  lemma ColumnStarts<T>(parts: seq<seq<T>>)
    ensures Column([0], 0, parts, 0)
  {
  }

  lemma ColumnStep<T>(offsets: seq<nat>, total: nat, parts: seq<seq<T>>, row: nat, size: nat)
    requires Column(offsets, total, parts, row) && row < |parts| && |parts[row]| == size
    ensures Column(offsets + [NextOffset(total + size)], total + size, parts, row + 1)
  {
  }

  method CountRows(rows: seq<Row>) returns (thrown: bool, rowCounts: seq<Counts>)
    ensures thrown <==> exists i :: 0 <= i < |rows| && CountThrows(rows[i])
    ensures !thrown ==> |rowCounts| == |rows| && forall i :: 0 <= i < |rows| ==> rowCounts[i] == CountsOf(rows[i])
  {
    hide CountThrows, CountsOf;
    rowCounts := [];
    for row := 0 to |rows|
      invariant |rowCounts| == row && forall i :: 0 <= i < row ==>
        !CountThrows(rows[i]) && rowCounts[i] == CountsOf(rows[i])
    {
      var threw, counts := CountRow(rows[row]);
      if threw {
        return true, rowCounts;
      }
      rowCounts := rowCounts + [counts];
    }
    return false, rowCounts;
  }

  lemma PartSizes(rows: seq<Row>, i: nat)
    requires i < |rows|
    ensures |OptionParts(rows)[i]| == CountsOf(rows[i]).options && |CardParts(rows)[i]| == CountsOf(rows[i]).cards
    ensures |AttachmentParts(rows)[i]| == CountsOf(rows[i]).attachments && |LogParts(rows)[i]| == CountsOf(rows[i]).logs
  {
    hide AttachmentRows, Visible, LogsOf;
    AttachmentCount(VisibleOf(rows[i]), OffsetOf(CardParts(rows), i), 0);
  }

  /** The loop over the row counts. */
  method PlanRows(rows: seq<Row>, rowCounts: seq<Counts>)
    returns (plan: Plan, options: nat, cards: nat, attachments: nat, logs: nat)
    requires |rowCounts| == |rows| && forall i :: 0 <= i < |rows| ==> rowCounts[i] == CountsOf(rows[i])
    ensures Column(plan.options, options, OptionParts(rows), |rows|)
    ensures Column(plan.cards, cards, CardParts(rows), |rows|)
    ensures Column(plan.attachments, attachments, AttachmentParts(rows), |rows|)
    ensures Column(plan.logs, logs, LogParts(rows), |rows|)
  {
    hide *;
    var o: seq<nat>, c: seq<nat>, a: seq<nat>, l: seq<nat> := [0], [0], [0], [0];
    options, cards, attachments, logs := 0, 0, 0, 0;
    ColumnStarts(OptionParts(rows));
    ColumnStarts(CardParts(rows));
    ColumnStarts(AttachmentParts(rows));
    ColumnStarts(LogParts(rows));
    for row := 0 to |rows|
      invariant Column(o, options, OptionParts(rows), row) && Column(c, cards, CardParts(rows), row)
      invariant Column(a, attachments, AttachmentParts(rows), row) && Column(l, logs, LogParts(rows), row)
    {
      var counts := rowCounts[row];
      PartSizes(rows, row);
      ColumnStep(o, options, OptionParts(rows), row, counts.options);
      ColumnStep(c, cards, CardParts(rows), row, counts.cards);
      ColumnStep(a, attachments, AttachmentParts(rows), row, counts.attachments);
      ColumnStep(l, logs, LogParts(rows), row, counts.logs);
      options, cards := options + counts.options, cards + counts.cards;
      attachments, logs := attachments + counts.attachments, logs + counts.logs;
      o, c := o + [NextOffset(options)], c + [NextOffset(cards)];
      a, l := a + [NextOffset(attachments)], l + [NextOffset(logs)];
    }
    plan := Plan(o, c, a, l);
  }

  /** How the validation ends: too few rows, an exception, a column that overflows, or a plan. */
  ghost function PlanCode(out: ArenaOutput, rows: seq<Row>): int {
    if |rows| > out.scalars.Length then INSUFFICIENT_CAPACITY
    else if exists i :: 0 <= i < |rows| && CountThrows(rows[i]) then ENGINE_EXCEPTION
    else if Fits(out, rows) then OK else INSUFFICIENT_CAPACITY
  }

  /** The plan is accepted exactly when nothing throws and every column fits. */
  method ValidateOutput(out: ArenaOutput, rows: seq<Row>) returns (code: int, plan: Plan)
    ensures code == PlanCode(out, rows)
    ensures code == OK ==> Plans(plan, rows) && Fits(out, rows) && forall i :: 0 <= i < |rows| ==> !CountThrows(rows[i])
  {
    hide CountThrows, CountsOf, OptionParts, CardParts, AttachmentParts, LogParts, OffsetOf, Column, NextOffset, Fits,
         Plans;
    plan := Plan([0], [0], [0], [0]);
    if out.scalars.Length < |rows| {
      return INSUFFICIENT_CAPACITY, plan;
    }
    var thrown, rowCounts := CountRows(rows);
    if thrown {
      return ENGINE_EXCEPTION, plan;
    }
    var options, cards, attachments, logs;
    plan, options, cards, attachments, logs := PlanRows(rows, rowCounts);
    PlanEnds(out, rows, plan, options, cards, attachments, logs);
    if options > out.options.Length || options > UINT32_MAX {
      return INSUFFICIENT_CAPACITY, plan;
    }
    if cards > out.table.cards.Length || cards > UINT32_MAX {
      return INSUFFICIENT_CAPACITY, plan;
    }
    if attachments > out.table.attachments.Length || attachments > UINT32_MAX {
      return INSUFFICIENT_CAPACITY, plan;
    }
    if logs > out.logs.Length || logs > UINT32_MAX {
      return INSUFFICIENT_CAPACITY, plan;
    }
    return OK, plan;
  }

  lemma PlanEnds(out: ArenaOutput, rows: seq<Row>, plan: Plan, options: nat, cards: nat, attachments: nat, logs: nat)
    requires |rows| <= out.scalars.Length
    requires Column(plan.options, options, OptionParts(rows), |rows|)
    requires Column(plan.cards, cards, CardParts(rows), |rows|)
    requires Column(plan.attachments, attachments, AttachmentParts(rows), |rows|)
    requires Column(plan.logs, logs, LogParts(rows), |rows|)
    ensures Fits(out, rows) <==>
      && options <= Min(out.options.Length, UINT32_MAX) && cards <= Min(out.table.cards.Length, UINT32_MAX)
      && attachments <= Min(out.table.attachments.Length, UINT32_MAX) && logs <= Min(out.logs.Length, UINT32_MAX)
    ensures Fits(out, rows) ==> Plans(plan, rows)
  {
    hide OptionParts, CardParts, AttachmentParts, LogParts, OffsetOf;
  }
}
