/** What a writing pass makes of the buffers and the lane: which rows are written, what one row
    adds, and that the finished contents depend on the batch alone. */
module ArenaCommit {
  import opened Common
  import opened PublicState
  import opened PublicLogs
  import opened ArenaPlan
  import opened ArenaOutput
  import opened ArenaWrite

  // ---------------------------------------------------------------- everything a call can change

  datatype Contents = Contents(
    scalars: seq<Scalars>, options: seq<OptionRow>, cards: seq<CardRow>, attachments: seq<AttachmentRow>,
    logs: seq<PublicLog>, slots: seq<Option<BattleData>>, observations: seq<string>)

  function ContentsOf(lane: CgTrainLane, out: ArenaOutput): Contents
    reads lane, Columns(out)
  {
    Contents(out.scalars[..], out.options[..], out.table.cards[..], out.table.attachments[..], out.logs[..],
             lane.slots, lane.observations)
  }

  function AllRows(n: nat): (all: set<nat>)
    ensures forall i: nat :: i in all <==> i < n
  {
    if n == 0 then {} else AllRows(n - 1) + {n - 1}
  }

  /** A batch of rows and the slots they belong to, once the games are in the lane. */
  ghost predicate BatchOk(rows: seq<Row>, slots: seq<nat>, games: seq<Option<BattleData>>) {
    && |rows| == |slots| && Distinct(slots)
    && forall i :: 0 <= i < |rows| ==>
         slots[i] < |games| && games[slots[i]] == rows[i].data && RowOk(rows[i]) && !CountThrows(rows[i])
  }

  function ObservationOf(row: Row, json: Renderer, before: string): string {
    if IsSuccessfulOutput(row) && json(row.data.value).Some? then json(row.data.value).value else before
  }

  /** The rows of `done` that were written to the end. */
  function Whole(rows: seq<Row>, json: Renderer, done: set<nat>): set<nat> {
    set r | r in done && r < |rows| && !OutputThrows(rows[r], json)
  }

  /** The rows in `done` are written, up to where they throw, and nothing else is. */
  ghost predicate Written(c0: Contents, c: Contents, rows: seq<Row>, slots: seq<nat>, json: Renderer,
                          done: set<nat>)
    requires BatchOk(rows, slots, c0.slots)
  {
    && Placed(c0.options, c.options, OptionParts(rows), done) && Placed(c0.cards, c.cards, CardParts(rows), done)
    && Placed(c0.attachments, c.attachments, AttachmentParts(rows), done)
    && Placed(c0.logs, c.logs, LogParts(rows), Whole(rows, json, done))
    && ScalarsWritten(c0.scalars, c.scalars, rows, done)
    && SlotsWritten(c0, c, rows, slots, json, Whole(rows, json, done))
  }

  ghost predicate ScalarsWritten(s0: seq<Scalars>, s: seq<Scalars>, rows: seq<Row>, done: set<nat>) {
    && |s| == |s0| >= |rows|
    && forall i: nat :: i < |s| ==>
         s[i] == if i < |rows| && i in done then ScalarsOf(rows[i], OffsetOf(CardParts(rows), i)) else s0[i]
  }

  ghost predicate SlotsWritten(c0: Contents, c: Contents, rows: seq<Row>, slots: seq<nat>, json: Renderer,
                               whole: set<nat>)
    requires BatchOk(rows, slots, c0.slots)
  {
    && |c.slots| == |c0.slots| == |c.observations| == |c0.observations|
    && (forall i: nat :: i < |rows| ==>
          && c.slots[slots[i]] == (if i in whole then AfterOutput(rows[i]) else rows[i].data)
          && c.observations[slots[i]]
               == (if i in whole then ObservationOf(rows[i], json, c0.observations[slots[i]])
                   else c0.observations[slots[i]]))
    && (forall k: nat :: k < |c.slots| && k !in slots ==>
        c.slots[k] == c0.slots[k] && c.observations[k] == c0.observations[k])
  }

  /** What one row makes of the contents. */
  ghost function WithRow(c: Contents, rows: seq<Row>, slots: seq<nat>, json: Renderer, r: nat): Contents
    requires r < |rows| == |slots| && slots[r] < |c.slots| == |c.observations| && r < |c.scalars|
    requires RowOk(rows[r]) && !CountThrows(rows[r])
    requires OffsetOf(OptionParts(rows), r) + |OptionParts(rows)[r]| <= |c.options|
    requires OffsetOf(CardParts(rows), r) + |CardParts(rows)[r]| <= |c.cards|
    requires OffsetOf(AttachmentParts(rows), r) + |AttachmentParts(rows)[r]| <= |c.attachments|
    requires OffsetOf(LogParts(rows), r) + |LogParts(rows)[r]| <= |c.logs|
  {
    Contents(c.scalars[r := ScalarsOf(rows[r], OffsetOf(CardParts(rows), r))],
             Patch(c.options, OffsetOf(OptionParts(rows), r), OptionParts(rows)[r]),
             Patch(c.cards, OffsetOf(CardParts(rows), r), CardParts(rows)[r]),
             Patch(c.attachments, OffsetOf(AttachmentParts(rows), r), AttachmentParts(rows)[r]),
             if OutputThrows(rows[r], json) then c.logs
             else Patch(c.logs, OffsetOf(LogParts(rows), r), LogParts(rows)[r]),
             if OutputThrows(rows[r], json) then c.slots else c.slots[slots[r] := AfterOutput(rows[r])],
             c.observations[slots[r] := ObservationOf(rows[r], json, c.observations[slots[r]])])
  }

  /** Room for a row. */
  lemma WrittenRoom(c0: Contents, c: Contents, rows: seq<Row>, slots: seq<nat>, json: Renderer,
                    done: set<nat>, r: nat)
    requires BatchOk(rows, slots, c0.slots) && Written(c0, c, rows, slots, json, done) && r < |rows|
    ensures slots[r] < |c.slots| == |c.observations| && r < |c.scalars|
    ensures OffsetOf(OptionParts(rows), r) + |OptionParts(rows)[r]| <= |c.options|
    ensures OffsetOf(CardParts(rows), r) + |CardParts(rows)[r]| <= |c.cards|
    ensures OffsetOf(AttachmentParts(rows), r) + |AttachmentParts(rows)[r]| <= |c.attachments|
    ensures OffsetOf(LogParts(rows), r) + |LogParts(rows)[r]| <= |c.logs|
    ensures r !in done ==> c.slots[slots[r]] == rows[r].data && c.observations[slots[r]] == c0.observations[slots[r]]
  {
    hide OffsetOf, OptionParts, CardParts, AttachmentParts, LogParts, ScalarsOf, AfterOutput, ObservationOf,
         CountThrows, Stretch, RowOk, OutputThrows;
    OffsetStep(OptionParts(rows), r);
    OffsetStep(CardParts(rows), r);
    OffsetStep(AttachmentParts(rows), r);
    OffsetStep(LogParts(rows), r);
  }

  /** One more row. */
  lemma WrittenStep(c0: Contents, c: Contents, rows: seq<Row>, slots: seq<nat>, json: Renderer,
                    done: set<nat>, r: nat)
    requires BatchOk(rows, slots, c0.slots) && Written(c0, c, rows, slots, json, done) && r < |rows| && r !in done
    ensures slots[r] < |c.slots| == |c.observations| && r < |c.scalars|
    ensures OffsetOf(OptionParts(rows), r) + |OptionParts(rows)[r]| <= |c.options|
    ensures OffsetOf(CardParts(rows), r) + |CardParts(rows)[r]| <= |c.cards|
    ensures OffsetOf(AttachmentParts(rows), r) + |AttachmentParts(rows)[r]| <= |c.attachments|
    ensures OffsetOf(LogParts(rows), r) + |LogParts(rows)[r]| <= |c.logs|
    ensures Written(c0, WithRow(c, rows, slots, json, r), rows, slots, json, done + {r})
  {
    hide OffsetOf, OptionParts, CardParts, AttachmentParts, LogParts, ScalarsOf, AfterOutput, ObservationOf,
         CountThrows, Stretch,
         RowOk, Patch, Placed, SlotsWritten, ScalarsWritten, OutputThrows, Whole;
    WholeStep(rows, json, done, r);
    WrittenRoom(c0, c, rows, slots, json, done, r);
    PlaceOne(c0.options, c.options, OptionParts(rows), done, r);
    PlaceOne(c0.cards, c.cards, CardParts(rows), done, r);
    PlaceOne(c0.attachments, c.attachments, AttachmentParts(rows), done, r);
    ScalarsStep(c0.scalars, c.scalars, rows, done, r);
    if OutputThrows(rows[r], json) {
      NoObservation(rows[r], json, c.observations[slots[r]]);
      assert c.observations[slots[r] := c.observations[slots[r]]] == c.observations;
      SlotsAlike(c0, c, rows, slots, json, Whole(rows, json, done), WithRow(c, rows, slots, json, r));
    } else {
      PlaceOne(c0.logs, c.logs, LogParts(rows), Whole(rows, json, done), r);
      SlotsStep(c0, c, rows, slots, json, Whole(rows, json, done), r, WithRow(c, rows, slots, json, r));
    }
  }

  lemma WholeStep(rows: seq<Row>, json: Renderer, done: set<nat>, r: nat)
    requires r < |rows| && r !in done
    ensures r !in Whole(rows, json, done)
    ensures Whole(rows, json, done + {r})
         == if OutputThrows(rows[r], json) then Whole(rows, json, done) else Whole(rows, json, done) + {r}
  {
    hide OutputThrows;
  }

  lemma NoObservation(row: Row, json: Renderer, before: string)
    requires OutputThrows(row, json)
    ensures ObservationOf(row, json, before) == before
  {
  }

  lemma SlotsAlike(c0: Contents, c: Contents, rows: seq<Row>, slots: seq<nat>, json: Renderer, whole: set<nat>,
                   d: Contents)
    requires BatchOk(rows, slots, c0.slots) && SlotsWritten(c0, c, rows, slots, json, whole)
    requires d.slots == c.slots && d.observations == c.observations
    ensures SlotsWritten(c0, d, rows, slots, json, whole)
  {
    hide AfterOutput, ObservationOf, CountThrows, RowOk;
  }

  lemma ScalarsStep(s0: seq<Scalars>, s: seq<Scalars>, rows: seq<Row>, done: set<nat>, r: nat)
    requires ScalarsWritten(s0, s, rows, done) && r < |rows|
    ensures ScalarsWritten(s0, s[r := ScalarsOf(rows[r], OffsetOf(CardParts(rows), r))], rows, done + {r})
  {
    hide OffsetOf, CardParts, ScalarsOf;
  }

  lemma SlotsStep(c0: Contents, c: Contents, rows: seq<Row>, slots: seq<nat>, json: Renderer,
                  done: set<nat>, r: nat, d: Contents)
    requires BatchOk(rows, slots, c0.slots) && SlotsWritten(c0, c, rows, slots, json, done) && r < |rows| && r !in done
    requires d.slots == c.slots[slots[r] := AfterOutput(rows[r])]
    requires d.observations == c.observations[slots[r] := ObservationOf(rows[r], json, c.observations[slots[r]])]
    ensures SlotsWritten(c0, d, rows, slots, json, done + {r})
  {
    hide AfterOutput, ObservationOf, CountThrows, RowOk;
    forall i: nat | i < |rows| && i != r ensures slots[i] != slots[r] {
      assert i < r || r < i;
    }
  }

  lemma WrittenNone(c: Contents, rows: seq<Row>, slots: seq<nat>, json: Renderer)
    requires BatchOk(rows, slots, c.slots) && |c.slots| == |c.observations| && |rows| <= |c.scalars|
    requires OffsetOf(OptionParts(rows), |rows|) <= |c.options| && OffsetOf(CardParts(rows), |rows|) <= |c.cards|
    requires OffsetOf(AttachmentParts(rows), |rows|) <= |c.attachments| && OffsetOf(LogParts(rows), |rows|) <= |c.logs|
    ensures Written(c, c, rows, slots, json, {})
  {
    hide OffsetOf, OptionParts, CardParts, AttachmentParts, LogParts, Placed, BatchOk, SlotsWritten, ScalarsWritten;
    PlaceNone(c.options, OptionParts(rows));
    PlaceNone(c.cards, CardParts(rows));
    PlaceNone(c.attachments, AttachmentParts(rows));
    PlaceNone(c.logs, LogParts(rows));
    assert Whole(rows, json, {}) == {};
    SlotsNone(c, rows, slots, json);
  }

  lemma SlotsNone(c: Contents, rows: seq<Row>, slots: seq<nat>, json: Renderer)
    requires BatchOk(rows, slots, c.slots) && |c.slots| == |c.observations| && |rows| <= |c.scalars|
    ensures ScalarsWritten(c.scalars, c.scalars, rows, {}) && SlotsWritten(c, c, rows, slots, json, {})
  {
    hide AfterOutput, ObservationOf, CountThrows, RowOk, ScalarsOf, OffsetOf, CardParts;
  }

  /** The finished contents depend on the batch and the rows entered alone: whatever order filled
      them, two results are equal in every column, slot and observation. */
  lemma ResultIsUnique(c0: Contents, a: Contents, b: Contents, rows: seq<Row>, slots: seq<nat>,
                       json: Renderer, entered: set<nat>)
    requires BatchOk(rows, slots, c0.slots)
    requires Written(c0, a, rows, slots, json, entered) && Written(c0, b, rows, slots, json, entered)
    ensures a == b
  {
    hide OffsetOf, OptionParts, CardParts, AttachmentParts, LogParts, Placed, BatchOk, SlotsWritten, ScalarsWritten;
    PlacedOnce(c0.options, a.options, b.options, OptionParts(rows), entered);
    PlacedOnce(c0.cards, a.cards, b.cards, CardParts(rows), entered);
    PlacedOnce(c0.attachments, a.attachments, b.attachments, AttachmentParts(rows), entered);
    PlacedOnce(c0.logs, a.logs, b.logs, LogParts(rows), Whole(rows, json, entered));
    ScalarsUnique(c0.scalars, a.scalars, b.scalars, rows, entered);
    SlotsUnique(c0, a, b, rows, slots, json, Whole(rows, json, entered));
  }

  lemma ScalarsUnique(s0: seq<Scalars>, a: seq<Scalars>, b: seq<Scalars>, rows: seq<Row>, entered: set<nat>)
    requires ScalarsWritten(s0, a, rows, entered) && ScalarsWritten(s0, b, rows, entered)
    ensures a == b
  {
    hide ScalarsOf, OffsetOf, CardParts;
  }

  lemma SlotsUnique(c0: Contents, a: Contents, b: Contents, rows: seq<Row>, slots: seq<nat>, json: Renderer,
                    whole: set<nat>)
    requires BatchOk(rows, slots, c0.slots)
    requires SlotsWritten(c0, a, rows, slots, json, whole) && SlotsWritten(c0, b, rows, slots, json, whole)
    ensures a.slots == b.slots && a.observations == b.observations
  {
    hide AfterOutput, ObservationOf, CountThrows, RowOk;
    forall k: nat | k < |a.slots| ensures a.slots[k] == b.slots[k] && a.observations[k] == b.observations[k] {
      if k in slots {
        var i :| 0 <= i < |slots| && slots[i] == k;
      }
    }
  }
}
