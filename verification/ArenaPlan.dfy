/** What a batch of rows will output, how it is laid out, and why writing the rows into
    their planned stretches gives one result in every order. */
module ArenaPlan {
  import opened Common
  import opened PublicState
  import opened PublicLogs

  const OK := 0
  const INVALID_ARGUMENT := -1
  const INSUFFICIENT_CAPACITY := -2
  const ENGINE_EXCEPTION := -3

  const SLOT_READY := 1
  const SLOT_FINISHED := 2
  const SLOT_ACTION_ERROR := 3
  const SLOT_RESET_ERROR := 4
  const SLOT_ENGINE_ERROR := 5

  const ERROR_NONE := 0
  const ERROR_TERMINAL := 105
  const ERROR_ENGINE_EXCEPTION := 199

  datatype OptionRow = OptionRow(kind: int, params: seq<int>)

  /** One game: what a row reads of it.  `facts` are the scalar columns copied one by one. */
  datatype BattleData = BattleData(view: View, options: seq<OptionRow>, facts: seq<int>, finished: bool,
                                   selectMax: int, logs: LogState)

  datatype Row = Row(data: Option<BattleData>, status: int, error: int, advances: nat)

  predicate IsSuccessfulOutput(row: Row) {
    row.data.Some? && row.error == ERROR_NONE && (row.status == SLOT_READY || row.status == SLOT_FINISHED)
  }

  // ---------------------------------------------------------------- what a row outputs

  function OptionsOf(row: Row): seq<OptionRow> {
    if row.data.None? then [] else row.data.value.options
  }

  function VisibleOf(row: Row): seq<Shown> {
    if row.data.None? then [] else Visible(row.data.value.view)
  }

  function LogsOf(row: Row): seq<PublicLog> {
    if IsSuccessfulOutput(row) then Unread(row.data.value.logs, row.data.value.view.selectPlayer) else []
  }

  /** The engine keeps both cursors inside the log. */
  ghost predicate RowOk(row: Row) {
    row.data.Some? ==> CursorsOk(row.data.value.logs)
  }

  /** Rows whose counting pass throws. */
  predicate CountThrows(row: Row) {
    || (row.data.Some? && !Traversable(row.data.value.view))
    || (IsSuccessfulOutput(row) && PublicLogStart(row.data.value.logs, row.data.value.view.selectPlayer).None?)
  }

  datatype Counts = Counts(options: nat, cards: nat, attachments: nat, logs: nat)

  function CountsOf(row: Row): Counts {
    Counts(|OptionsOf(row)|, |VisibleOf(row)|, |AttachmentRows(VisibleOf(row), 0)|, |LogsOf(row)|)
  }

  // ---------------------------------------------------------------- offsets

  /** Where part i starts when parts are laid end to end. */
  function OffsetOf<T>(parts: seq<seq<T>>, i: nat): nat
    requires i <= |parts|
  {
    if i == 0 then 0 else OffsetOf(parts, i - 1) + |parts[i - 1]|
  }

  lemma {:induction false} OffsetMonotone<T>(parts: seq<seq<T>>, i: nat, j: nat)
    requires i <= j <= |parts|
    ensures OffsetOf(parts, i) <= OffsetOf(parts, j)
  {
    if i < j {
      OffsetMonotone(parts, i, j - 1);
    }
  }

  function Parts<T>(rows: seq<Row>, f: Row -> seq<T>): (parts: seq<seq<T>>)
    ensures |parts| == |rows| && forall i :: 0 <= i < |rows| ==> parts[i] == f(rows[i])
  {
    seq(|rows|, i requires 0 <= i < |rows| => f(rows[i]))
  }

  function OptionParts(rows: seq<Row>): (parts: seq<seq<OptionRow>>)
    ensures |parts| == |rows|
  {
    Parts(rows, OptionsOf)
  }

  function CardParts(rows: seq<Row>): (parts: seq<seq<CardRow>>)
    ensures |parts| == |rows|
  {
    Parts(rows, (row: Row) => CardRows(VisibleOf(row)))
  }

  function LogParts(rows: seq<Row>): (parts: seq<seq<PublicLog>>)
    ensures |parts| == |rows|
  {
    Parts(rows, LogsOf)
  }

  /** Attachments name absolute card rows, so a row's part depends on where its cards start. */
  function AttachmentParts(rows: seq<Row>): (parts: seq<seq<AttachmentRow>>)
    ensures |parts| == |rows|
    ensures forall i :: 0 <= i < |rows| ==> parts[i] == AttachmentRows(VisibleOf(rows[i]), OffsetOf(CardParts(rows), i))
  {
    seq(|rows|, i requires 0 <= i < |rows| => AttachmentRows(VisibleOf(rows[i]), OffsetOf(CardParts(rows), i)))
  }

  // ---------------------------------------------------------------- disjoint stretches

  function Joined<T>(parts: seq<seq<T>>, n: nat): (s: seq<T>)
    requires n <= |parts|
    ensures |s| == OffsetOf(parts, n)
  {
    if n == 0 then [] else Joined(parts, n - 1) + parts[n - 1]
  }

  function Stretch<T>(s: seq<T>, parts: seq<seq<T>>, i: nat): seq<T>
    requires i < |parts| && OffsetOf(parts, |parts|) <= |s|
  {
    OffsetMonotone(parts, i + 1, |parts|);
    s[OffsetOf(parts, i)..OffsetOf(parts, i + 1)]
  }

  /** s holds the finished parts in their stretches and the initial contents s0 elsewhere. */
  ghost predicate Placed<T>(s0: seq<T>, s: seq<T>, parts: seq<seq<T>>, done: set<nat>) {
    && |s| == |s0| && OffsetOf(parts, |parts|) <= |s|
    && (forall i: nat :: i < |parts| ==> Stretch(s, parts, i) == if i in done then parts[i] else Stretch(s0, parts, i))
    && s[OffsetOf(parts, |parts|)..] == s0[OffsetOf(parts, |parts|)..]
  }

  lemma OffsetStep<T>(parts: seq<seq<T>>, i: nat)
    requires i < |parts|
    ensures OffsetOf(parts, i) + |parts[i]| == OffsetOf(parts, i + 1) <= OffsetOf(parts, |parts|)
  {
    OffsetMonotone(parts, i + 1, |parts|);
  }

  /** Writing one part leaves the others as they are. */
  lemma PlaceOne<T>(s0: seq<T>, s: seq<T>, parts: seq<seq<T>>, done: set<nat>, r: nat)
    requires Placed(s0, s, parts, done) && r < |parts|
    ensures OffsetOf(parts, r) + |parts[r]| <= |s|
    ensures Placed(s0, Patch(s, OffsetOf(parts, r), parts[r]), parts, done + {r})
  {
    hide Patch, Stretch, OffsetOf;
    var total := OffsetOf(parts, |parts|);
    OffsetStep(parts, r);
    var t := Patch(s, OffsetOf(parts, r), parts[r]);
    PatchElsewhere(s, OffsetOf(parts, r), parts[r], total, |s|);
    SplitAt(t, total);
    SplitAt(s, total);
    forall i: nat | i < |parts|
      ensures Stretch(t, parts, i) == if i in done + {r} then parts[i] else Stretch(s0, parts, i)
    {
      StretchAfter(s, parts, r, i);
    }
  }

  lemma StretchAfter<T>(s: seq<T>, parts: seq<seq<T>>, r: nat, i: nat)
    requires r < |parts| && i < |parts| && OffsetOf(parts, |parts|) <= |s|
    ensures OffsetOf(parts, r) + |parts[r]| <= |s|
    ensures Stretch(Patch(s, OffsetOf(parts, r), parts[r]), parts, i) == if i == r then parts[r]
        else Stretch(s, parts, i)
  {
    hide Patch, OffsetOf;
    OffsetStep(parts, r);
    OffsetStep(parts, i);
    if i == r {
      PatchThere(s, OffsetOf(parts, r), parts[r]);
    } else {
      if i < r {
        OffsetMonotone(parts, i + 1, r);
      } else {
        OffsetMonotone(parts, r + 1, i);
      }
      PatchElsewhere(s, OffsetOf(parts, r), parts[r], OffsetOf(parts, i), OffsetOf(parts, i + 1));
    }
  }

  /** Which parts are placed determines the contents: no other trace of the order is left. */
  lemma PlacedOnce<T>(s0: seq<T>, a: seq<T>, b: seq<T>, parts: seq<seq<T>>, done: set<nat>)
    requires Placed(s0, a, parts, done) && Placed(s0, b, parts, done)
    ensures a == b
  {
    hide Stretch, OffsetOf;
    SamePrefix(a, b, parts, |parts|);
    SplitAt(a, OffsetOf(parts, |parts|));
    SplitAt(b, OffsetOf(parts, |parts|));
  }

  lemma {:induction false} SamePrefix<T>(a: seq<T>, b: seq<T>, parts: seq<seq<T>>, n: nat)
    requires n <= |parts| && OffsetOf(parts, |parts|) <= |a| && OffsetOf(parts, |parts|) <= |b|
    requires forall i: nat :: i < n ==> Stretch(a, parts, i) == Stretch(b, parts, i)
    ensures OffsetOf(parts, n) <= |a| && OffsetOf(parts, n) <= |b| && a[..OffsetOf(parts, n)] == b[..OffsetOf(parts, n)]
  {
    hide OffsetOf, Stretch;
    OffsetMonotone(parts, n, |parts|);
    if n == 0 {
      NoParts(parts);
    } else {
      SamePrefix(a, b, parts, n - 1);
      StretchIs(a, parts, n - 1);
      StretchIs(b, parts, n - 1);
      SplitBetween(a, OffsetOf(parts, n - 1), OffsetOf(parts, n));
      SplitBetween(b, OffsetOf(parts, n - 1), OffsetOf(parts, n));
    }
  }

  /** Nothing is placed yet. */
  lemma PlaceNone<T>(s: seq<T>, parts: seq<seq<T>>)
    requires OffsetOf(parts, |parts|) <= |s|
    ensures Placed(s, s, parts, {})
  {
  }

  /** Once every part is placed the contents are determined: the parts joined, then what was
      there before.  The order of placing has left no trace. */
  lemma PlacedAll<T>(s0: seq<T>, s: seq<T>, parts: seq<seq<T>>, done: set<nat>)
    requires Placed(s0, s, parts, done) && forall i: nat :: i < |parts| ==> i in done
    ensures s == Joined(parts, |parts|) + s0[OffsetOf(parts, |parts|)..]
  {
    hide Stretch, OffsetOf, Joined;
    JoinedPrefix(s, parts, |parts|);
    SplitAt(s, OffsetOf(parts, |parts|));
  }

  lemma {:induction false} JoinedPrefix<T>(s: seq<T>, parts: seq<seq<T>>, n: nat)
    requires n <= |parts| && OffsetOf(parts, |parts|) <= |s|
    requires forall i: nat :: i < n ==> Stretch(s, parts, i) == parts[i]
    ensures OffsetOf(parts, n) <= |s| && s[..OffsetOf(parts, n)] == Joined(parts, n)
  {
    hide OffsetOf, Stretch;
    OffsetMonotone(parts, n, |parts|);
    if n == 0 {
      NoParts(parts);
    } else {
      JoinedPrefix(s, parts, n - 1);
      OffsetStep(parts, n - 1);
      StretchIs(s, parts, n - 1);
      SplitBetween(s, OffsetOf(parts, n - 1), OffsetOf(parts, n));
    }
  }

  lemma StretchIs<T>(s: seq<T>, parts: seq<seq<T>>, i: nat)
    requires i < |parts| && OffsetOf(parts, |parts|) <= |s|
    ensures OffsetOf(parts, i) <= OffsetOf(parts, i + 1) <= |s|
    ensures Stretch(s, parts, i) == s[OffsetOf(parts, i)..OffsetOf(parts, i + 1)]
  {
    hide OffsetOf;
    OffsetStep(parts, i);
    OffsetMonotone(parts, i + 1, |parts|);
  }

  lemma NoParts<T>(parts: seq<seq<T>>)
    ensures OffsetOf(parts, 0) == 0
  {
  }
}
