/** Which rows of a parallel pass run: all of them, or, once one has thrown, those the executor
    had already let in. */
module RowEntry {
  import opened Common
  import opened ArenaPlan
  import opened ArenaWrite
  import opened ArenaCommit
  import Machine = PoolMachine
  import Theorems = PoolTheorems

  /** An order of all the rows of [0, n). */
  ghost predicate IsSchedule(order: seq<nat>, n: nat) {
    Distinct(order) && forall r: nat :: r in order <==> r < n
  }

  /** One of the listed rows throws. */
  predicate SomeThrows(order: seq<nat>, rows: seq<Row>, json: Renderer) {
    exists r :: r in order && r < |rows| && OutputThrows(rows[r], json)
  }

  predicate BatchThrows(rows: seq<Row>, json: Renderer) {
    exists r: nat :: r < |rows| && OutputThrows(rows[r], json)
  }

  /** The rows entered among the first k of an order: before a throw all of them, after it the
      rows in `late`, which other workers entered before they saw the cancellation. */
  function Entered(order: seq<nat>, late: set<nat>, rows: seq<Row>, json: Renderer, k: nat): set<nat>
    requires k <= |order|
  {
    if k == 0 then {}
    else if order[k - 1] in late || !SomeThrows(order[..k - 1], rows, json) then
      Entered(order, late, rows, json, k - 1) + {order[k - 1]}
    else Entered(order, late, rows, json, k - 1)
  }

  /** What the executor guarantees: it enters every row, or one of those it enters throws. */
  ghost predicate EntryOk(entered: set<nat>, rows: seq<Row>, json: Renderer) {
    && (forall r: nat :: r in entered ==> r < |rows|)
    && (entered == AllRows(|rows|) || exists r: nat :: r in entered && r < |rows| && OutputThrows(rows[r], json))
  }

  // ---------------------------------------------------------------- both directions

  lemma ThrowsStep(order: seq<nat>, rows: seq<Row>, json: Renderer, k: nat)
    requires k < |order| && order[k] < |rows|
    ensures SomeThrows(order[..k + 1], rows, json)
      <==> SomeThrows(order[..k], rows, json) || OutputThrows(rows[order[k]], json)
  {
    hide OutputThrows;
    assert order[..k + 1] == order[..k] + [order[k]];
  }

  lemma ScheduleThrows(order: seq<nat>, rows: seq<Row>, json: Renderer)
    requires IsSchedule(order, |rows|)
    ensures SomeThrows(order[..|order|], rows, json) <==> BatchThrows(rows, json)
    ensures !SomeThrows(order[..0], rows, json)
  {
    hide OutputThrows;
    assert order[..|order|] == order;
  }

  lemma {:induction false} EnteredOfPrefix(order: seq<nat>, late: set<nat>, rows: seq<Row>, json: Renderer, k: nat)
    requires k <= |order| && forall r :: r in order ==> r < |rows|
    ensures forall r :: r in Entered(order, late, rows, json, k) ==> r in order[..k]
    ensures SomeThrows(order[..k], rows, json) ==>
      exists r: nat :: r in Entered(order, late, rows, json, k) && r < |rows| && OutputThrows(rows[r], json)
    ensures !SomeThrows(order[..k], rows, json) ==>
      forall r :: r in order[..k] ==> r in Entered(order, late, rows, json, k)
  {
    hide OutputThrows, SomeThrows;
    if k == 0 {
      ThrowsNone(rows, json);
    } else {
      EnteredOfPrefix(order, late, rows, json, k - 1);
      assert order[k - 1] in order && order[..k] == order[..k - 1] + [order[k - 1]];
      ThrowsStep(order, rows, json, k - 1);
    }
  }

  lemma ThrowsNone(rows: seq<Row>, json: Renderer)
    ensures !SomeThrows([], rows, json)
  {
  }

  /** The rows entered are always what the executor guarantees, and all rows when nothing in the
      batch throws. */
  lemma EnteredIsEntry(order: seq<nat>, late: set<nat>, rows: seq<Row>, json: Renderer)
    requires IsSchedule(order, |rows|)
    ensures EntryOk(Entered(order, late, rows, json, |order|), rows, json)
    ensures !BatchThrows(rows, json) ==> Entered(order, late, rows, json, |order|) == AllRows(|rows|)
  {
    hide OutputThrows, SomeThrows, BatchThrows, Distinct, AllRows, Entered;
    EnteredOfPrefix(order, late, rows, json, |order|);
    ScheduleThrows(order, rows, json);
    assert order[..|order|] == order;
    assert forall r: nat :: r in AllRows(|rows|) <==> r in order;
  }

  /** Conversely every set of rows the executor may enter arises from an order. */
  lemma EntryArises(entered: set<nat>, rows: seq<Row>, json: Renderer) returns (order: seq<nat>)
    requires EntryOk(entered, rows, json)
    ensures IsSchedule(order, |rows|) && Entered(order, entered, rows, json, |order|) == entered
  {
    hide OutputThrows, SomeThrows, AllRows;
    if entered == AllRows(|rows|) {
      order := Others(|rows|, |rows|);
      OthersListed(|rows|, |rows|);
      assert forall k: nat :: k < |order| ==> order[k] in order;
    } else {
      var t: nat :| t in entered && t < |rows| && OutputThrows(rows[t], json);
      order := [t] + Others(|rows|, t);
      OthersListed(|rows|, t);
      assert forall k: nat :: 1 <= k < |order| ==> order[k] in Others(|rows|, t);
      forall k: nat | 1 <= k < |order| ensures SomeThrows(order[..k], rows, json) {
        assert order[..k][0] == t;
        ListedThrows(order[..k], rows, json, t);
      }
    }
    EnteredAreLate(order, entered, rows, json, |order|);
    assert order[..|order|] == order;
  }

  lemma ListedThrows(order: seq<nat>, rows: seq<Row>, json: Renderer, t: nat)
    requires t in order && t < |rows| && OutputThrows(rows[t], json)
    ensures SomeThrows(order, rows, json)
  {
  }

  /** All rows but t in ascending order. */
  function Others(n: nat, t: nat): seq<nat> {
    if n == 0 then [] else if n - 1 == t then Others(n - 1, t) else Others(n - 1, t) + [n - 1]
  }

  lemma {:induction false} OthersListed(n: nat, t: nat)
    ensures forall r: nat :: r in Others(n, t) <==> r < n && r != t
    ensures Distinct(Others(n, t))
  {
    if n > 0 {
      OthersListed(n - 1, t);
      var most := Others(n - 1, t);
      assert forall i :: 0 <= i < |most| ==> most[i] in most;
    }
  }

  lemma {:induction false} EnteredAreLate(order: seq<nat>, late: set<nat>, rows: seq<Row>, json: Renderer, k: nat)
    requires k <= |order|
    requires forall j: nat :: j < k ==> order[j] in late || SomeThrows(order[..j], rows, json)
    ensures Entered(order, late, rows, json, k) == set r | r in order[..k] && r in late
  {
    hide SomeThrows;
    if k > 0 {
      EnteredAreLate(order, late, rows, json, k - 1);
      assert order[..k] == order[..k - 1] + [order[k - 1]];
    }
  }

  // ---------------------------------------------------------------- the executor

  /** The rows a completed job entered are those of an order, if a row that threw is one whose
      output throws. */
  lemma ExecutorEnters(s: Machine.Pool, id: Machine.JobId, rows: seq<Row>, json: Renderer)
    returns (order: seq<nat>, late: set<nat>)
    requires Theorems.Reachable(s) && id < |s.table| && s.table[id].remaining == 0 && s.table[id].count == |rows|
    requires forall r: nat :: r in s.table[id].thrown ==> r < |rows| && OutputThrows(rows[r], json)
    ensures IsSchedule(order, |rows|)
    ensures forall r: nat :: r in s.table[id].called <==> r in Entered(order, late, rows, json, |order|)
  {
    hide OutputThrows, Entered, AllRows, IsSchedule;
    var j := s.table[id];
    Theorems.ExactlyOnceOrFirstThrow(s, id);
    Theorems.AtMostOnce(s, id);
    late := set r | r in j.called;
    if j.exception.None? {
      assert late == AllRows(|rows|);
    } else {
      assert j.thrown[0] in late;
    }
    order := EntryArises(late, rows, json);
  }
}
