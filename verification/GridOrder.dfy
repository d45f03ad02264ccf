/** The candidate-by-world grid: rows are stored candidate-major and filled world-major. */
module GridOrder {
  import opened Common

  function GridCell(worlds: nat, candidate: nat, world: nat): nat {
    candidate * worlds + world
  }

  function WorldOf(worlds: nat, i: nat): nat
    requires worlds > 0
  {
    i % worlds
  }

  function CandidateOf(worlds: nat, i: nat): nat
    requires worlds > 0
  {
    i / worlds
  }

  /** Cells filled when `world` worlds, and `candidate` candidates of the next one, are done. */
  function Filled(worlds: nat, candidates: nat, world: nat, candidate: nat): set<int>
    requires worlds > 0
  {
    set i: nat | 0 <= i < candidates * worlds
      && (WorldOf(worlds, i) < world || (WorldOf(worlds, i) == world && CandidateOf(worlds, i) < candidate))
  }

  function Everything(n: nat): (all: set<int>)
    ensures |all| == n && forall i :: i in all <==> 0 <= i < n
  {
    if n == 0 then {} else Everything(n - 1) + {n - 1}
  }

  lemma GridCellAt(worlds: nat, candidates: nat, candidate: nat, world: nat)
    requires world < worlds && candidate < candidates
    ensures GridCell(worlds, candidate, world) < candidates * worlds
    ensures CandidateOf(worlds, GridCell(worlds, candidate, world)) == candidate
    ensures WorldOf(worlds, GridCell(worlds, candidate, world)) == world
  {
    MulStrict(candidate, candidates, worlds);
    DivUnique(GridCell(worlds, candidate, world), worlds, candidate, world);
  }

  lemma GridCellBack(worlds: nat, candidates: nat, i: nat)
    requires worlds > 0 && i < candidates * worlds
    ensures CandidateOf(worlds, i) < candidates && WorldOf(worlds, i) < worlds
    ensures GridCell(worlds, CandidateOf(worlds, i), WorldOf(worlds, i)) == i
  {
    var q := i / worlds;
    assert i == worlds * q + i % worlds;
    if q >= candidates {
      MulMonotone(candidates, q, worlds);
    }
  }

  lemma FillCell(worlds: nat, candidates: nat, world: nat, candidate: nat)
    requires world < worlds && candidate < candidates
    ensures var i := GridCell(worlds, candidate, world);
      && i < candidates * worlds && i !in Filled(worlds, candidates, world, candidate)
      && Filled(worlds, candidates, world, candidate + 1) == Filled(worlds, candidates, world, candidate) + {i}
  {
    hide GridCell, WorldOf, CandidateOf;
    var i := GridCell(worlds, candidate, world);
    GridCellAt(worlds, candidates, candidate, world);
    forall k: nat | k in Filled(worlds, candidates, world, candidate + 1)
        && k !in Filled(worlds, candidates, world, candidate)
      ensures k == i
    {
      GridCellBack(worlds, candidates, k);
    }
  }

  lemma FillWorld(worlds: nat, candidates: nat, world: nat)
    requires worlds > 0
    ensures Filled(worlds, candidates, world, candidates) == Filled(worlds, candidates, world + 1, 0)
    ensures Filled(worlds, candidates, 0, 0) == {}
    ensures Filled(worlds, candidates, worlds, 0) == Everything(candidates * worlds)
  {
    hide GridCell, WorldOf, CandidateOf;
    forall k: nat | k in Everything(candidates * worlds)
      ensures CandidateOf(worlds, k) < candidates && WorldOf(worlds, k) < worlds
    {
      GridCellBack(worlds, candidates, k);
    }
  }

  // ---------------------------------------------------------------- execution orders

  /** Distinct rows among n. */
  predicate OrderOk(order: seq<nat>, n: nat) {
    Distinct(order) && forall k :: 0 <= k < |order| ==> order[k] < n
  }

  function RowsOf(order: seq<nat>): set<int> {
    set k | 0 <= k < |order| :: order[k]
  }

  lemma RowsOfNothing()
    ensures RowsOf([]) == {}
  {
  }

  lemma RowsOfStep(order: seq<nat>, n: nat)
    requires OrderOk(order, n) && order != []
    ensures var most := order[..|order| - 1];
      && OrderOk(most, n) && order[|order| - 1] !in RowsOf(most)
      && RowsOf(order) == RowsOf(most) + {order[|order| - 1]}
  {
    var most := order[..|order| - 1];
    forall k | 0 <= k < |order| ensures order[k] in RowsOf(most) + {order[|order| - 1]} {
      if k < |most| {
        assert order[k] == most[k];
      }
    }
    forall k | 0 <= k < |most| ensures order[k] == most[k] && most[k] in RowsOf(order) {
    }
  }

  lemma {:induction false} RowsOfSize(order: seq<nat>, n: nat)
    requires OrderOk(order, n)
    ensures |RowsOf(order)| == |order|
  {
    if order != [] {
      RowsOfStep(order, n);
      RowsOfSize(order[..|order| - 1], n);
    }
  }

  /** Rows from the first on. */
  function Upto(n: nat): seq<nat> {
    seq(n, i => i)
  }

  lemma UptoOk(n: nat, rows: nat)
    requires n <= rows
    ensures OrderOk(Upto(n), rows) && RowsOf(Upto(n)) == Everything(n)
  {
    forall i | 0 <= i < n ensures i in RowsOf(Upto(n)) {
      assert Upto(n)[i] == i;
    }
  }

  lemma UptoStep(n: nat)
    ensures Upto(n + 1) == Upto(n) + [n]
  {
  }

  /** The order of the nested loops: all candidates of world 0, then of world 1, and so on. */
  function WorldMajor(worlds: nat, candidates: nat, world: nat, candidate: nat): seq<nat> {
    if candidate > 0 then
        WorldMajor(worlds, candidates, world, candidate - 1) + [GridCell(worlds, candidate - 1, world)]
    else if world > 0 then WorldMajor(worlds, candidates, world - 1, candidates)
    else []
  }

  lemma {:induction false} WorldMajorOk(worlds: nat, candidates: nat, world: nat, candidate: nat)
    requires worlds > 0 && world <= worlds && candidate <= candidates && (world == worlds ==> candidate == 0)
    ensures OrderOk(WorldMajor(worlds, candidates, world, candidate), candidates * worlds)
    ensures RowsOf(WorldMajor(worlds, candidates, world, candidate)) == Filled(worlds, candidates, world, candidate)
    ensures |WorldMajor(worlds, candidates, world, candidate)| <= candidates * worlds
    decreases world, candidate
  {
    hide GridCell, Filled, Everything, RowsOf;
    FillWorld(worlds, candidates, 0);
    if candidate > 0 {
      WorldMajorOk(worlds, candidates, world, candidate - 1);
      FillCell(worlds, candidates, world, candidate - 1);
      OrderGrows(WorldMajor(worlds, candidates, world, candidate - 1), GridCell(worlds, candidate - 1, world),
                 candidates * worlds);
    } else if world > 0 {
      WorldMajorOk(worlds, candidates, world - 1, candidates);
      FillWorld(worlds, candidates, world - 1);
    } else {
      RowsOfNothing();
    }
    OrderFits(WorldMajor(worlds, candidates, world, candidate), candidates * worlds);
  }

  lemma OrderGrows(order: seq<nat>, i: nat, n: nat)
    requires OrderOk(order, n) && i < n && i !in RowsOf(order)
    ensures OrderOk(order + [i], n) && RowsOf(order + [i]) == RowsOf(order) + {i}
  {
    forall k | 0 <= k < |order| ensures order[k] in RowsOf(order) {
    }
    assert (order + [i])[..|order|] == order;
    RowsOfStep(order + [i], n);
  }

  lemma OrderFits(order: seq<nat>, n: nat)
    requires OrderOk(order, n)
    ensures |order| <= n
  {
    RowsOfSize(order, n);
    SubsetSize(RowsOf(order), Everything(n));
  }
}
