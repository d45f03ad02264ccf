/** The ragged buffers of the planner calls: counts beside one flat list of values, six
    hidden lists a world and one action a candidate. */
module PlannerInput {
  import opened Common
  import opened TransitionModel

  const HIDDEN_LIST_COUNT: nat := 6

  function Total(counts: seq<int>, n: nat): int
    requires n <= |counts|
  {
    if n == 0 then 0 else Total(counts, n - 1) + counts[n - 1]
  }

  predicate InRange(counts: seq<int>, maximumItem: int) {
    forall i :: 0 <= i < |counts| ==> 0 <= counts[i] <= maximumItem
  }

  lemma {:induction false} TotalMonotone(counts: seq<int>, m: nat, n: nat)
    requires m <= n <= |counts| && forall i :: m <= i < n ==> counts[i] >= 0
    ensures Total(counts, m) <= Total(counts, n)
  {
    if m < n {
      TotalMonotone(counts, m, n - 1);
    }
  }

  /** The sum is refused when an item is out of range or a C int cannot hold it. */
  method CheckedSum(values: seq<int>, maximumItem: int) returns (total: Option<int>)
    ensures total.Some? <==> InRange(values, maximumItem) && Total(values, |values|) <= INT32_MAX
    ensures total.Some? ==> total.value == Total(values, |values|)
  {
    var sum := 0;
    for index := 0 to |values|
      invariant InRange(values[..index], maximumItem)
      invariant sum == Total(values, index) <= INT32_MAX
    {
      if values[index] < 0 || values[index] > maximumItem {
        return None;
      }
      sum := sum + values[index];
      assert forall i :: 0 <= i < index ==> values[i] == values[..index][i];
      if sum > INT32_MAX {
        if InRange(values, maximumItem) {
          TotalMonotone(values, index + 1, |values|);
        }
        return None;
      }
    }
    assert values[..|values|] == values;
    return Some(sum);
  }

  /** Counts and values describe the same buffer. */
  predicate RaggedOk(counts: seq<int>, values: seq<int>) {
    (forall i :: 0 <= i < |counts| ==> counts[i] >= 0) && Total(counts, |counts|) == |values|
  }

  lemma TotalInside(counts: seq<int>, values: seq<int>, i: nat)
    requires RaggedOk(counts, values) && i < |counts|
    ensures 0 <= Total(counts, i) <= Total(counts, i + 1) <= |values|
  {
    TotalMonotone(counts, 0, i);
    TotalMonotone(counts, i, i + 1);
    TotalMonotone(counts, i + 1, |counts|);
  }

  /** Item i of the ragged list. */
  function Item(counts: seq<int>, values: seq<int>, i: nat): (item: seq<int>)
    requires RaggedOk(counts, values) && i < |counts|
    ensures |item| == counts[i]
  {
    TotalInside(counts, values, i);
    values[Total(counts, i)..Total(counts, i + 1)]
  }

  function JoinedItems(counts: seq<int>, values: seq<int>, n: nat): seq<int>
    requires RaggedOk(counts, values) && n <= |counts|
  {
    if n == 0 then [] else JoinedItems(counts, values, n - 1) + Item(counts, values, n - 1)
  }

  /** The items, each as long as its count, are the values one after the other. */
  lemma {:induction false} ItemsJoin(counts: seq<int>, values: seq<int>, n: nat)
    requires RaggedOk(counts, values) && n <= |counts|
    ensures 0 <= Total(counts, n) <= |values| && JoinedItems(counts, values, n) == values[..Total(counts, n)]
    ensures n == |counts| ==> JoinedItems(counts, values, n) == values
  {
    TotalMonotone(counts, 0, n);
    TotalMonotone(counts, n, |counts|);
    if n > 0 {
      ItemsJoin(counts, values, n - 1);
      TotalInside(counts, values, n - 1);
      SplitBetween(values, Total(counts, n - 1), Total(counts, n));
    }
  }

  method ReadActions(counts: seq<int>, values: seq<int>) returns (actions: seq<seq<int>>)
    requires RaggedOk(counts, values)
    ensures |actions| == |counts| && forall i :: 0 <= i < |actions| ==> actions[i] == Item(counts, values, i)
  {
    actions := [];
    var offset := 0;
    for actionIndex := 0 to |counts|
      invariant offset == Total(counts, actionIndex)
      invariant |actions| == actionIndex && forall i :: 0 <= i < actionIndex ==> actions[i] == Item(counts, values, i)
    {
      TotalInside(counts, values, actionIndex);
      var action: seq<int> := [];
      ghost var start := offset;
      for index := 0 to counts[actionIndex]
        invariant offset == start + index && action == values[start..offset]
      {
        action := action + [values[offset]];
        offset := offset + 1;
      }
      actions := actions + [action];
    }
  }

  /** The six hidden lists of a world. */
  function WorldLists(counts: seq<int>, values: seq<int>, world: nat): (lists: seq<seq<int>>)
    requires RaggedOk(counts, values) && HIDDEN_LIST_COUNT * (world + 1) <= |counts|
    ensures |lists| == HIDDEN_LIST_COUNT
  {
    seq(HIDDEN_LIST_COUNT, i requires 0 <= i < HIDDEN_LIST_COUNT => Item(counts, values, HIDDEN_LIST_COUNT * world + i))
  }

  predicate AllKnown(e: Engine, list: seq<int>) {
    forall i :: 0 <= i < |list| ==> e.knownCard(list[i])
  }

  /** A world fits the state when every list has the size the state hides, and every card exists. */
  predicate WorldFits(e: Engine, base: State, rootPlayer: int, lists: seq<seq<int>>) {
    (forall i :: 0 <= i < |lists| ==> |lists[i]| == e.hiddenSize(base, rootPlayer, i) && AllKnown(e, lists[i]))
  }

  /** The root of a world: the determinized search, with the prizes turned face down again. */
  function StartWorld(e: Engine, base: State, rootPlayer: int, manualCoin: bool, lists: seq<seq<int>>,
                      rng: Rng): (SearchInfo, Rng) {
    if !WorldFits(e, base, rootPlayer, lists) then (SearchInfo(1, None), rng)
    else
      var (root, rng') := e.start(lists, manualCoin, base, rng);
      (if root.error == 0 && root.state.Some? then root.(state := Some(e.restore(root.state.value))) else root, rng')
  }

  /** Unknown cards leave a zero behind and spoil the world. */
  method CopyHiddenList(e: Engine, counts: seq<int>, values: seq<int>, listIndex: nat, offset: int)
    returns (valid: bool, destination: seq<int>, next: int)
    requires RaggedOk(counts, values) && listIndex < |counts| && offset == Total(counts, listIndex)
    ensures next == Total(counts, listIndex + 1)
    ensures valid <==> AllKnown(e, Item(counts, values, listIndex))
    ensures valid ==> destination == Item(counts, values, listIndex)
  {
    TotalInside(counts, values, listIndex);
    ghost var item := Item(counts, values, listIndex);
    destination := seq(counts[listIndex], i => 0);
    valid, next := true, offset;
    for index := 0 to counts[listIndex]
      invariant next == offset + index && |destination| == counts[listIndex]
      invariant valid <==> AllKnown(e, item[..index])
      invariant valid ==> destination[..index] == item[..index]
    {
      var cardId := values[next];
      assert cardId == item[index] && item[..index + 1] == item[..index] + [cardId];
      assert AllKnown(e, item[..index + 1]) <==> AllKnown(e, item[..index]) && e.knownCard(cardId) by {
        assert forall k :: 0 <= k < index ==> item[..index][k] == item[..index + 1][k];
        assert item[..index + 1][index] == cardId;
      }
      next := next + 1;
      if !e.knownCard(cardId) {
        valid := false;
      } else {
        destination := destination[index := cardId];
        assert destination[..index + 1] == destination[..index] + [cardId];
      }
    }
    assert item[..counts[listIndex]] == item;
    assert destination[..counts[listIndex]] == destination;
  }

  /** Reads one world from the running offset and starts its search. */
  method StartRoot(e: Engine, base: State, rootPlayer: int, manualCoin: bool, counts: seq<int>, values: seq<int>,
                   world: nat, offset: int, rng: Rng) returns (root: SearchInfo, rng': Rng, next: int)
    requires RaggedOk(counts, values) && HIDDEN_LIST_COUNT * (world + 1) <= |counts|
    requires offset == Total(counts, HIDDEN_LIST_COUNT * world)
    ensures next == Total(counts, HIDDEN_LIST_COUNT * (world + 1))
    ensures (root, rng') == StartWorld(e, base, rootPlayer, manualCoin, WorldLists(counts, values, world), rng)
  {
    hide AllKnown;
    ghost var wanted := WorldLists(counts, values, world);
    var first := HIDDEN_LIST_COUNT * world;
    var validCounts := true;
    for index := 0 to HIDDEN_LIST_COUNT
      invariant validCounts <==> forall i :: 0 <= i < index ==> |wanted[i]| == e.hiddenSize(base, rootPlayer, i)
    {
      assert wanted[index] == Item(counts, values, first + index);
      if counts[first + index] != e.hiddenSize(base, rootPlayer, index) {
        validCounts := false;
      }
    }
    var validValues, lists: seq<seq<int>> := true, [];
    next := offset;
    for index := 0 to HIDDEN_LIST_COUNT
      invariant next == Total(counts, first + index) && |lists| == index
      invariant validValues <==> forall i :: 0 <= i < index ==> AllKnown(e, wanted[i])
      invariant validValues ==> forall i :: 0 <= i < index ==> lists[i] == wanted[i]
    {
      assert wanted[index] == Item(counts, values, first + index);
      var valid, list, after := CopyHiddenList(e, counts, values, first + index, next);
      validValues := validValues && valid;
      lists := lists + [list];
      next := after;
    }
    if !validCounts || !validValues {
      return SearchInfo(1, None), rng, next;
    }
    assert lists == wanted;
    var (started, after) := e.start(lists, manualCoin, base, rng);
    root, rng' := started, after;
    if root.error == 0 && root.state.Some? {
      root := root.(state := Some(e.restore(root.state.value)));
    }
  }
}
