/** The planner's decision grid on values: every cell is a function of its own world and its
    own candidate, and the answer is a function of the cells. */
module PlannerGridModel {
  import opened Common
  import opened Bytes
  import opened TransitionModel
  import opened SessionModel
  import opened SessionTransition
  import opened Wire
  import opened ForcedPaths

  // ---------------------------------------------------------------- cells

  datatype PlanCell = PlanCell(
    error: int32, rulesExact: bool, endpoint: Endpoint, rootPlayer: int32, leafPlayer: int32, leafContext: int32,
    transitionSteps: nat, forcedSteps: nat, observationOffset: nat, observationSize: nat, result: int32,
    leafSelectType: int32, leafObservationOffset: nat, leafObservationSize: nat)

  const FRESH_PLAN := PlanCell(0, false, Invalid, -1, -1, -1, 0, 0, 0, 0, -1, -1, 0, 0)

  /** A cell with its two observations; the offsets belong to the buffer they are put in. */
  datatype Outcome = Outcome(cell: PlanCell, used: nat, root: bytes, leaf: bytes)

  function CellOutcome(e: Engine, rootPlayer: int32, manualCoin: bool, maxForced: nat, root: SearchInfo, rootRng: Rng,
                       action: seq<int>): (o: Outcome)
    ensures o.cell.observationSize == |o.root| && o.cell.leafObservationSize == |o.leaf|
    ensures o.cell.forcedSteps <= maxForced && o.cell.transitionSteps <= 1 + maxForced
  {
    var t := Freely(e, rootPlayer, manualCoin, maxForced, root, rootRng, action);
    var cell := FRESH_PLAN.(rootPlayer := rootPlayer, error := t.failure.Code(), transitionSteps := t.steps,
                            forcedSteps := t.forced);
    if t.failure != Fine || t.leaf.None? || root.state.None? then Outcome(cell, t.used, [], [])
    else
      var leaf := t.leaf.value.state;
      var p := e.prompt(leaf);
      var logs := e.prompt(root.state.value).logs;
      var json := e.observe(leaf, rootPlayer, logs);
      var leafJson := if p.finished then [] else e.observe(leaf, p.player, logs);
      Outcome(cell.(rulesExact := true, endpoint := EndpointFor(e, p, rootPlayer),
                    leafPlayer := if p.finished then -1 else p.player,
                    leafContext := if p.finished then -1 else Pred32(p.context),
                    leafSelectType := if p.finished then -1 else Pred32(p.kind),
                    result := p.result, observationSize := |json|, leafObservationSize := |leafJson|),
              t.used, json, leafJson)
  }

  /** What an error-free cell means: the uncapped consequence of its candidate. */
  lemma OutcomeMeans(e: Engine, rootPlayer: int32, manualCoin: bool, maxForced: nat, root: SearchInfo, rootRng: Rng,
                     action: seq<int>, leaf: Slot, n: nat)
    requires Consequence(e, rootPlayer, manualCoin, root, rootRng, action, leaf, n)
    ensures var o := CellOutcome(e, rootPlayer, manualCoin, maxForced, root, rootRng, action);
      && (o.cell.error == 0 <==> n <= maxForced)
      && (o.cell.error == 0 ==>
            && o.cell.transitionSteps == 1 + n && o.cell.forcedSteps == n && o.used == 1 + n
            && o.cell.endpoint == EndpointFor(e, e.prompt(leaf.state), rootPlayer)
            && StandsAt(e, rootPlayer, e.prompt(leaf.state), o.cell.endpoint.Code())
            && o.root == e.observe(leaf.state, rootPlayer, e.prompt(root.state.value).logs)
            && (o.leaf == if e.prompt(leaf.state).finished then []
                          else e.observe(leaf.state, e.prompt(leaf.state).player, e.prompt(root.state.value).logs)))
  {
    hide Drive, Reaches, Settled, EndpointFor, StandsAt;
    EndpointStands(e, e.prompt(leaf.state), rootPlayer);
    TransitionSucceeds(e, rootPlayer, manualCoin, maxForced, maxForced + 1, root, rootRng, action, leaf, n);
    TransitionShape(e, rootPlayer, manualCoin, maxForced, maxForced + 1, root, rootRng, action);
    var t := Freely(e, rootPlayer, manualCoin, maxForced, root, rootRng, action);
    if t.failure.Fine? {
      TransitionSucceeds(e, rootPlayer, manualCoin, maxForced, maxForced + 1, root, rootRng, action, t.leaf.value,
                         t.forced);
      ConsequenceIsUnique(e, rootPlayer, manualCoin, root, rootRng, action, leaf, n, t.leaf.value, t.forced);
    }
  }

  lemma {:induction false} ReachesOnce(e: Engine, rootPlayer: int, s: State, rng: Rng, m: nat, t: State, tRng: Rng,
                                       n: nat, u: State, uRng: Rng)
    requires Reaches(e, rootPlayer, s, rng, m, t, tRng) && Settled(e, rootPlayer, t)
    requires Reaches(e, rootPlayer, s, rng, n, u, uRng) && Settled(e, rootPlayer, u)
    ensures m == n && t == u && tRng == uRng
  {
    if m > 0 && n > 0 {
      var (next, between) := e.step(s, rng, ForcedHere(e, rootPlayer, s).value);
      ReachesOnce(e, rootPlayer, next.state.value, between, m - 1, t, tRng, n - 1, u, uRng);
    }
  }

  /** An action has at most one consequence. */
  lemma ConsequenceIsUnique(e: Engine, rootPlayer: int, strict: bool, root: SearchInfo, rootRng: Rng, action: seq<int>,
                            a: Slot, m: nat, b: Slot, n: nat)
    requires Consequence(e, rootPlayer, strict, root, rootRng, action, a, m)
    requires Consequence(e, rootPlayer, strict, root, rootRng, action, b, n)
    ensures a == b && m == n
  {
    hide Reaches, Settled;
    var (first, rng) := e.step(root.state.value, rootRng, action);
    ReachesOnce(e, rootPlayer, first.state.value, rng, m, a.state, a.rng, n, b.state, b.rng);
  }

  // ---------------------------------------------------------------- the answer

  function RootsOf(os: seq<Outcome>): (parts: seq<bytes>)
    ensures |parts| == |os|
  {
    seq(|os|, i requires 0 <= i < |os| => os[i].root)
  }

  function LeavesOf(os: seq<Outcome>): (parts: seq<bytes>)
    ensures |parts| == |os|
  {
    seq(|os|, i requires 0 <= i < |os| => os[i].leaf)
  }

  function Concat(parts: seq<bytes>): bytes {
    if parts == [] then [] else Concat(parts[..|parts| - 1]) + parts[|parts| - 1]
  }

  /** All root-visible observations in row order, then all leaf-actor ones in row order. */
  function Observations(os: seq<Outcome>): bytes {
    Concat(RootsOf(os)) + Concat(LeavesOf(os))
  }

  function PlacedCells(os: seq<Outcome>): (cells: seq<PlanCell>)
    ensures |cells| == |os|
  {
    seq(|os|, i requires 0 <= i < |os| =>
      os[i].cell.(observationOffset := |Concat(RootsOf(os)[..i])|,
                  leafObservationOffset := |Concat(RootsOf(os))| + |Concat(LeavesOf(os)[..i])|))
  }

  lemma {:induction false} ConcatPrefix(parts: seq<bytes>, n: nat, i: nat)
    requires i <= n <= |parts|
    ensures Concat(parts[..i]) <= Concat(parts[..n])
    decreases n
  {
    if i < n {
      ConcatPrefix(parts, n - 1, i);
      assert parts[..n][..n - 1] == parts[..n - 1];
    }
  }

  /** Part i sits where the lengths of the earlier parts say, and the next one right after. */
  lemma ConcatAt(parts: seq<bytes>, i: nat)
    requires i < |parts|
    ensures var start := |Concat(parts[..i])|;
      && start + |parts[i]| <= |Concat(parts)|
      && start + |parts[i]| == |Concat(parts[..i + 1])|
      && Concat(parts)[start..start + |parts[i]|] == parts[i]
  {
    ConcatPrefix(parts, |parts|, i + 1);
    assert parts[..|parts|] == parts && parts[..i + 1][..i] == parts[..i];
    assert Concat(parts[..i + 1]) == Concat(parts[..i]) + parts[i];
  }

  /** What a reader of the answer finds at row i: both of its observations, the root slices
      contiguous in row order first, the leaf slices contiguous in row order after them. */
  lemma PlacedRowsTile(os: seq<Outcome>, i: nat)
    requires i < |os| && os[i].cell.observationSize == |os[i].root| && os[i].cell.leafObservationSize == |os[i].leaf|
    ensures
      var cells, blob := PlacedCells(os), Observations(os);
      var c := cells[i];
      var mid := |Concat(RootsOf(os))|;
      && c.observationOffset + c.observationSize == (if i + 1 < |os| then cells[i + 1].observationOffset else mid)
      && c.leafObservationOffset + c.leafObservationSize
          == (if i + 1 < |os| then cells[i + 1].leafObservationOffset else |blob|)
      && c.observationOffset + c.observationSize <= mid <= c.leafObservationOffset
      && c.leafObservationOffset + c.leafObservationSize <= |blob|
      && blob[c.observationOffset..c.observationOffset + c.observationSize] == os[i].root
      && blob[c.leafObservationOffset..c.leafObservationOffset + c.leafObservationSize] == os[i].leaf
  {
    hide Concat;
    var roots, leaves := RootsOf(os), LeavesOf(os);
    ConcatAt(roots, i);
    ConcatAt(leaves, i);
    assert roots[..|os|] == roots && leaves[..|os|] == leaves;
    Suffix(Concat(roots), Concat(leaves), |Concat(leaves[..i])|, |Concat(leaves[..i + 1])|);
  }

  lemma Suffix(a: bytes, b: bytes, lo: nat, hi: nat)
    requires lo <= hi <= |b|
    ensures (a + b)[|a| + lo..|a| + hi] == b[lo..hi]
  {
  }

  // ---------------------------------------------------------------- the payload

  const PLANNER_MAGIC := 0x31434745
  const PLANNER_VERSION := 6
  const PLAN_WIDTH: nat := 14
  const PLAN_HEADER_BYTES: nat := 88

  function PlanInts(c: PlanCell): (v: seq<int>)
    ensures |v| == PLAN_WIDTH
  {
    [c.error, if c.rulesExact then 1 else 0, c.endpoint.Code(), c.rootPlayer, c.leafPlayer, c.leafContext,
     c.transitionSteps, c.forcedSteps, c.observationOffset, c.observationSize, c.result, c.leafSelectType,
     c.leafObservationOffset, c.leafObservationSize]
  }

  function Flatten(cells: seq<PlanCell>): (v: seq<int>)
    ensures |v| == PLAN_WIDTH * |cells|
  {
    if cells == [] then [] else Flatten(cells[..|cells| - 1]) + PlanInts(cells[|cells| - 1])
  }

  datatype Plan = Plan(worlds: int, candidates: int, request: bytes, producer: bytes, rows: seq<int>,
                       observations: bytes)

  function EncodePlan(p: Plan): bytes {
    Words([PLANNER_MAGIC, PLANNER_VERSION, p.worlds, p.candidates, PLAN_WIDTH, |p.observations|])
      + p.request + p.producer + Words(p.rows) + p.observations
  }

  predicate PlanFits(p: Plan) {
    && Fits(|p.observations|) && AllFit(p.rows) && 0 <= p.worlds && 0 <= p.candidates && Fits(p.worlds)
    && Fits(p.candidates)
    && |p.rows| == PLAN_WIDTH * (p.candidates * p.worlds)
    && |p.request| == FINGERPRINT_BYTES && |p.producer| == FINGERPRINT_BYTES
  }

  function DecodePlan(b: bytes): Option<Plan> {
    if |b| < PLAN_HEADER_BYTES then None
    else
      var h := ReadWords(b[..24], 6);
      if h[0] != PLANNER_MAGIC || h[1] != PLANNER_VERSION || h[4] != PLAN_WIDTH then None
      else if h[2] < 0 || h[3] < 0 || h[5] < 0 then None
      else
        var ints: nat := PLAN_WIDTH * (h[3] * h[2]);
        if |b| != PLAN_HEADER_BYTES + 4 * ints + h[5] then None
        else Some(Plan(h[2], h[3], b[24..56], b[56..88],
                       ReadWords(b[PLAN_HEADER_BYTES..PLAN_HEADER_BYTES + 4 * ints], ints),
                       b[PLAN_HEADER_BYTES + 4 * ints..]))
  }

  lemma PlanRoundTrip(p: Plan)
    requires PlanFits(p)
    ensures DecodePlan(EncodePlan(p)) == Some(p)
  {
    hide Words, ReadWords;
    var header := [PLANNER_MAGIC, PLANNER_VERSION, p.worlds, p.candidates, PLAN_WIDTH, |p.observations|];
    var a, d := Words(header), Words(p.rows);
    ReadWordsBack(header, []);
    ReadWordsBack(p.rows, []);
    FiveParts(a, p.request, p.producer, d, p.observations);
    assert EncodePlan(p)[..24] == a + [] && d + [] == d;
  }
}
