/** The Python client's validation of planner and session answers, and that everything the native side
    answers passes it. */
module ClientCheck {
  import opened Common
  import opened Bytes
  import opened TransitionModel
  import opened ForcedPaths
  import opened SessionModel
  import opened SessionTransition
  import opened SessionBatch
  import opened SessionPayload
  import opened Wire
  import opened PlannerSession
  import opened PlannerGridModel
  import opened SessionCalls

  // ---------------------------------------------------------------- the client's rules

  const MAIN := 0
  const COIN_HEAD := 46
  const LAST_CONTEXT := 48
  const LAST_SELECT_TYPE := 11

  /** What both validators demand of a row of fourteen integers. */
  predicate RowValid(row: seq<int>, rootPlayer: int, forcedCap: int) {
    && |row| == 14
    && row[0] >= 0 && (row[1] == 0 || row[1] == 1) && 0 <= row[2] <= 5
    && 0 <= row[3] <= 1 && row[3] == rootPlayer && -1 <= row[4] <= 1
    && -1 <= row[5] <= LAST_CONTEXT && -1 <= row[11] <= LAST_SELECT_TYPE && -1 <= row[10] <= 2
    && row[6] >= 0 && 0 <= row[7] <= forcedCap
    && (row[0] == 0 ==> row[6] >= 1) && row[6] <= forcedCap + 1 && row[7] <= Max(row[6] - 1, 0)
    && row[8] >= 0 && row[9] >= 0
    && (row[0] == 0 <==> row[1] == 1) && (row[0] == 0 <==> row[2] != 0) && (row[0] == 0 <==> row[9] > 0)
    && (row[2] == 1 ==> row[4] == -1 && row[5] == -1 && row[11] == -1 && 0 <= row[10] <= 2)
    && (row[0] == 0 && row[2] != 1 ==> row[10] == -1)
    && (row[2] == 2 ==> row[4] == row[3] && row[5] == MAIN && row[11] == 0)
    && (row[2] == 3 ==> row[4] >= 0 && row[4] != row[3])
    && (row[2] == 4 ==> row[4] == row[3] && row[5] >= 0 && row[11] >= 0)
    && (row[2] == 5 ==> row[4] >= 0 && row[5] == COIN_HEAD)
  }

  /** The sum of a column over the first n rows. */
  function ColumnSum(rows: seq<seq<int>>, column: nat, n: nat): int
    requires n <= |rows| && forall i :: 0 <= i < |rows| ==> column < |rows[i]|
  {
    if n == 0 then 0 else ColumnSum(rows, column, n - 1) + rows[n - 1][column]
  }

  /** What the session validator demands besides: slices contiguous in row order over the whole blob,
      and a handle of this generation exactly for the states that planning may continue from. */
  predicate SessionValid(rows: seq<seq<int>>, generation: int, blob: nat, rootPlayer: int, forcedCap: int) {
    && (forall i :: 0 <= i < |rows| ==> RowValid(rows[i], rootPlayer, forcedCap))
    && (forall i :: 0 <= i < |rows| ==> rows[i][8] + rows[i][9] <= blob && rows[i][8] == ColumnSum(rows, 9, i))
    && ColumnSum(rows, 9, |rows|) == blob && generation > 0
    && (forall i :: 0 <= i < |rows| ==>
          && rows[i][12] >= -1 && rows[i][13] >= -1 && (rows[i][12] >= 0 <==> rows[i][13] >= 0)
          && (NeedsHandle(rows[i]) <==> rows[i][13] >= 0) && (NeedsHandle(rows[i]) ==> rows[i][12] == generation))
    && (forall i, j :: 0 <= i < j < |rows| && NeedsHandle(rows[i]) && NeedsHandle(rows[j]) ==>
          rows[i][13] != rows[j][13])
  }

  predicate NeedsHandle(row: seq<int>)
    requires |row| == 14
  {
    row[0] == 0 && (row[2] == 4 || row[2] == 5)
  }

  /** Both sides name the same magic numbers and versions, errors have fixed numbers,
      and both accept the same caps: at most 2^16 rows,
      2^24 engine steps, 64 forced prompts and 2^30 observation bytes. */
  lemma SidesAgree(steps: int, forced: int, observed: int)
    ensures PLANNER_MAGIC == 0x31434745 && PLANNER_VERSION == 6 && PLAN_WIDTH == 14
    ensures MAGIC == 0x31534745 && PAYLOAD_VERSION == 5 && METADATA_WIDTH == 14 && FINGERPRINT_BYTES == 32
    ensures INVALID_INPUT == 1 && ARENA_CAPACITY == 94 && STALE_HANDLE == 95 && EXCEPTION == 99
    ensures ForcedStepCap.Code() == 90 && OutputCapacity.Code() == 91 && Chance.Code() == 92
    ensures StepBudget.Code() == 93 && ArenaCapacity.Code() == 94
    ensures MAXIMUM_CELLS_PER_CALL == 65536 && MAXIMUM_STATE_SLOTS == 65536
    ensures CapsOk(steps, forced, observed) <==>
      0 < steps <= 16777216 && 0 <= forced <= 64 && 0 < observed <= 1073741824
  {
  }

  // ---------------------------------------------------------------- the engine

  /** What the client takes for granted of the engine: the numbers of its main and coin prompts, two
      players, prompts within the known ranges, a result exactly at the end, observations that are
      never empty, and error codes that are not negative. */
  ghost predicate Conforms(e: Engine) {
    && e.mainContext == MAIN + 1 && e.mainKind == 1 && e.coinHead == COIN_HEAD + 1
    && (forall s: State ::
          var p := e.prompt(s);
          if p.finished then 0 <= p.result <= 2
          else
            && p.result == -1 && 0 <= p.player <= 1 && 1 <= p.context <= LAST_CONTEXT + 1
            && 1 <= p.kind <= LAST_SELECT_TYPE + 1)
    && (forall s: State, player: int, logs: nat :: e.observe(s, player, logs) != [])
    && (forall s: State, action: seq<int> :: e.check(s, action) >= 0)
    && (forall lists: seq<seq<int>>, coin: bool, s: State, rng: Rng :: e.start(lists, coin, s, rng).0.error >= 0)
    && (forall s: State, rng: Rng, action: seq<int> :: e.step(s, rng, action).0.error >= 0)
  }

  lemma NeverEmpty(e: Engine, s: State, player: int, logs: nat)
    requires Conforms(e)
    ensures |e.observe(s, player, logs)| > 0
  {
    assert e.observe(s, player, logs) != [];
  }

  /** A row that says where an action led is a valid one. */
  lemma TellingIsValid(e: Engine, rootPlayer: int, forcedCap: int, row: seq<int>, leaf: State, forced: nat,
                       observed: nat)
    requires Conforms(e) && 0 <= rootPlayer <= 1 && |row| == 14 && row[8] >= 0
    requires RowSays(e, rootPlayer, row, leaf, forced, observed) && forced <= forcedCap && observed > 0
    ensures RowValid(row, rootPlayer, forcedCap)
  {
  }

  // ---------------------------------------------------------------- errors

  lemma {:induction false} DriveErrors(e: Engine, rootPlayer: int, maxForced: nat, budget: nat, s: State, rng: Rng,
                                       forced: nat)
    requires Conforms(e) && forced <= maxForced
    ensures Drive(e, rootPlayer, maxForced, budget, s, rng, forced).failure.Code() >= 0
    decreases maxForced - forced
  {
    hide ForcedHere;
    var action := ForcedHere(e, rootPlayer, s);
    if action.Some? && forced < maxForced && budget > 0 {
      StepError(e, s, rng, action.value);
      var (next, between) := e.step(s, rng, action.value);
      if FailureOf(next) == Fine {
        DriveErrors(e, rootPlayer, maxForced, budget - 1, next.state.value, between, forced + 1);
      }
    }
  }

  lemma StepError(e: Engine, s: State, rng: Rng, action: seq<int>)
    requires Conforms(e)
    ensures e.step(s, rng, action).0.error >= 0 && e.check(s, action) >= 0
  {
  }

  /** No failure has a negative code, and steps never fall short of the forced ones. */
  lemma TransitionErrors(e: Engine, rootPlayer: int, strict: bool, maxForced: nat, budget: nat, root: SearchInfo,
                         rng: Rng, action: seq<int>)
    requires Conforms(e) && root.error >= 0
    ensures var t := Transition(e, rootPlayer, strict, maxForced, budget, root, rng, action);
      && t.failure.Code() >= 0 && t.forced <= Max(t.steps - 1, 0) && t.steps <= maxForced + 1
      && (t.failure.Fine? <==> t.failure.Code() == 0)
  {
    hide Conforms, Drive;
    TransitionShape(e, rootPlayer, strict, maxForced, budget, root, rng, action);
    if FailureOf(root).Fine? {
      StepError(e, root.state.value, rng, action);
      if ActionError(e, root.state.value, action) == 0 && budget > 0 {
        var (first, between) := e.step(root.state.value, rng, action);
        if FailureOf(first).Fine? {
          DriveErrors(e, rootPlayer, maxForced, budget - 1, first.state.value, between, 0);
        }
      }
    }
  }
}
