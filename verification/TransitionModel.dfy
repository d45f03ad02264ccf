/** One planner transition: a root action, then every strategic prompt of the root player
    that leaves no choice.  The engine is a record of deterministic functions. */
module TransitionModel {
  import opened Common
  import opened Bytes

  type State(!new, ==, 0)
  type Rng(!new, ==, 0)

  /** What the planner reads of a state. */
  datatype Prompt = Prompt(
    finished: bool, context: int32, player: int32, kind: int32,
    options: nat, selectMin: int, selectMax: int, result: int32, logs: nat)

  datatype SearchInfo = SearchInfo(error: int32, state: Option<State>)

  datatype Engine = Engine(
    load: (bytes, int) -> Option<State>,
    hiddenSize: (State, int, int) -> int,
    knownCard: int -> bool,
    start: (seq<seq<int>>, bool, State, Rng) -> (SearchInfo, Rng),
    restore: State -> State,
    check: (State, seq<int>) -> int32,
    step: (State, Rng, seq<int>) -> (SearchInfo, Rng),
    prompt: State -> Prompt,
    observe: (State, int, nat) -> bytes,
    seeded: (nat, nat) -> Rng,
    deckSize: int, coinHead: int32, mainContext: int32, mainKind: int32)

  datatype Endpoint = Invalid | Terminal | SameSeatMain | TurnHandoff | RootStrategicPrompt | ChancePrompt {
    function Code(): int32 {
      match this
      case Invalid => 0
      case Terminal => 1
      case SameSeatMain => 2
      case TurnHandoff => 3
      case RootStrategicPrompt => 4
      case ChancePrompt => 5
    }
  }

  /** Why a cell failed; Fine when it did not. */
  datatype Failure = Fine | EngineError(code: int32) | InvalidState | ForcedStepCap
    | OutputCapacity | Chance | StepBudget | ArenaCapacity
  {
    function Code(): int32 {
      match this
      case Fine => 0
      case EngineError(code) => code
      case InvalidState => 1
      case ForcedStepCap => 90
      case OutputCapacity => 91
      case Chance => 92
      case StepBudget => 93
      case ArenaCapacity => 94
    }
  }

  // ---------------------------------------------------------------- prompts

  function EndpointFor(e: Engine, p: Prompt, rootPlayer: int): Endpoint {
    if p.finished then Terminal
    else if p.context == e.coinHead then ChancePrompt
    else if p.player != rootPlayer then TurnHandoff
    else if p.kind == e.mainKind && p.context == e.mainContext then SameSeatMain
    else RootStrategicPrompt
  }

  function MinCount(p: Prompt): nat {
    Min(p.options, Max(0, p.selectMin))
  }

  function MaxCount(p: Prompt): nat {
    Min(p.options, Max(MinCount(p), p.selectMax))
  }

  function ForcedAction(p: Prompt): Option<seq<int>> {
    if MaxCount(p) == 0 then Some([])
    else if p.options == 1 && MinCount(p) == 1 && MaxCount(p) == 1 then Some([0])
    else None
  }

  /** The selections a prompt admits: distinct option indices, as many as its bounds allow. */
  ghost predicate Admits(p: Prompt, action: seq<int>) {
    && MinCount(p) <= |action| <= MaxCount(p)
    && (forall i :: 0 <= i < |action| ==> 0 <= action[i] < p.options)
    && Distinct(action)
  }

  /** A forced action is the only selection the prompt admits, and conversely. */
  lemma ForcedIsTheOnlyChoice(p: Prompt, action: seq<int>)
    ensures ForcedAction(p) == Some(action) <==>
      Admits(p, action) && forall other :: Admits(p, other) ==> other == action
  {
    if ForcedAction(p).None? {
      var a, b := TwoChoices(p);
      assert a != action || b != action;
    } else {
      var only := ForcedAction(p).value;
      assert Admits(p, only);
      forall other | Admits(p, other) ensures other == only {
        assert |other| == |only|;
        assert |other| == 1 ==> 0 <= other[0] < 1;
      }
    }
  }

  lemma TwoChoices(p: Prompt) returns (a: seq<int>, b: seq<int>)
    requires ForcedAction(p).None?
    ensures Admits(p, a) && Admits(p, b) && a != b
  {
    var k := MaxCount(p);
    a := seq(k, i => i);
    if p.options == 1 {
      b := [];
    } else if k == 1 {
      b := [1];
    } else {
      b := a[0 := 1][1 := 0];
    }
    assert |a| != |b| || a[0] != b[0];
  }

  // ---------------------------------------------------------------- forced prompts

  function FailureOf(r: SearchInfo): Failure {
    if r.error != 0 then EngineError(r.error) else if r.state.None? then InvalidState else Fine
  }

  /** The step a forced prompt of the root player takes. */
  function ForcedHere(e: Engine, rootPlayer: int, s: State): Option<seq<int>> {
    if e.prompt(s).finished || EndpointFor(e, e.prompt(s), rootPlayer) != RootStrategicPrompt then None
    else ForcedAction(e.prompt(s))
  }

  /** Where the loop over forced prompts stops: `forced` steps succeeded, `used` were tried. */
  datatype Walk = Walk(failure: Failure, state: State, rng: Rng, forced: nat, used: nat)

  function Drive(e: Engine, rootPlayer: int, maxForced: nat, budget: nat, s: State, rng: Rng, forced: nat): (w: Walk)
    requires forced <= maxForced
    ensures forced <= w.forced <= maxForced
    ensures w.forced - forced <= w.used <= budget && w.used <= w.forced - forced + 1
    decreases maxForced - forced
  {
    var action := ForcedHere(e, rootPlayer, s);
    if action.None? then Walk(Fine, s, rng, forced, 0)
    else if forced >= maxForced then Walk(ForcedStepCap, s, rng, forced, 0)
    else if budget == 0 then Walk(StepBudget, s, rng, forced, 0)
    else
      var (next, rng') := e.step(s, rng, action.value);
      if FailureOf(next) != Fine then Walk(FailureOf(next), s, rng', forced, 1)
      else
        var rest := Drive(e, rootPlayer, maxForced, budget - 1, next.state.value, rng', forced + 1);
        rest.(used := rest.used + 1)
  }

  /** n forced steps lead from one state to another, whatever the caps are. */
  ghost predicate Reaches(e: Engine, rootPlayer: int, s: State, rng: Rng, n: nat, t: State, rng': Rng) {
    if n == 0 then s == t && rng == rng'
    else
      var action := ForcedHere(e, rootPlayer, s);
      action.Some?
      && var (next, between) := e.step(s, rng, action.value);
         FailureOf(next) == Fine && Reaches(e, rootPlayer, next.state.value, between, n - 1, t, rng')
  }

  /** No forced prompt is left. */
  ghost predicate Settled(e: Engine, rootPlayer: int, s: State) {
    ForcedHere(e, rootPlayer, s).None?
  }

  /** The loop succeeds exactly when a settled state is reached within both caps, and that
      state, its random stream and the step count do not depend on the caps. */
  lemma {:induction false} DriveReaches(e: Engine, rootPlayer: int, maxForced: nat, budget: nat,
                                        s: State, rng: Rng, forced: nat, n: nat, t: State, rng': Rng)
    requires forced <= maxForced
    ensures Drive(e, rootPlayer, maxForced, budget, s, rng, forced) == Walk(Fine, t, rng', forced + n, n) <==>
            forced + n <= maxForced && n <= budget && Reaches(e, rootPlayer, s, rng, n, t, rng')
                && Settled(e, rootPlayer, t)
    decreases maxForced - forced
  {
    var action := ForcedHere(e, rootPlayer, s);
    if action.Some? && forced < maxForced && budget > 0 {
      var (next, between) := e.step(s, rng, action.value);
      if FailureOf(next) == Fine && n > 0 {
        DriveReaches(e, rootPlayer, maxForced, budget - 1, next.state.value, between, forced + 1, n - 1, t, rng');
      }
    }
  }

  lemma {:induction false} DriveUses(e: Engine, rootPlayer: int, maxForced: nat, budget: nat, s: State, rng: Rng,
                                     forced: nat)
    requires forced <= maxForced
    ensures var w := Drive(e, rootPlayer, maxForced, budget, s, rng, forced);
      && (w.failure.Fine? ==> w.used == w.forced - forced)
      && (w.failure.StepBudget? ==> w.used == budget)
      && (w.failure.EngineError? ==> w.failure.code != 0)
      && !w.failure.OutputCapacity? && !w.failure.Chance? && !w.failure.ArenaCapacity?
    decreases maxForced - forced
  {
    var action := ForcedHere(e, rootPlayer, s);
    if action.Some? && forced < maxForced && budget > 0 {
      var (next, between) := e.step(s, rng, action.value);
      if FailureOf(next) == Fine {
        DriveUses(e, rootPlayer, maxForced, budget - 1, next.state.value, between, forced + 1);
      }
    }
  }

  // ---------------------------------------------------------------- the whole transition

  datatype Caps = Caps(maxEngineSteps: nat, maxForcedSteps: nat, maxObservationBytes: nat)

  /** A repeated option is error 6; anything else is for the engine to judge. */
  function ActionError(e: Engine, s: State, action: seq<int>): int32 {
    if !Distinct(action) then 6 else e.check(s, action)
  }

  datatype Slot = Slot(state: State, rng: Rng)

  /** How a transition ended: steps taken in all and forced, engine steps spent, and where. */
  datatype Trace = Trace(failure: Failure, steps: nat, forced: nat, used: nat, leaf: Option<Slot>)

  function Transition(e: Engine, rootPlayer: int, strict: bool, maxForced: nat, budget: nat,
                      root: SearchInfo, rootRng: Rng, action: seq<int>): (t: Trace)
    ensures t.used <= budget && t.forced <= maxForced && t.steps <= 1 + t.forced
    ensures t.failure.Fine? ==> t.leaf.Some? && root.state.Some?
  {
    if FailureOf(root) != Fine then Trace(FailureOf(root), 0, 0, 0, None)
    else
      var rejected := ActionError(e, root.state.value, action);
      if rejected != 0 then Trace(EngineError(rejected), 0, 0, 0, None)
      else if budget == 0 then Trace(StepBudget, 0, 0, 0, None)
      else
        var (first, rng) := e.step(root.state.value, rootRng, action);
        if FailureOf(first) != Fine then Trace(FailureOf(first), 0, 0, 1, None)
        else
          var w := Drive(e, rootPlayer, maxForced, budget - 1, first.state.value, rng, 0);
          var failure := if w.failure.Fine? && strict && w.rng != rootRng then Chance else w.failure;
          Trace(failure, 1 + w.forced, w.forced, 1 + w.used, Some(Slot(w.state, w.rng)))
  }

  /** The consequence of an action, without any cap: the action is legal, then n forced
      steps lead to a settled leaf, and under the strict rule no randomness was consumed. */
  ghost predicate Consequence(e: Engine, rootPlayer: int, strict: bool, root: SearchInfo, rootRng: Rng,
                              action: seq<int>, leaf: Slot, n: nat)
  {
    && FailureOf(root).Fine? && ActionError(e, root.state.value, action) == 0
    && var (first, rng) := e.step(root.state.value, rootRng, action);
       && FailureOf(first).Fine?
       && Reaches(e, rootPlayer, first.state.value, rng, n, leaf.state, leaf.rng)
       && Settled(e, rootPlayer, leaf.state)
       && (strict ==> leaf.rng == rootRng)
  }

  /** A transition succeeds exactly when its consequence fits both caps; the caps never
      change what that consequence is. */
  lemma TransitionSucceeds(e: Engine, rootPlayer: int, strict: bool, maxForced: nat, budget: nat,
                           root: SearchInfo, rootRng: Rng, action: seq<int>, leaf: Slot, n: nat)
    ensures Transition(e, rootPlayer, strict, maxForced, budget, root, rootRng, action)
              == Trace(Fine, 1 + n, n, 1 + n, Some(leaf))
        <==> Consequence(e, rootPlayer, strict, root, rootRng, action, leaf, n) && n <= maxForced && 1 + n <= budget
  {
    hide Drive, Reaches, Settled;
    if FailureOf(root).Fine? && budget > 0 {
      var (first, rng) := e.step(root.state.value, rootRng, action);
      if FailureOf(first).Fine? {
        DriveReaches(e, rootPlayer, maxForced, budget - 1, first.state.value, rng, 0, n, leaf.state, leaf.rng);
      }
    }
  }

  /** Success has one shape, and only the two caps can turn on or off a given failure. */
  lemma TransitionShape(e: Engine, rootPlayer: int, strict: bool, maxForced: nat, budget: nat,
                        root: SearchInfo, rootRng: Rng, action: seq<int>)
    ensures var t := Transition(e, rootPlayer, strict, maxForced, budget, root, rootRng, action);
      && (t.failure.Fine? ==> t.leaf.Some? && t.steps == 1 + t.forced && t.used == t.steps)
      && (t.failure.Fine? <==> t.failure.Code() == 0)
      && (t.failure.StepBudget? ==> t.used == budget)
      && !t.failure.OutputCapacity? && !t.failure.ArenaCapacity?
  {
    hide Drive;
    if FailureOf(root).Fine? && budget > 0 {
      var (first, rng) := e.step(root.state.value, rootRng, action);
      if FailureOf(first).Fine? {
        DriveUses(e, rootPlayer, maxForced, budget - 1, first.state.value, rng, 0);
      }
    }
  }

  // ---------------------------------------------------------------- budgets

  /** Enough steps for any walk over forced prompts. */
  lemma {:induction false} DriveBudget(e: Engine, rootPlayer: int, maxForced: nat, budget: nat, ample: nat,
                                       s: State, rng: Rng, forced: nat)
    requires forced <= maxForced <= forced + ample
    ensures var w := Drive(e, rootPlayer, maxForced, budget, s, rng, forced);
            var free := Drive(e, rootPlayer, maxForced, ample, s, rng, forced);
      && !free.failure.StepBudget?
      && (w.failure.StepBudget? <==> free.used > budget)
      && (!w.failure.StepBudget? ==> w == free)
    decreases maxForced - forced
  {
    var action := ForcedHere(e, rootPlayer, s);
    if action.Some? && forced < maxForced {
      var (next, between) := e.step(s, rng, action.value);
      if FailureOf(next) == Fine && budget > 0 {
        DriveBudget(e, rootPlayer, maxForced, budget - 1, ample - 1, next.state.value, between, forced + 1);
      } else if FailureOf(next) == Fine {
        DriveBudget(e, rootPlayer, maxForced, 0, ample - 1, next.state.value, between, forced + 1);
      }
    }
  }

  /** The transition with no step budget to run out of. */
  function Freely(e: Engine, rootPlayer: int, strict: bool, maxForced: nat, root: SearchInfo, rootRng: Rng,
                  action: seq<int>): Trace
  {
    Transition(e, rootPlayer, strict, maxForced, maxForced + 1, root, rootRng, action)
  }

  /** A step budget either is no hindrance or is exhausted, and it is exhausted exactly when
      the free transition needs more. */
  lemma TransitionBudget(e: Engine, rootPlayer: int, strict: bool, maxForced: nat, budget: nat,
                         root: SearchInfo, rootRng: Rng, action: seq<int>)
    ensures var t := Transition(e, rootPlayer, strict, maxForced, budget, root, rootRng, action);
            var free := Freely(e, rootPlayer, strict, maxForced, root, rootRng, action);
      && !free.failure.StepBudget?
      && (t.failure.StepBudget? <==> free.used > budget)
      && (!t.failure.StepBudget? ==> t == free)
  {
    hide Drive;
    if FailureOf(root).Fine? && ActionError(e, root.state.value, action) == 0 {
      var (first, rng) := e.step(root.state.value, rootRng, action);
      if FailureOf(first).Fine? {
        DriveBudget(e, rootPlayer, maxForced, Max(0, budget - 1), maxForced, first.state.value, rng, 0);
      }
    }
  }
}
