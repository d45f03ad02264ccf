/** The mutable game behind a lane: stepping consumes its random stream, and a transition
    runs under a guard that puts the stream back. */
module PlannerGame {
  import opened Common
  import opened TransitionModel

  class Game {
    var rng: Rng

    constructor (rng: Rng)
      ensures this.rng == rng
    {
      this.rng := rng;
    }

    method SearchStep(e: Engine, s: State, action: seq<int>) returns (info: SearchInfo)
      modifies this
      ensures (info, rng) == e.step(s, old(rng), action)
    {
      var (next, after) := e.step(s, rng, action);
      info, rng := next, after;
    }

    /** The loop over forced prompts. */
    method DriveForced(e: Engine, rootPlayer: int, maxForced: nat, maxSteps: nat, steps: nat, s: State)
      returns (failure: Failure, leaf: State, forced: nat, engineSteps: nat)
      requires steps <= maxSteps
      modifies this
      ensures steps <= engineSteps
      ensures Walk(failure, leaf, rng, forced, engineSteps - steps)
                == Drive(e, rootPlayer, maxForced, maxSteps - steps, s, old(rng), 0)
    {
      hide EndpointFor, ForcedAction;
      leaf, forced, engineSteps, failure := s, 0, steps, Fine;
      ghost var whole := Drive(e, rootPlayer, maxForced, maxSteps - steps, s, rng, 0);
      while !e.prompt(leaf).finished
        invariant forced <= maxForced && steps <= engineSteps <= maxSteps && failure == Fine
        invariant var rest := Drive(e, rootPlayer, maxForced, maxSteps - engineSteps, leaf, rng, forced);
                  whole == rest.(used := rest.used + (engineSteps - steps))
        decreases maxForced - forced
      {
        if EndpointFor(e, e.prompt(leaf), rootPlayer) != RootStrategicPrompt {
          break;
        }
        var action := ForcedAction(e.prompt(leaf));
        if action.None? {
          break;
        }
        if forced >= maxForced {
          failure := ForcedStepCap;
          break;
        }
        if engineSteps >= maxSteps {
          failure := StepBudget;
          break;
        }
        engineSteps := engineSteps + 1;
        var next := SearchStep(e, leaf, action.value);
        if next.error != 0 || next.state.None? {
          failure := FailureOf(next);
          break;
        }
        leaf, forced := next.state.value, forced + 1;
      }
    }

    /** A root action and the forced prompts after it, from the root's own stream. */
    method Branch(e: Engine, rootPlayer: int, strict: bool, maxForced: nat, maxSteps: nat, steps: nat,
                  root: SearchInfo, rootRng: Rng, action: seq<int>) returns (t: Trace, engineSteps: nat)
      modifies this
      ensures rng == old(rng)
      ensures t == Transition(e, rootPlayer, strict, maxForced, Max(0, maxSteps - steps), root, rootRng, action)
      ensures engineSteps == steps + t.used
    {
      hide Drive;
      engineSteps := steps;
      if root.error != 0 || root.state.None? {
        return Trace(FailureOf(root), 0, 0, 0, None), steps;
      }
      var rejected := ActionError(e, root.state.value, action);
      if rejected != 0 {
        return Trace(EngineError(rejected), 0, 0, 0, None), steps;
      }
      if steps >= maxSteps {
        return Trace(StepBudget, 0, 0, 0, None), steps;
      }
      var original := rng;
      rng := rootRng;
      engineSteps := engineSteps + 1;
      var first := SearchStep(e, root.state.value, action);
      if first.error != 0 || first.state.None? {
        rng := original;
        return Trace(FailureOf(first), 0, 0, 1, None), engineSteps;
      }
      var failure, leaf, forced, after := DriveForced(e, rootPlayer, maxForced, maxSteps, engineSteps,
                                                      first.state.value);
      if failure.Fine? && strict && rng != rootRng {
        failure := Chance;
      }
      t := Trace(failure, 1 + forced, forced, after - steps, Some(Slot(leaf, rng)));
      engineSteps := after;
      rng := original;
    }
  }
}
