/** A planning-session lane: its arena of state slots and the transition that fills a row. */
module PlannerSession {
  import opened Common
  import opened Bytes
  import opened TransitionModel
  import opened SessionModel
  import opened SessionTransition
  import opened PlannerGame

  const MAXIMUM_CELLS_PER_CALL := 65536
  const MAXIMUM_ENGINE_STEPS_PER_CALL := 16777216
  const MAXIMUM_FORCED_STEPS := 64
  const MAXIMUM_SELECT_COUNT := 128
  const MAXIMUM_STATE_TOKEN_BYTES := 33554432
  const MAXIMUM_OBSERVATION_BYTES := 1073741824
  const MAXIMUM_STATE_SLOTS := 65536

  const INVALID_INPUT := 1
  const ARENA_CAPACITY := 94
  const STALE_HANDLE := 95
  const EXCEPTION := 99

  const IDLE := Lane(0, 0, -1, false, 0, 0, seq(FINGERPRINT_BYTES, i => 0), [])

  class SessionLane {
    const game: Game
    var lastGeneration: int
    var activeGeneration: int
    var rootPlayer: int32
    var manualCoin: bool
    var maxStateSlots: nat
    var liveStates: int
    var producerFingerprint: bytes
    var slots: seq<Option<Slot>>

    function View(): Lane
      reads this
    {
      Lane(lastGeneration, activeGeneration, rootPlayer, manualCoin, maxStateSlots, liveStates, producerFingerprint,
           slots)
    }

    constructor (rng: Rng)
      ensures View() == IDLE && Valid(View()) && fresh(game) && game.rng == rng
    {
      game := new Game(rng);
      lastGeneration, activeGeneration, rootPlayer, manualCoin := 0, 0, -1, false;
      maxStateSlots, liveStates, slots := 0, 0, [];
      producerFingerprint := seq(FINGERPRINT_BYTES, i => 0);
    }

    method ResetActiveSession()
      modifies this
      ensures View() == Step(old(View()), Op.Reset)
    {
      slots, activeGeneration, rootPlayer, manualCoin := [], 0, -1, false;
      maxStateSlots, liveStates := 0, 0;
      producerFingerprint := seq(FINGERPRINT_BYTES, i => 0);
    }

    method BeginSession(player: int32, coin: bool, requestedSlots: nat, producer: bytes) returns (generation: int)
      requires requestedSlots <= INT32_MAX
      modifies this
      ensures View() == Step(old(View()), Begin(player, coin, requestedSlots, producer))
      ensures generation == if Accepts(old(View()), Begin(player, coin, requestedSlots, producer)) then activeGeneration
          else -1
    {
      if activeGeneration != 0 || lastGeneration == INT32_MAX {
        return -1;
      }
      lastGeneration := lastGeneration + 1;
      activeGeneration, rootPlayer, manualCoin, maxStateSlots := lastGeneration, player, coin, requestedSlots;
      liveStates, slots, producerFingerprint := 0, [], producer;
      return activeGeneration;
    }

    method AllocateSlot(state: State, rng: Rng) returns (slot: int)
      modifies this
      ensures View() == Step(old(View()), Allocate(Slot(state, rng)))
      ensures slot == if Accepts(old(View()), Allocate(Slot(state, rng))) then |old(slots)| else -1
    {
      if activeGeneration == 0 || |slots| >= maxStateSlots {
        return -1;
      }
      slot := |slots|;
      slots := slots + [Some(Slot(state, rng))];
      liveStates := liveStates + 1;
    }

    method GetSlot(generation: int, slot: int) returns (current: Option<Slot>)
      ensures current == Get(View(), Handle(generation, slot))
    {
      if generation != activeGeneration || slot < 0 || slot >= |slots| || slots[slot].None? {
        return None;
      }
      return slots[slot];
    }

    method ReleaseSlot(generation: int, slot: int) returns (released: bool)
      modifies this
      ensures View() == Step(old(View()), Release(Handle(generation, slot)))
      ensures released == Get(old(View()), Handle(generation, slot)).Some?
    {
      var current := GetSlot(generation, slot);
      if current.None? {
        return false;
      }
      slots := slots[slot := None];
      liveStates := liveStates - 1;
      return true;
    }

    // -------------------------------------------------------------- one transition

    method ExecuteTransition(e: Engine, root: SearchInfo, rootRng: Rng, action: seq<int>, caps: Caps,
                             steps: nat, observations: bytes, observingThrows: bool)
      returns (thrown: bool, engineSteps: nat, scratch: bytes, metadata: CellMetadata)
      modifies this, game
      ensures game.rng == old(game.rng)
      ensures thrown <==> observingThrows && Observes(e, old(View()), Job(root, rootRng, action), caps, steps)
      ensures thrown ==> View() == Interrupted(e, old(View()), Job(root, rootRng, action), caps, steps)
      ensures !thrown ==>
        var r := Execute(e, old(View()), Job(root, rootRng, action), caps, steps, observations);
        View() == r.lane && engineSteps == r.steps && scratch == r.scratch && metadata == r.cell
    {
      hide Transition, EndpointFor;
      thrown := false;
      metadata := FRESH_CELL.(rootPlayer := rootPlayer);
      scratch := observations;
      var t: Trace;
      t, engineSteps := game.Branch(e, rootPlayer, true, caps.maxForcedSteps, caps.maxEngineSteps, steps, root, rootRng,
                                    action);
      metadata := metadata.(transitionSteps := t.steps, forcedSteps := t.forced, error := t.failure.Code());
      if t.failure != Fine || t.leaf.None? || root.state.None? {
        return;
      }
      var leaf := t.leaf.value;
      var prompt := e.prompt(leaf.state);
      metadata := metadata.(rulesExact := true, endpoint := EndpointFor(e, prompt, rootPlayer),
                            result := prompt.result);
      if prompt.finished {
        metadata := metadata.(leafPlayer := -1, leafContext := -1, leafSelectType := -1);
      } else {
        metadata := metadata.(leafPlayer := prompt.player, leafContext := Pred32(prompt.context),
                              leafSelectType := Pred32(prompt.kind));
      }
      if metadata.endpoint.RootStrategicPrompt? || metadata.endpoint.ChancePrompt? {
        var slot := AllocateSlot(leaf.state, leaf.rng);
        if slot < 0 {
          metadata := metadata.(error := ARENA_CAPACITY, rulesExact := false, endpoint := Invalid);
          return;
        }
        metadata := metadata.(sessionGeneration := activeGeneration, stateSlot := slot);
      }
      if observingThrows {
        thrown := true;
        return;
      }
      var json := e.observe(leaf.state, rootPlayer, e.prompt(root.state.value).logs);
      if |json| > caps.maxObservationBytes - |scratch| {
        metadata := metadata.(error := OutputCapacity.Code(), rulesExact := false, endpoint := Invalid);
        if metadata.stateSlot >= 0 {
          var _ := ReleaseSlot(metadata.sessionGeneration, metadata.stateSlot);
          metadata := metadata.(sessionGeneration := -1, stateSlot := -1);
        }
      } else {
        metadata := metadata.(observationOffset := |scratch|, observationSize := |json|);
        scratch := scratch + json;
      }
    }
  }
}
