/** The consequence of an action, told prompt by prompt: which prompts are passed without asking,
    where the walk stops, and what the reader of a row learns of the place where it stopped. */
module ForcedPaths {
  import opened Common
  import opened Bytes
  import opened TransitionModel

  // ---------------------------------------------------------------- prompts

  /** A selection within a prompt's bounds: distinct options, at least `selectMin` and at most
      `selectMax` of them as far as there are that many. */
  ghost predicate Selection(p: Prompt, action: seq<int>) {
    var least: int := if p.selectMin < 0 then 0 else if p.selectMin > p.options then p.options else p.selectMin;
    var most: int := if p.selectMax < least then least else if p.selectMax > p.options then p.options else p.selectMax;
    && least <= |action| <= most
    && (forall i :: 0 <= i < |action| ==> 0 <= action[i] < p.options)
    && forall i, j :: 0 <= i < j < |action| ==> action[i] != action[j]
  }

  /** There is nothing to choose. */
  ghost predicate OnlySelection(p: Prompt, action: seq<int>) {
    Selection(p, action) && forall other :: Selection(p, other) ==> other == action
  }

  /** The planner may act for the root player here: the game goes on, the root player is asked, and
      it is neither a coin to be tossed nor the main prompt of a turn. */
  predicate MayPass(e: Engine, rootPlayer: int, p: Prompt) {
    && !p.finished && p.player == rootPlayer && p.context != e.coinHead
    && !(p.kind == e.mainKind && p.context == e.mainContext)
  }

  lemma SelectionsAdmitted(p: Prompt, action: seq<int>)
    ensures Admits(p, action) <==> Selection(p, action)
  {
  }

  /** A prompt is passed with an action exactly if it may be, and that is the only selection. */
  lemma PassesExactly(e: Engine, rootPlayer: int, s: State, action: seq<int>)
    ensures ForcedHere(e, rootPlayer, s) == Some(action) <==>
      MayPass(e, rootPlayer, e.prompt(s)) && OnlySelection(e.prompt(s), action)
  {
    hide Admits, Selection, ForcedAction;
    var p := e.prompt(s);
    ForcedIsTheOnlyChoice(p, action);
    forall other ensures Admits(p, other) <==> Selection(p, other) {
      SelectionsAdmitted(p, other);
    }
  }

  // ---------------------------------------------------------------- walks

  /** From one place to the next through a prompt without a choice. */
  ghost predicate Passes(e: Engine, rootPlayer: int, a: Slot, b: Slot) {
    && MayPass(e, rootPlayer, e.prompt(a.state))
    && exists action :: OnlySelection(e.prompt(a.state), action)
                        && e.step(a.state, a.rng, action) == (SearchInfo(0, Some(b.state)), b.rng)
  }

  /** Every place but the last is passed. */
  ghost predicate IsWalk(e: Engine, rootPlayer: int, path: seq<Slot>) {
    path != [] && forall k :: 0 <= k < |path| - 1 ==> Passes(e, rootPlayer, path[k], path[k + 1])
  }

  /** The last place asks for a choice, or may not be passed. */
  ghost predicate Stops(e: Engine, rootPlayer: int, s: State) {
    MayPass(e, rootPlayer, e.prompt(s)) ==> forall action :: !OnlySelection(e.prompt(s), action)
  }

  /** An action is legal at its root and plays out along a walk to where it stops; under the strict
      rule no randomness was used on the way. */
  ghost predicate PlaysOut(e: Engine, rootPlayer: int, strict: bool, root: SearchInfo, rootRng: Rng, action: seq<int>,
                           path: seq<Slot>) {
    && root.error == 0 && root.state.Some? && Distinct(action) && e.check(root.state.value, action) == 0
    && IsWalk(e, rootPlayer, path)
    && e.step(root.state.value, rootRng, action) == (SearchInfo(0, Some(path[0].state)), path[0].rng)
    && Stops(e, rootPlayer, path[|path| - 1].state)
    && (strict ==> path[|path| - 1].rng == rootRng)
  }

  lemma PassesForced(e: Engine, rootPlayer: int, a: Slot, b: Slot)
    ensures Passes(e, rootPlayer, a, b) <==>
      && ForcedHere(e, rootPlayer, a.state).Some?
      && e.step(a.state, a.rng, ForcedHere(e, rootPlayer, a.state).value) == (SearchInfo(0, Some(b.state)), b.rng)
  {
    hide OnlySelection, MayPass, ForcedHere;
    var here := ForcedHere(e, rootPlayer, a.state);
    if here.Some? {
      PassesExactly(e, rootPlayer, a.state, here.value);
    }
    if Passes(e, rootPlayer, a, b) {
      var action :| OnlySelection(e.prompt(a.state), action)
                    && e.step(a.state, a.rng, action) == (SearchInfo(0, Some(b.state)), b.rng);
      PassesExactly(e, rootPlayer, a.state, action);
    }
  }

  lemma StopsSettled(e: Engine, rootPlayer: int, s: State)
    ensures Stops(e, rootPlayer, s) <==> Settled(e, rootPlayer, s)
  {
    hide OnlySelection, MayPass, ForcedHere;
    forall action: seq<int>
      ensures ForcedHere(e, rootPlayer, s) == Some(action) <==>
        MayPass(e, rootPlayer, e.prompt(s)) && OnlySelection(e.prompt(s), action)
    {
      PassesExactly(e, rootPlayer, s, action);
    }
    if ForcedHere(e, rootPlayer, s).Some? {
      var action := ForcedHere(e, rootPlayer, s).value;
      assert ForcedHere(e, rootPlayer, s) == Some(action);
    }
  }

  /** n forced steps are a walk over n + 1 places. */
  lemma {:induction false} ReachesAlong(e: Engine, rootPlayer: int, from: Slot, n: nat, to: Slot)
    returns (path: seq<Slot>)
    requires Reaches(e, rootPlayer, from.state, from.rng, n, to.state, to.rng)
    ensures IsWalk(e, rootPlayer, path) && |path| == n + 1 && path[0] == from && path[n] == to
    decreases n
  {
    hide ForcedHere, Passes;
    if n == 0 {
      path := [from];
    } else {
      var (next, between) := e.step(from.state, from.rng, ForcedHere(e, rootPlayer, from.state).value);
      var second := Slot(next.state.value, between);
      PassesForced(e, rootPlayer, from, second);
      var rest := ReachesAlong(e, rootPlayer, second, n - 1, to);
      path := [from] + rest;
    }
  }

  lemma {:induction false} WalkReaches(e: Engine, rootPlayer: int, path: seq<Slot>)
    requires IsWalk(e, rootPlayer, path)
    ensures var n := |path| - 1;
      Reaches(e, rootPlayer, path[0].state, path[0].rng, n, path[n].state, path[n].rng)
  {
    hide ForcedHere, Passes;
    if |path| > 1 {
      PassesForced(e, rootPlayer, path[0], path[1]);
      forall k | 0 <= k < |path[1..]| - 1 ensures Passes(e, rootPlayer, path[1..][k], path[1..][k + 1]) {
        assert Passes(e, rootPlayer, path[k + 1], path[k + 1 + 1]);
      }
      WalkReaches(e, rootPlayer, path[1..]);
    }
  }

  /** The consequence of an action is where it plays out. */
  lemma ConsequencePlaysOut(e: Engine, rootPlayer: int, strict: bool, root: SearchInfo, rootRng: Rng, action: seq<int>,
                            leaf: Slot, n: nat) returns (path: seq<Slot>)
    requires Consequence(e, rootPlayer, strict, root, rootRng, action, leaf, n)
    ensures PlaysOut(e, rootPlayer, strict, root, rootRng, action, path) && |path| == n + 1 && path[n] == leaf
  {
    hide Reaches, Settled, IsWalk, Stops;
    var (first, rng) := e.step(root.state.value, rootRng, action);
    path := ReachesAlong(e, rootPlayer, Slot(first.state.value, rng), n, leaf);
    StopsSettled(e, rootPlayer, leaf.state);
  }

  lemma PlaysOutIsConsequence(e: Engine, rootPlayer: int, strict: bool, root: SearchInfo, rootRng: Rng,
                              action: seq<int>, path: seq<Slot>)
    requires PlaysOut(e, rootPlayer, strict, root, rootRng, action, path)
    ensures Consequence(e, rootPlayer, strict, root, rootRng, action, path[|path| - 1], |path| - 1)
  {
    hide Reaches, Settled, Stops;
    WalkReaches(e, rootPlayer, path);
    StopsSettled(e, rootPlayer, path[|path| - 1].state);
  }

  // ---------------------------------------------------------------- failures

  /** Along a walk within the caps the loop stands where the walk ends. */
  lemma {:induction false} DriveAlong(e: Engine, rootPlayer: int, maxForced: nat, budget: nat, path: seq<Slot>,
                                      forced: nat)
    requires IsWalk(e, rootPlayer, path) && forced + |path| - 1 <= maxForced && |path| - 1 <= budget
    ensures var n := |path| - 1;
            var last := path[n];
            var w := Drive(e, rootPlayer, maxForced, budget - n, last.state, last.rng, forced + n);
      Drive(e, rootPlayer, maxForced, budget, path[0].state, path[0].rng, forced) == w.(used := w.used + n)
    decreases |path|
  {
    hide ForcedHere, Passes;
    if |path| > 1 {
      PassesForced(e, rootPlayer, path[0], path[1]);
      forall k | 0 <= k < |path[1..]| - 1 ensures Passes(e, rootPlayer, path[1..][k], path[1..][k + 1]) {
        assert Passes(e, rootPlayer, path[k + 1], path[k + 1 + 1]);
      }
      DriveAlong(e, rootPlayer, maxForced, budget - 1, path[1..], forced + 1);
    }
  }

  /** A legal action and the walk it starts. */
  ghost predicate SetsOut(e: Engine, rootPlayer: int, root: SearchInfo, rng: Rng, action: seq<int>, path: seq<Slot>) {
    && root.error == 0 && root.state.Some? && Distinct(action) && e.check(root.state.value, action) == 0
    && IsWalk(e, rootPlayer, path)
    && e.step(root.state.value, rng, action) == (SearchInfo(0, Some(path[0].state)), path[0].rng)
  }

  function ErrorOf(info: SearchInfo): int {
    if info.error != 0 then info.error else if info.state.None? then 1 else 0
  }

  /** Before the walk: the root's own error, 6 for a repeated option, the engine's verdict, and the error
      of the first step. */
  lemma FirstErrors(e: Engine, rootPlayer: int, strict: bool, maxForced: nat, root: SearchInfo, rng: Rng,
                    action: seq<int>)
    ensures var code := Freely(e, rootPlayer, strict, maxForced, root, rng, action).failure.Code();
      && (ErrorOf(root) != 0 ==> code == ErrorOf(root))
      && (ErrorOf(root) == 0 && !Distinct(action) ==> code == 6)
      && (ErrorOf(root) == 0 && Distinct(action) && e.check(root.state.value, action) != 0 ==>
            code == e.check(root.state.value, action))
      && (ErrorOf(root) == 0 && Distinct(action) && e.check(root.state.value, action) == 0 ==>
            var first := ErrorOf(e.step(root.state.value, rng, action).0);
            first != 0 ==> code == first)
  {
    hide Drive;
  }

  /** On the walk: 90 where it is not over at the cap, the error of a step that fails, and 92 where it
      used randomness that it must not. */
  lemma WalkErrors(e: Engine, rootPlayer: int, strict: bool, maxForced: nat, root: SearchInfo, rng: Rng,
                   action: seq<int>, path: seq<Slot>)
    requires SetsOut(e, rootPlayer, root, rng, action, path) && |path| <= 1 + maxForced
    ensures var code := Freely(e, rootPlayer, strict, maxForced, root, rng, action).failure.Code();
            var last := path[|path| - 1];
            var prompt := e.prompt(last.state);
      && (|path| == 1 + maxForced && !Stops(e, rootPlayer, last.state) ==> code == 90)
      && (Stops(e, rootPlayer, last.state) && strict && last.rng != rng ==> code == 92)
      && (|path| <= maxForced && MayPass(e, rootPlayer, prompt) ==>
            forall forced :: OnlySelection(prompt, forced) && ErrorOf(e.step(last.state, last.rng, forced).0) != 0 ==>
              code == ErrorOf(e.step(last.state, last.rng, forced).0))
  {
    hide Passes, Stops, ForcedHere, OnlySelection, MayPass;
    var n := |path| - 1;
    var last := path[n];
    DriveAlong(e, rootPlayer, maxForced, maxForced, path, 0);
    StopsSettled(e, rootPlayer, last.state);
    forall forced: seq<int>
      ensures ForcedHere(e, rootPlayer, last.state) == Some(forced) <==>
        MayPass(e, rootPlayer, e.prompt(last.state)) && OnlySelection(e.prompt(last.state), forced)
    {
      PassesExactly(e, rootPlayer, last.state, forced);
    }
  }

  // ---------------------------------------------------------------- what a row says

  /** Where the game stands, by number: 1 over, 5 a coin, 3 the other seat, 2 a main prompt, 4 any
      other prompt of the root player. */
  predicate StandsAt(e: Engine, rootPlayer: int, p: Prompt, code: int) {
    && 1 <= code <= 5
    && (code == 1 <==> p.finished)
    && (code == 5 <==> !p.finished && p.context == e.coinHead)
    && (code == 3 <==> !p.finished && p.context != e.coinHead && p.player != rootPlayer)
    && (code == 2 <==> !p.finished && p.context != e.coinHead && p.player == rootPlayer
                       && p.kind == e.mainKind && p.context == e.mainContext)
  }

  /** The first twelve integers of an error-free row, but for the place of its observation. */
  predicate RowSays(e: Engine, rootPlayer: int, row: seq<int>, leaf: State, forced: nat, observed: nat) {
    var p := e.prompt(leaf);
    && |row| >= 12
    && row[0] == 0 && row[1] == 1 && StandsAt(e, rootPlayer, p, row[2]) && row[3] == rootPlayer
    && (if p.finished then row[4] == -1 && row[5] == -1 && row[11] == -1
        else
          && row[4] == p.player && (p.context > -0x8000_0000 ==> row[5] == p.context - 1)
          && (p.kind > -0x8000_0000 ==> row[11] == p.kind - 1))
    && row[6] == 1 + forced && row[7] == forced && row[9] == observed && row[10] == p.result
  }

  lemma EndpointStands(e: Engine, p: Prompt, rootPlayer: int)
    ensures StandsAt(e, rootPlayer, p, EndpointFor(e, p, rootPlayer).Code())
  {
  }
}
