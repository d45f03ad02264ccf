/** Planning sessions on values: the generational arena of state handles. */
module SessionModel {
  import opened Common
  import opened Bytes
  import opened TransitionModel

  const FINGERPRINT_BYTES: nat := 32

  datatype Lane = Lane(
    last: int, active: int, rootPlayer: int32, manualCoin: bool, maxSlots: nat,
    live: int, producer: bytes, slots: seq<Option<Slot>>)

  datatype Handle = Handle(generation: int, slot: int)

  function Live(slots: seq<Option<Slot>>): nat {
    if slots == [] then 0 else Live(slots[..|slots| - 1]) + (if slots[|slots| - 1].Some? then 1 else 0)
  }

  ghost predicate Valid(l: Lane) {
    && 0 <= l.last <= INT32_MAX
    && (l.active == 0 || l.active == l.last)
    && (l.active == 0 ==> l.slots == [])
    && l.live == Live(l.slots) && |l.slots| <= l.maxSlots <= INT32_MAX
  }

  // ---------------------------------------------------------------- steps of the arena

  datatype Op =
    | Begin(rootPlayer: int32, manualCoin: bool, maxSlots: nat, producer: bytes)
    | Allocate(slot: Slot)
    | Release(handle: Handle)
    | Reset

  function Get(l: Lane, h: Handle): Option<Slot> {
    if h.generation != l.active || h.slot < 0 || h.slot >= |l.slots| then None else l.slots[h.slot]
  }

  predicate Accepts(l: Lane, op: Op) {
    match op
    case Begin(_, _, maxSlots, _) => l.active == 0 && l.last != INT32_MAX && maxSlots <= INT32_MAX
    case Allocate(_) => l.active != 0 && |l.slots| < l.maxSlots
    case Release(h) => Get(l, h).Some?
    case Reset => true
  }

  /** A refused step changes nothing. */
  function Step(l: Lane, op: Op): Lane {
    if !Accepts(l, op) then l
    else
      match op
      case Begin(player, coin, maxSlots, producer) =>
        Lane(l.last + 1, l.last + 1, player, coin, maxSlots, 0, producer, [])
      case Allocate(slot) => l.(slots := l.slots + [Some(slot)], live := l.live + 1)
      case Release(h) => l.(slots := l.slots[h.slot := None], live := l.live - 1)
      case Reset => Lane(l.last, 0, -1, false, 0, 0, seq(FINGERPRINT_BYTES, i => 0), [])
  }

  function Run(l: Lane, ops: seq<Op>): Lane {
    if ops == [] then l else Step(Run(l, ops[..|ops| - 1]), ops[|ops| - 1])
  }

  lemma {:induction false} RunAppend(l: Lane, a: seq<Op>, b: seq<Op>)
    ensures Run(l, a + b) == Run(Run(l, a), b)
  {
    if b == [] {
      assert a + b == a;
    } else {
      RunAppend(l, a, b[..|b| - 1]);
      assert (a + b)[..|a + b| - 1] == a + b[..|b| - 1];
    }
  }

  // ---------------------------------------------------------------- what every step keeps

  lemma {:induction false} LiveUpdate(slots: seq<Option<Slot>>, i: nat)
    requires i < |slots| && slots[i].Some?
    ensures Live(slots[i := None]) == Live(slots) - 1
  {
    var n := |slots| - 1;
    if i == n {
      assert slots[i := None][..n] == slots[..n];
    } else {
      LiveUpdate(slots[..n], i);
      assert slots[i := None][..n] == slots[..n][i := None];
    }
  }

  lemma StepValid(l: Lane, op: Op)
    requires Valid(l)
    ensures Valid(Step(l, op))
  {
    match op
    case Begin(_, _, _, _) =>
    case Allocate(slot) =>
      assert (l.slots + [Some(slot)])[..|l.slots|] == l.slots;
    case Release(h) =>
      if Accepts(l, op) {
        LiveUpdate(l.slots, h.slot);
      }
    case Reset =>
  }

  lemma {:induction false} RunValid(l: Lane, ops: seq<Op>)
    requires Valid(l)
    ensures Valid(Run(l, ops))
  {
    if ops != [] {
      RunValid(l, ops[..|ops| - 1]);
      StepValid(Run(l, ops[..|ops| - 1]), ops[|ops| - 1]);
    }
  }

  // ---------------------------------------------------------------- handles never alias

  /** Handles given out so far: all of earlier generations, and the slots of this one. */
  predicate Issued(l: Lane, h: Handle) {
    h.generation < l.last || (h.generation == l.last && (l.active == 0 || h.slot < |l.slots|))
  }

  /** One step moves a handle only along: not issued, readable with one content, stale. */
  lemma StepHandle(l: Lane, op: Op, h: Handle)
    requires Valid(l)
    ensures Get(l, h).Some? ==> Issued(l, h)
    ensures Issued(l, h) ==> Issued(Step(l, op), h)
    ensures Issued(l, h) ==> Get(Step(l, op), h) == Get(l, h) || Get(Step(l, op), h) == None
    ensures Get(l, h).Some? && Get(Step(l, op), h).None? ==> op == Release(h) || op == Reset
  {
  }

  /** A handle reads the state it was allocated with until it is released or its session
      ends, and from then on it is stale whatever happens: no later state takes its place. */
  lemma {:induction false} HandlesNeverAlias(l: Lane, ops: seq<Op>, h: Handle)
    requires Valid(l) && Issued(l, h)
    ensures Issued(Run(l, ops), h)
    ensures Get(Run(l, ops), h) == Get(l, h) || Get(Run(l, ops), h) == None
    ensures Release(h) !in ops && Reset !in ops ==> Get(Run(l, ops), h) == Get(l, h)
  {
    if ops != [] {
      var most, op := ops[..|ops| - 1], ops[|ops| - 1];
      HandlesNeverAlias(l, most, h);
      RunValid(l, most);
      StepHandle(Run(l, most), op, h);
    }
  }

  /** Releasing a handle makes it stale forever. */
  lemma ReleasedStaysStale(l: Lane, h: Handle, before: seq<Op>, after: seq<Op>)
    requires Valid(l) && Get(l, h).Some?
    ensures Get(Run(l, before + [Release(h)] + after), h) == None
    ensures Get(Run(l, before + [Reset] + after), h) == None
  {
    StepHandle(l, Reset, h);
    HandlesNeverAlias(l, before, h);
    RunValid(l, before);
    var m := Run(l, before);
    RunAppend(l, before + [Release(h)], after);
    RunAppend(l, before + [Reset], after);
    assert (before + [Release(h)])[..|before|] == before && (before + [Reset])[..|before|] == before;
    StepHandle(m, Release(h), h);
    StepHandle(m, Reset, h);
    StepValid(m, Release(h));
    StepValid(m, Reset);
    HandlesNeverAlias(Step(m, Release(h)), after, h);
    HandlesNeverAlias(Step(m, Reset), after, h);
  }

  /** The handles a run gives out, in order. */
  function HandlesOf(l: Lane, ops: seq<Op>): seq<Handle> {
    if ops == [] then []
    else
      var most, op := ops[..|ops| - 1], ops[|ops| - 1];
      var before := Run(l, most);
      HandlesOf(l, most) + if op.Allocate? && Accepts(before, op) then [Handle(before.active, |before.slots|)] else []
  }

  /** No two allocations of a run ever share a handle. */
  lemma {:induction false} HandlesAreDistinct(l: Lane, ops: seq<Op>)
    requires Valid(l)
    ensures Distinct(HandlesOf(l, ops))
    ensures forall h :: h in HandlesOf(l, ops) ==> Issued(Run(l, ops), h) && !Issued(l, h)
  {
    if ops != [] {
      var most, op := ops[..|ops| - 1], ops[|ops| - 1];
      var before := Run(l, most);
      HandlesAreDistinct(l, most);
      RunValid(l, most);
      forall h | h in HandlesOf(l, most) ensures Issued(Run(l, ops), h) {
        StepHandle(before, op, h);
      }
      if op.Allocate? && Accepts(before, op) {
        var h := Handle(before.active, |before.slots|);
        assert !Issued(before, h) && Issued(Step(before, op), h);
        if Issued(l, h) {
          HandlesNeverAlias(l, most, h);
        }
      }
    }
  }
}
