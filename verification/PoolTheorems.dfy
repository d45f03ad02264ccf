/** What the invariant buys: statements about every reachable pool and every run. */
module PoolTheorems {
  import opened Common
  import opened PoolMachine
  import opened PoolSafety

  ghost predicate Reachable(s: Pool) {
    exists s0: Pool, run: seq<Label> :: Initial(s0) && IsRun(s0, run) && After(s0, run) == s
  }

  lemma ReachableInv(s: Pool)
    requires Reachable(s)
    ensures Inv(s)
  {
    var s0, run :| Initial(s0) && IsRun(s0, run) && After(s0, run) == s;
    InitialInv(s0);
    RunKeeps(s0, run);
  }

  // ---------------------------------------------------------------- safety

  ghost predicate HeldBySomeone(s: Pool, id: JobId) {
    exists i :: 0 <= i < |s.workers| && s.workers[i].Chunk? && s.workers[i].job == id
  }

  /** Once `remaining` is zero no deque entry and no worker refers to the job, and its
      client has been signalled. */
  lemma CompletedJobIsUnreferenced(s: Pool, id: JobId)
    requires Reachable(s) && id < |s.table| && s.table[id].remaining == 0
    ensures id !in s.jobs && !HeldBySomeone(s, id) && !s.table[id].waiting
  {
    ReachableInv(s);
    LoadsNonNegative(s, id);
    assert CountersOk(s, id);
  }

  /** A completed job never changes again: only its client's departure is recorded. */
  lemma CompletedJobIsFrozen(s: Pool, l: Label, id: JobId)
    requires Reachable(s) && Enabled(s, l) && id < |s.table| && s.table[id].remaining == 0
    ensures id < |Next(s, l).table|
    ensures Next(s, l).table[id].(released := s.table[id].released) == s.table[id]
  {
    hide Inv, Reachable;
    CompletedJobIsUnreferenced(s, id);
    if l.Claim? {
      assert s.jobs[0] in s.jobs;
    }
  }

  /** No worker and no deque entry ever refers to a job whose client has left. */
  lemma NoDanglingJob(s: Pool, id: JobId)
    requires Reachable(s) && id < |s.table| && s.table[id].released
    ensures id !in s.jobs && !HeldBySomeone(s, id)
  {
    ReachableInv(s);
    assert CountersOk(s, id);
    CompletedJobIsUnreferenced(s, id);
  }

  /** No row is entered twice, and only claimed rows are entered. */
  lemma AtMostOnce(s: Pool, id: JobId)
    requires Reachable(s) && id < |s.table|
    ensures Distinct(s.table[id].called)
    ensures forall r :: r in s.table[id].called ==> r < s.table[id].next <= s.table[id].count
  {
    ReachableInv(s);
    assert HistoryOk(s, id) && CountersOk(s, id);
  }

  /** What ParallelFor observes when its wait ends: without an exception every row of
      [0, count) was entered exactly once; with one, it is the first that was recorded. */
  lemma ExactlyOnceOrFirstThrow(s: Pool, id: JobId)
    requires Reachable(s) && id < |s.table| && s.table[id].remaining == 0
    ensures var j := s.table[id];
      && Distinct(j.called)
      && (j.exception.None? <==> j.thrown == [])
      && (j.exception.None? ==> forall r: nat :: r in j.called <==> r < j.count)
      && (j.exception.Some? ==> j.exception.value == j.thrown[0] && j.thrown[0] in j.called)
  {
    ReachableInv(s);
    CompletedJobIsUnreferenced(s, id);
    LoadsNonNegative(s, id);
    var j := s.table[id];
    assert HistoryOk(s, id) && CountersOk(s, id);
    forall r: nat ensures !Pending(s.workers, id, r) {
      if i :| 0 <= i < |s.workers| && Ahead(s.workers[i], id, r) {
        assert HeldBySomeone(s, id);
      }
    }
    if j.thrown != [] {
      assert j.thrown[0] in j.thrown;
    }
  }

  /** The cap on concurrent chunks is respected and counts exactly the held chunks. */
  lemma ConcurrencyCap(s: Pool, id: JobId)
    requires Reachable(s) && id < |s.table|
    ensures Holders(s.workers, id) == s.table[id].active <= s.table[id].maxActive
    ensures 0 <= s.table[id].active
  {
    ReachableInv(s);
    assert CountersOk(s, id);
    LoadsNonNegative(s, id);
  }

  /** Grain rounding yields at most four chunks for every allowed worker. */
  lemma AtMostFourChunksPerWorker(s: Pool, id: JobId)
    requires Reachable(s) && id < |s.table|
    ensures s.table[id].chunks <= CHUNKS_PER_WORKER * s.table[id].maxActive
  {
    ReachableInv(s);
    assert CountersOk(s, id);
    var j := s.table[id];
    var d := j.maxActive * CHUNKS_PER_WORKER;
    CeilDivCovers(j.count, d);
    MulMonotone(CeilDiv(j.count, d), j.grain, d);
    if j.chunks > d {
      MulMonotone(d, j.chunks - 1, j.grain);
    }
  }

  // ---------------------------------------------------------------- partition

  ghost function Range(a: nat, b: nat): (s: set<nat>)
    ensures forall r :: r in s <==> a <= r < b
    ensures |s| == Max(0, b - a)
    decreases b - a
  {
    if a < b then Range(a, b - 1) + {b - 1} else {}
  }

  ghost function ChunkRows(w: Worker, id: JobId): set<nat> {
    if w.Chunk? && w.job == id then Range(w.begin, w.end) else {}
  }

  ghost function HeldRows(ws: seq<Worker>, id: JobId): set<nat> {
    if ws == [] then {} else ChunkRows(ws[0], id) + HeldRows(ws[1..], id)
  }

  lemma {:induction false} HeldRowsMember(ws: seq<Worker>, id: JobId, r: nat)
    ensures r in HeldRows(ws, id) <==> exists i :: 0 <= i < |ws| && r in ChunkRows(ws[i], id)
  {
    if ws != [] {
      HeldRowsMember(ws[1..], id, r);
      if i :| 0 <= i < |ws| && r in ChunkRows(ws[i], id) {
        assert i == 0 || ws[1..][i - 1] == ws[i];
      }
    }
  }

  lemma {:induction false} HeldRowsSize(ws: seq<Worker>, id: JobId)
    requires forall i :: 0 <= i < |ws| && ws[i].Chunk? ==> ws[i].begin < ws[i].end
    requires forall i, k :: 0 <= i < k < |ws| ==> Apart(ws[i], ws[k])
    ensures |HeldRows(ws, id)| == InFlight(ws, id)
  {
    if ws != [] {
      forall i, k | 0 <= i < k < |ws[1..]| ensures Apart(ws[1..][i], ws[1..][k]) {
        assert Apart(ws[i + 1], ws[k + 1]);
      }
      HeldRowsSize(ws[1..], id);
      forall r | r in ChunkRows(ws[0], id) ensures r !in HeldRows(ws[1..], id) {
        HeldRowsMember(ws[1..], id, r);
        forall i | 0 <= i < |ws[1..]| ensures r !in ChunkRows(ws[1..][i], id) {
          assert Apart(ws[0], ws[i + 1]);
        }
      }
      assert ChunkRows(ws[0], id) !! HeldRows(ws[1..], id);
    }
  }

  /** The claimed rows split into rows of chunks in flight and retired rows; `remaining`
      counts everything that is not retired. */
  lemma ClaimedRowsPartition(s: Pool, id: JobId)
    requires Reachable(s) && id < |s.table|
    ensures HeldRows(s.workers, id) <= Range(0, s.table[id].next)
    ensures |Range(0, s.table[id].next) - HeldRows(s.workers, id)|
            == s.table[id].count - s.table[id].remaining
  {
    ReachableInv(s);
    assert CountersOk(s, id);
    forall r | r in HeldRows(s.workers, id) ensures r in Range(0, s.table[id].next) {
      HeldRowsMember(s.workers, id, r);
      var i :| 0 <= i < |s.workers| && r in ChunkRows(s.workers[i], id);
      assert WorkerOk(s.workers[i], s.table);
    }
    forall i | 0 <= i < |s.workers| && s.workers[i].Chunk? ensures s.workers[i].begin < s.workers[i].end {
      assert WorkerOk(s.workers[i], s.table);
    }
    HeldRowsSize(s.workers, id);
  }

  // ---------------------------------------------------------------- progress

  predicate IsWork(l: Label) {
    l.Claim? || l.Check? || l.Finish? || l.Retire?
  }

  ghost predicate Unfinished(s: Pool) {
    exists id :: 0 <= id < |s.table| && s.table[id].remaining > 0
  }

  lemma PickSleeper(ws: seq<Worker>) returns (pick: nat)
    ensures MayNotify(ws, pick)
  {
    if SomeAsleep(ws) {
      pick :| pick < |ws| && ws[pick].Asleep?;
    } else {
      pick := 0;
    }
  }

  lemma HolderCanWork(s: Pool, i: nat)
    requires Inv(s) && i < |s.workers| && s.workers[i].Chunk?
    ensures exists l :: IsWork(l) && Enabled(s, l)
  {
    assert WorkerOk(s.workers[i], s.table);
    var pick := PickSleeper(s.workers);
    assert Enabled(s, Finish(i, false)) || Enabled(s, Check(i)) || Enabled(s, Retire(i, pick));
  }

  /** No wake-up is lost: while a worker sleeps, every entry of the deque has a worker of its
      own that is about to look at it, and while there is an entry one of them can claim. */
  lemma NoLostWakeUp(s: Pool)
    requires Reachable(s) && SomeAsleep(s.workers)
    ensures |s.jobs| <= Looking(s.workers)
    ensures s.jobs != [] ==> exists w, pick :: Enabled(s, Claim(w, pick))
  {
    ReachableInv(s);
    if s.jobs != [] {
      var w := SomeLooking(s.workers);
      var pick := PickSleeper(s.workers);
      assert Enabled(s, Claim(w, pick));
    }
  }

  lemma {:induction false} SomeLooking(ws: seq<Worker>) returns (w: nat)
    requires Looking(ws) > 0
    ensures w < |ws| && ws[w].Awake?
  {
    if ws[0].Awake? {
      w := 0;
    } else {
      var k := SomeLooking(ws[1..]);
      w := k + 1;
    }
  }

  /** No interleaving is stuck: while a job is unfinished, some worker can claim, run or
      retire, whatever the other workers and clients are doing. */
  lemma NoDeadlock(s: Pool)
    requires Reachable(s) && Unfinished(s)
    ensures exists l :: IsWork(l) && Enabled(s, l)
  {
    ReachableInv(s);
    var id :| 0 <= id < |s.table| && s.table[id].remaining > 0;
    assert CountersOk(s, id);
    LoadsNonNegative(s, id);
    if s.jobs != [] {
      var i :| 0 <= i < |s.workers| && Alive(s.workers[i]);
      if s.workers[i].Chunk? {
        HolderCanWork(s, i);
      } else {
        var pick := PickSleeper(s.workers);
        assert Enabled(s, Claim(i, pick));
      }
    } else {
      assert !s.table[id].queued;
      if Holders(s.workers, id) == 0 {
        NothingHeldNothingInFlight(s, id);
      } else {
        var i := SomeHolder(s.workers, id);
        HolderCanWork(s, i);
      }
    }
  }

  lemma NothingHeldNothingInFlight(s: Pool, id: JobId)
    requires Inv(s) && id < |s.table| && Holders(s.workers, id) == 0
    ensures InFlight(s.workers, id) == 0
  {
    forall i | 0 <= i < |s.workers| && s.workers[i].Chunk? ensures s.workers[i].begin < s.workers[i].end {
      assert WorkerOk(s.workers[i], s.table);
    }
    InFlightBounds(s.workers, id);
  }

  /** The destructor drains: when every worker has left its loop, every job is finished. */
  lemma ExitDrains(s: Pool)
    requires Reachable(s)
    requires forall i :: 0 <= i < |s.workers| ==> s.workers[i].Exited?
    ensures !Unfinished(s) && s.jobs == []
  {
    if Unfinished(s) {
      NoDeadlock(s);
    }
    ReachableInv(s);
  }

  // ---------------------------------------------------------------- measure

  function WorkerCost(w: Worker): int {
    if w.Chunk? then 2 * (w.end - w.row) - (if w.calling then 1 else 0) + 1 else 0
  }

  function JobCost(j: Job): int {
    4 * (j.count - j.next)
  }

  function WorkersCost(ws: seq<Worker>): int {
    if ws == [] then 0 else WorkerCost(ws[0]) + WorkersCost(ws[1..])
  }

  function TableCost(ts: seq<Job>): int {
    if ts == [] then 0 else JobCost(ts[0]) + TableCost(ts[1..])
  }

  /** Work the pool still has to do. */
  function Work(s: Pool): int {
    TableCost(s.table) + WorkersCost(s.workers)
  }

  lemma {:induction false} WorkersCostUpdate(ws: seq<Worker>, i: nat, w: Worker)
    requires i < |ws|
    ensures WorkersCost(ws[i := w]) == WorkersCost(ws) - WorkerCost(ws[i]) + WorkerCost(w)
  {
    if i == 0 {
      assert ws[0 := w][1..] == ws[1..];
    } else {
      assert ws[i := w][1..] == ws[1..][i - 1 := w];
      WorkersCostUpdate(ws[1..], i - 1, w);
    }
  }

  lemma {:induction false} TableCostUpdate(ts: seq<Job>, i: nat, j: Job)
    requires i < |ts|
    ensures TableCost(ts[i := j]) == TableCost(ts) - JobCost(ts[i]) + JobCost(j)
  {
    if i == 0 {
      assert ts[0 := j][1..] == ts[1..];
    } else {
      assert ts[i := j][1..] == ts[1..][i - 1 := j];
      TableCostUpdate(ts[1..], i - 1, j);
    }
  }

  lemma {:induction false} TableCostAppend(ts: seq<Job>, j: Job)
    ensures TableCost(ts + [j]) == TableCost(ts) + JobCost(j)
  {
    if ts == [] {
      assert ts + [j] == [j];
    } else {
      assert (ts + [j])[1..] == ts[1..] + [j];
      TableCostAppend(ts[1..], j);
    }
  }

  lemma {:induction false} WakeAllCost(ws: seq<Worker>)
    ensures WorkersCost(WakeAll(ws)) == WorkersCost(ws)
  {
    if ws != [] {
      assert WakeAll(ws)[1..] == WakeAll(ws[1..]);
      WakeAllCost(ws[1..]);
    }
  }

  lemma EnqueueCost(s: Pool, id: JobId, pick: nat)
    requires id < |s.table|
    ensures Work(Enqueue(s, id, pick)) == Work(s)
  {
    TableCostUpdate(s.table, id, s.table[id].(queued := true));
    if pick < |s.workers| {
      WorkersCostUpdate(s.workers, pick, Awake);
    }
  }

  /** Rows submitted by a label. */
  function Rows(l: Label): nat {
    if l.Submit? then l.count else 0
  }

  lemma StepCost(s: Pool, l: Label)
    requires Inv(s) && Enabled(s, l)
    ensures Work(Next(s, l)) + (if IsWork(l) then 1 else 0) <= Work(s) + 4 * Rows(l)
  {
    hide Core, TableCost, WorkersCost, Attended, NoneOverlooked, WakeAll, Grain;
    match l
    case Submit(count, maxWorkers, pick) =>
      var j := NewJob(count, Concurrency(count, maxWorkers, |s.workers|));
      TableCostAppend(s.table, j);
      EnqueueCost(s.(table := s.table + [j]), |s.table|, pick);
    case Claim(w, pick) =>
      PopKeepsCore(s, w);
      ClaimCost(s, w);
      EnqueueCost(Pop(s, w), s.jobs[0], pick);
    case Check(w) => InChunkCost(s, CheckStep(s, w), w);
    case Finish(w, threw) => InChunkCost(s, FinishStep(s, w, threw), w);
    case Retire(w, pick) =>
      DropCost(s, w);
      EnqueueCost(Drop(s, w), s.workers[w].job, pick);
    case Sleep(w) => WorkersCostUpdate(s.workers, w, Asleep);
    case Wake(w) => WorkersCostUpdate(s.workers, w, Awake);
    case Exit(w) => WorkersCostUpdate(s.workers, w, Exited);
    case Return(id) => TableCostUpdate(s.table, id, s.table[id].(released := true));
    case Stop =>
    case NotifyAll => WakeAllCost(s.workers);
  }

  /** A step inside a chunk costs what it takes off that chunk. */
  lemma InChunkCost(s: Pool, t: Pool, w: nat)
    requires w < |s.workers| && s.workers[w].Chunk? && s.workers[w].job < |s.table| == |t.table|
    requires |t.workers| == |s.workers| && t.workers == s.workers[w := t.workers[w]]
    requires var id := s.workers[w].job;
      && t.table == s.table[id := t.table[id]]
      && t.table[id].count == s.table[id].count && t.table[id].next == s.table[id].next
    ensures Work(t) == Work(s) - WorkerCost(s.workers[w]) + WorkerCost(t.workers[w])
  {
    hide WorkerCost;
    var id := s.workers[w].job;
    WorkersCostUpdate(s.workers, w, t.workers[w]);
    TableCostUpdate(s.table, id, t.table[id]);
  }

  /** Giving a chunk back takes its last unit off. */
  lemma DropCost(s: Pool, w: nat)
    requires Inv(s) && w < |s.workers| && s.workers[w].Chunk? && s.workers[w].job < |s.table|
    requires !s.workers[w].calling
    ensures Work(Drop(s, w)) < Work(s)
  {
    hide CountersOk, HistoryOk, TableCost, WorkersCost, Attended, NoneOverlooked, Apart;
    assert WorkerOk(s.workers[w], s.table);
    InChunkCost(s, Drop(s, w), w);
  }

  lemma ClaimCost(s: Pool, w: nat)
    requires Inv(s) && w < |s.workers| && s.workers[w].Awake? && s.jobs != []
    requires s.jobs[0] < |s.table|
    ensures Work(Pop(s, w)) < Work(s)
  {
    var id := s.jobs[0];
    var t := Pop(s, w);
    assert CountersOk(s, id);
    WorkersCostUpdate(s.workers, w, t.workers[w]);
    TableCostUpdate(s.table, id, t.table[id]);
  }

  function WorkSteps(run: seq<Label>): nat {
    if run == [] then 0 else (if IsWork(run[0]) then 1 else 0) + WorkSteps(run[1..])
  }

  function RowsSubmitted(run: seq<Label>): nat {
    if run == [] then 0 else Rows(run[0]) + RowsSubmitted(run[1..])
  }

  lemma {:induction false} RunCost(s: Pool, run: seq<Label>)
    requires Inv(s) && IsRun(s, run)
    ensures WorkSteps(run) + Work(After(s, run)) <= Work(s) + 4 * RowsSubmitted(run)
    decreases |run|
  {
    if run != [] {
      StepCost(s, run[0]);
      StepKeeps(s, run[0]);
      RunCost(Next(s, run[0]), run[1..]);
    }
  }

  lemma {:induction false} WorkersCostNonNegative(ws: seq<Worker>)
    requires forall i :: 0 <= i < |ws| && ws[i].Chunk? ==>
      ws[i].row <= ws[i].end && (ws[i].calling ==> ws[i].row < ws[i].end)
    ensures WorkersCost(ws) >= 0
  {
    if ws != [] {
      WorkersCostNonNegative(ws[1..]);
    }
  }

  lemma {:induction false} TableCostNonNegative(ts: seq<Job>)
    requires forall i :: 0 <= i < |ts| ==> ts[i].next <= ts[i].count
    ensures TableCost(ts) >= 0
  {
    if ts != [] {
      TableCostNonNegative(ts[1..]);
    }
  }

  /** Every run does at most four work steps per submitted row.  With NoDeadlock this
      means every submitted job finishes under any scheduler that lets workers move. */
  lemma WorkIsBounded(s: Pool, run: seq<Label>)
    requires Initial(s) && IsRun(s, run)
    ensures WorkSteps(run) <= 4 * RowsSubmitted(run)
  {
    InitialInv(s);
    RunCost(s, run);
    RunKeeps(s, run);
    WorkNonNegative(After(s, run));
    InitialCost(s.workers);
  }

  lemma {:induction false} InitialCost(ws: seq<Worker>)
    requires forall i :: 0 <= i < |ws| ==> ws[i] == Awake
    ensures WorkersCost(ws) == 0
  {
    if ws != [] {
      InitialCost(ws[1..]);
    }
  }

  lemma WorkNonNegative(s: Pool)
    requires Inv(s)
    ensures Work(s) >= 0
  {
    forall i | 0 <= i < |s.table| ensures s.table[i].next <= s.table[i].count {
      assert CountersOk(s, i);
    }
    TableCostNonNegative(s.table);
    forall i | 0 <= i < |s.workers| && s.workers[i].Chunk?
      ensures s.workers[i].row <= s.workers[i].end && (s.workers[i].calling ==> s.workers[i].row < s.workers[i].end)
    {
      assert WorkerOk(s.workers[i], s.table);
    }
    WorkersCostNonNegative(s.workers);
  }

  lemma ReachableStep(s: Pool, l: Label)
    requires Reachable(s) && Enabled(s, l)
    ensures Reachable(Next(s, l))
  {
    var s0, run :| Initial(s0) && IsRun(s0, run) && After(s0, run) == s;
    RunAppend(s0, run, l);
    assert IsRun(s0, run + [l]) && After(s0, run + [l]) == Next(s, l);
  }

  lemma {:induction false} RunAppend(s: Pool, run: seq<Label>, l: Label)
    requires IsRun(s, run) && Enabled(After(s, run), l)
    ensures IsRun(s, run + [l]) && After(s, run + [l]) == Next(After(s, run), l)
    decreases |run|
  {
    if run == [] {
      assert run + [l] == [l];
      assert [l][1..] == [];
    } else {
      assert (run + [l])[1..] == run[1..] + [l];
      RunAppend(Next(s, run[0]), run[1..], l);
    }
  }

  /** From every reachable pool, workers alone can finish every job: whatever work step
      is taken, only finitely many are left, and there is one until all jobs are done. */
  lemma {:induction false} EveryJobCanFinish(s: Pool) returns (run: seq<Label>)
    requires Reachable(s)
    ensures IsRun(s, run) && !Unfinished(After(s, run))
    ensures forall i :: 0 <= i < |run| ==> IsWork(run[i])
    decreases Work(s)
  {
    ReachableInv(s);
    WorkNonNegative(s);
    if !Unfinished(s) {
      run := [];
    } else {
      NoDeadlock(s);
      var l :| IsWork(l) && Enabled(s, l);
      StepCost(s, l);
      ReachableStep(s, l);
      var rest := EveryJobCanFinish(Next(s, l));
      run := [l] + rest;
      assert run[1..] == rest;
    }
  }

  // ---------------------------------------------------------------- FIFO

  function Claims(run: seq<Label>): nat {
    if run == [] then 0 else (if run[0].Claim? then 1 else 0) + Claims(run[1..])
  }

  /** Job `id` is popped somewhere in the run. */
  ghost predicate PopsJob(s: Pool, run: seq<Label>, id: JobId)
    requires IsRun(s, run)
    decreases |run|
  {
    run != [] && ((run[0].Claim? && s.jobs[0] == id) || PopsJob(Next(s, run[0]), run[1..], id))
  }

  /** A job at position p of the deque is popped within the next p + 1 pops. */
  lemma {:induction false} FifoService(s: Pool, run: seq<Label>, p: nat)
    requires IsRun(s, run) && p < |s.jobs| && Claims(run) > p
    ensures PopsJob(s, run, s.jobs[p])
    decreases |run|
  {
    var t := Next(s, run[0]);
    if !run[0].Claim? {
      assert s.jobs <= t.jobs;
      FifoService(t, run[1..], p);
    } else if p > 0 {
      assert s.jobs[1..] <= t.jobs;
      FifoService(t, run[1..], p - 1);
    }
  }
}
