/** What a caller of ParallelFor was promised, over whole runs and in the terms of its own call:
    how many threads may work on its rows, how the rows are cut up, and what an exception stops. */
module PoolLaws {
  import opened Common
  import opened PoolMachine
  import opened PoolSafety
  import opened PoolTheorems

  // ---------------------------------------------------------------- runs

  lemma {:induction false} RunSplits(s: Pool, run: seq<Label>, k: nat)
    requires IsRun(s, run) && k <= |run|
    ensures IsRun(s, run[..k]) && IsRun(After(s, run[..k]), run[k..])
    ensures After(After(s, run[..k]), run[k..]) == After(s, run)
    decreases k
  {
    if k == 0 {
      assert run[0..] == run;
    } else {
      RunSplits(Next(s, run[0]), run[1..], k - 1);
      assert run[..k][1..] == run[1..][..k - 1] && run[1..][k - 1..] == run[k..];
    }
  }

  /** What never changes of a job, and that jobs keep their places. */
  predicate SameOrder(a: Pool, b: Pool) {
    && |a.table| <= |b.table| && |a.workers| == |b.workers|
    && forall id :: 0 <= id < |a.table| ==>
         && a.table[id].count == b.table[id].count && a.table[id].maxActive == b.table[id].maxActive
         && a.table[id].grain == b.table[id].grain
  }

  lemma StepKeepsOrder(s: Pool, l: Label)
    requires Enabled(s, l)
    ensures SameOrder(s, Next(s, l))
  {
    hide Grain, Concurrency, RunsInline, MayNotify;
  }

  lemma {:induction false} RunKeepsOrder(s: Pool, run: seq<Label>)
    requires IsRun(s, run)
    ensures SameOrder(s, After(s, run))
    decreases |run|
  {
    hide Next, Enabled;
    if run != [] {
      StepKeepsOrder(s, run[0]);
      RunKeepsOrder(Next(s, run[0]), run[1..]);
    }
  }

  // ---------------------------------------------------------------- threads

  /** The workers that are inside rows of a job. */
  function WorkersOn(ws: seq<Worker>, id: JobId): set<nat> {
    set i: nat | i < |ws| && ws[i].Chunk? && ws[i].job == id
  }

  function WorkersFrom(ws: seq<Worker>, id: JobId, k: nat): set<nat> {
    set i: nat | k <= i < |ws| && ws[i].Chunk? && ws[i].job == id
  }

  lemma {:induction false} WorkersCounted(ws: seq<Worker>, id: JobId, k: nat)
    requires k <= |ws|
    ensures |WorkersFrom(ws, id, k)| == Holders(ws[k..], id)
    decreases |ws| - k
  {
    if k < |ws| {
      WorkersCounted(ws, id, k + 1);
      assert ws[k..][1..] == ws[k + 1..];
      var rest, here := WorkersFrom(ws, id, k + 1), WorkersFrom(ws, id, k);
      assert k !in rest;
      assert here == if Busy(ws[k], id) == 1 then rest + {k} else rest;
    } else {
      assert WorkersFrom(ws, id, k) == {};
    }
  }

  lemma WorkersAreHolders(ws: seq<Worker>, id: JobId)
    ensures |WorkersOn(ws, id)| == Holders(ws, id)
  {
    WorkersCounted(ws, id, 0);
    assert ws[0..] == ws && WorkersFrom(ws, id, 0) == WorkersOn(ws, id);
  }

  /** ParallelFor hands a batch to the pool exactly if it is large, the caller allows a second
      thread and the pool has one; otherwise the caller runs it. */
  lemma SubmitsExactly(s: Pool, count: nat, maxWorkers: nat, pick: nat)
    ensures Enabled(s, Submit(count, maxWorkers, pick)) <==>
      !s.stopping && count >= 16 && maxWorkers >= 2 && |s.workers| >= 2 && MayNotify(s.workers, pick)
  {
  }

  /** The job of a submission, some steps later. */
  ghost predicate Submitted(s: Pool, run: seq<Label>, k: nat, m: nat, count: nat, maxWorkers: nat) {
    && Initial(s) && IsRun(s, run) && k < m <= |run|
    && run[k].Submit? && run[k].count == count && run[k].maxWorkers == maxWorkers
  }

  lemma SubmittedJob(s: Pool, run: seq<Label>, k: nat, m: nat, count: nat, maxWorkers: nat)
    requires Submitted(s, run, k, m, count, maxWorkers)
    ensures IsRun(s, run[..k]) && IsRun(s, run[..m])
    ensures var before, t := After(s, run[..k]), After(s, run[..m]);
            var id := |before.table|;
      && Enabled(before, run[k]) && Inv(t) && |t.workers| == |s.workers| && id < |t.table|
      && t.table[id].count == count
      && t.table[id].maxActive == Concurrency(count, maxWorkers, |s.workers|)
  {
    hide Enabled, Next, Inv, Concurrency, Initial;
    RunSplits(s, run, k);
    RunSplits(s, run, m);
    var before := After(s, run[..k]);
    assert run[k..][0] == run[k];
    RunSplits(s, run[..m], k);
    assert run[..m][..k] == run[..k] && run[..m][k..][0] == run[k];
    SubmitMakes(before, run[k]);
    RunKeepsOrder(Next(before, run[k]), run[..m][k..][1..]);
    RunKeepsOrder(s, run[..k]);
    InitialInv(s);
    RunKeeps(s, run[..m]);
  }

  lemma SubmitMakes(s: Pool, l: Label)
    requires l.Submit? && Enabled(s, l)
    ensures var t := Next(s, l);
      && |t.table| == |s.table| + 1 && |t.workers| == |s.workers| && t.table[|s.table|].count == l.count
      && t.table[|s.table|].maxActive == Concurrency(l.count, l.maxWorkers, |s.workers|)
  {
    hide Grain, Concurrency, RunsInline, MayNotify;
  }

  /** At every later moment of every run, at most as many workers are on the rows of a call as its
      caller allowed, as it has rows, and as there are. */
  lemma CallerCap(s: Pool, run: seq<Label>, k: nat, m: nat, count: nat, maxWorkers: nat)
    requires Submitted(s, run, k, m, count, maxWorkers)
    ensures IsRun(s, run[..k]) && IsRun(s, run[..m])
    ensures var id, t := |After(s, run[..k]).table|, After(s, run[..m]);
            var on := |WorkersOn(t.workers, id)|;
      on <= maxWorkers && on <= |s.workers| && on <= count && maxWorkers >= 2
  {
    hide Inv, Initial, IsRun, After, Enabled, Holders;
    SubmittedJob(s, run, k, m, count, maxWorkers);
    var before, t := After(s, run[..k]), After(s, run[..m]);
    SubmitsExactly(before, count, maxWorkers, run[k].pick);
    WorkersAreHolders(t.workers, |before.table|);
    HoldersCapped(t, |before.table|);
  }

  lemma HoldersCapped(s: Pool, id: JobId)
    requires Inv(s) && id < |s.table|
    ensures Holders(s.workers, id) == s.table[id].active <= s.table[id].maxActive
    ensures s.table[id].next >= s.table[id].count || s.table[id].queued || s.table[id].active >= s.table[id].maxActive
    ensures s.table[id].queued ==> id in s.jobs
  {
    assert CountersOk(s, id);
  }

  /** Nor is any allowed thread wasted: while rows are unclaimed, and fewer workers are on them than
      the caller, the rows and the pool allow, the job waits in the deque for one more. */
  lemma NoIdleAllowance(s: Pool, run: seq<Label>, k: nat, m: nat, count: nat, maxWorkers: nat)
    requires Submitted(s, run, k, m, count, maxWorkers)
    ensures IsRun(s, run[..k]) && IsRun(s, run[..m])
    ensures var id, t := |After(s, run[..k]).table|, After(s, run[..m]);
            var on := |WorkersOn(t.workers, id)|;
      && id < |t.table|
      && (t.table[id].next < count && on < maxWorkers && on < |s.workers| && on < count ==> id in t.jobs)
  {
    hide Inv, Initial, IsRun, After, Enabled, Holders;
    SubmittedJob(s, run, k, m, count, maxWorkers);
    var before, t := After(s, run[..k]), After(s, run[..m]);
    WorkersAreHolders(t.workers, |before.table|);
    HoldersCapped(t, |before.table|);
  }

  // ---------------------------------------------------------------- chunks

  /** No worker holds more than a grain. */
  predicate ChunksFit(s: Pool) {
    forall i :: 0 <= i < |s.workers| ==> ChunkFits(s.workers[i], s.table)
  }

  predicate ChunkFits(w: Worker, table: seq<Job>) {
    w.Chunk? ==> w.job < |table| && w.end - w.begin <= table[w.job].grain
  }

  /** A step leaves a worker its chunk, takes it away or gives it one grain of the front job. */
  lemma ChunkMoves(s: Pool, l: Label, i: nat)
    requires Enabled(s, l) && i < |s.workers| == |Next(s, l).workers| && Next(s, l).workers[i].Chunk?
    ensures var now, was := Next(s, l).workers[i], s.workers[i];
      || (was.Chunk? && now.job == was.job && now.begin == was.begin && now.end == was.end)
      || (s.jobs != [] && now.job == s.jobs[0] < |s.table| && now.end - now.begin <= s.table[now.job].grain)
  {
    hide Grain, Concurrency, RunsInline, MayNotify;
  }

  lemma StepKeepsChunks(s: Pool, l: Label)
    requires ChunksFit(s) && Enabled(s, l)
    ensures ChunksFit(Next(s, l))
  {
    hide Next, Enabled;
    StepKeepsOrder(s, l);
    var t := Next(s, l);
    forall i | 0 <= i < |t.workers| ensures ChunkFits(t.workers[i], t.table) {
      if t.workers[i].Chunk? {
        ChunkMoves(s, l, i);
        assert ChunkFits(s.workers[i], s.table);
      }
    }
  }

  lemma {:induction false} RunKeepsChunks(s: Pool, run: seq<Label>)
    requires ChunksFit(s) && IsRun(s, run)
    ensures ChunksFit(After(s, run))
    decreases |run|
  {
    hide Next, Enabled, ChunksFit;
    if run != [] {
      StepKeepsChunks(s, run[0]);
      RunKeepsChunks(Next(s, run[0]), run[1..]);
    }
  }

  /** Chunks are as small as four for every allowed thread make them: a chunk of more than one row
      would, one row shorter, need more than four a thread. */
  lemma ChunksAreSmall(s: Pool, run: seq<Label>, k: nat, m: nat, count: nat, maxWorkers: nat, w: nat)
    requires Submitted(s, run, k, m, count, maxWorkers) && IsRun(s, run[..k]) && IsRun(s, run[..m])
    requires w in WorkersOn(After(s, run[..m]).workers, |After(s, run[..k]).table|)
    ensures var c := After(s, run[..m]).workers[w];
            var threads := Min(maxWorkers, Min(count, |s.workers|));
      c.end - c.begin <= 1 || (c.end - c.begin - 1) * (4 * threads) < count
  {
    hide Inv, IsRun, After, Enabled;
    SubmittedJob(s, run, k, m, count, maxWorkers);
    var t, id := After(s, run[..m]), |After(s, run[..k]).table|;
    SubmitsExactly(After(s, run[..k]), count, maxWorkers, run[k].pick);
    RunKeepsChunks(s, run[..m]);
    assert ChunkFits(t.workers[w], t.table);
    GrainOf(t, id);
    var size, threads := t.workers[w].end - t.workers[w].begin, Min(maxWorkers, Min(count, |s.workers|));
    assert size <= t.table[id].grain == Grain(count, threads);
    GrainIsLeast(count, threads, size);
  }

  lemma GrainOf(s: Pool, id: JobId)
    requires Inv(s) && id < |s.table|
    ensures 0 < s.table[id].maxActive && s.table[id].grain == Grain(s.table[id].count, s.table[id].maxActive)
  {
    assert CountersOk(s, id);
  }

  lemma GrainIsLeast(count: nat, threads: nat, size: int)
    requires threads > 0 && size <= Grain(count, threads)
    ensures size <= 1 || (size - 1) * (4 * threads) < count
  {
    var d := threads * CHUNKS_PER_WORKER;
    var q := CeilDiv(count, d);
    assert d * q <= count + d - 1;
    assert d == 4 * threads;
    if size > 1 {
      MulMonotone(size - 1, q - 1, d);
      assert (q - 1) * d == q * d - d;
    }
  }

  // ---------------------------------------------------------------- exceptions

  /** Once a row has thrown no step of any thread enters another row of that call. */
  lemma ThrowStopsEntries(s: Pool, l: Label, id: JobId)
    requires Reachable(s) && Enabled(s, l) && id < |s.table| && s.table[id].thrown != []
    ensures id < |Next(s, l).table| && Next(s, l).table[id].called == s.table[id].called
  {
    hide Inv, Reachable, Grain, Concurrency, MayNotify, RunsInline;
    ThrownCancels(s, id);
  }

  lemma ThrownCancels(s: Pool, id: JobId)
    requires Reachable(s) && id < |s.table|
    ensures s.table[id].cancelled <==> s.table[id].thrown != []
  {
    ReachableInv(s);
    assert HistoryOk(s, id);
  }

  /** And before one has, a row is entered as soon as its turn comes. */
  lemma NothingSkipped(s: Pool, w: nat)
    requires Reachable(s) && Enabled(s, Check(w)) && s.table[s.workers[w].job].thrown == []
    ensures var c := s.workers[w];
      Next(s, Check(w)).table[c.job].called == s.table[c.job].called + [c.row]
  {
    ThrownCancels(s, s.workers[w].job);
  }
}
