/** The pool as the object the source has: fields updated in place inside critical
    sections.  Every method performs exactly one step of the machine and keeps its
    invariant; the statements follow the order of the source. */
module ParallelExecutor {
  import opened Common
  import opened PoolMachine
  import opened PoolSafety

  class Impl {
    var jobs: seq<JobId>
    var table: seq<Job>
    var workers: seq<Worker>
    var stopping: bool

    ghost function View(): Pool
      reads this
    {
      Pool(jobs, table, workers, stopping)
    }

    constructor (requestedWorkers: nat)
      ensures Initial(View()) && Inv(View())
      ensures |workers| == Max(requestedWorkers, 1)
    {
      var count := Max(requestedWorkers, 1);
      jobs := [];
      table := [];
      workers := seq(count, i => Awake);
      stopping := false;
      new;
      InitialInv(View());
    }

    method Enqueue(id: JobId, pick: nat)
      requires id < |table|
      modifies this
      ensures View() == PoolMachine.Enqueue(old(View()), id, pick)
    {
      var job := table[id];
      if job.queued || job.next >= job.count || job.active >= job.maxActive {
        return;
      }
      table := table[id := job.(queued := true)];
      jobs := jobs + [id];
      if pick < |workers| && workers[pick].Asleep? {
        workers := workers[pick := Awake];
      }
    }

    /** The client's critical section in ParallelFor up to the wait. */
    method Submit(count: nat, maxWorkers: nat, pick: nat) returns (id: JobId)
      requires Inv(View()) && Enabled(View(), Label.Submit(count, maxWorkers, pick))
      modifies this
      ensures View() == Next(old(View()), Label.Submit(count, maxWorkers, pick)) && Inv(View())
      ensures id == |old(table)|
    {
      hide Inv, Grain;
      StepKeeps(View(), Label.Submit(count, maxWorkers, pick));
      var concurrency := Min(Max(maxWorkers, 1), Min(count, |workers|));
      id := |table|;
      table := table + [NewJob(count, concurrency)];
      Enqueue(id, pick);
    }

    /** A worker whose wait predicate holds pops the front job and claims a chunk. */
    method Claim(w: nat, pick: nat)
      requires Inv(View()) && Enabled(View(), Label.Claim(w, pick))
      modifies this
      ensures View() == Next(old(View()), Label.Claim(w, pick)) && Inv(View())
    {
      hide Inv, Grain;
      StepKeeps(View(), Label.Claim(w, pick));
      var id := jobs[0];
      jobs := jobs[1..];
      var job := table[id];
      var begin := job.next;
      var end := Min(job.count, begin + job.grain);
      table := table[id := job.(queued := false, next := end, active := job.active + 1, chunks := job.chunks + 1)];
      workers := workers[w := Chunk(id, begin, end, begin, false)];
      Enqueue(id, pick);
    }

    /** One row of the chunk: skip it when the job is cancelled, otherwise enter it. */
    method CheckRow(w: nat)
      requires Inv(View()) && Enabled(View(), Check(w))
      modifies this
      ensures View() == Next(old(View()), Check(w)) && Inv(View())
    {
      hide Inv, Grain;
      StepKeeps(View(), Check(w));
      var c := workers[w];
      var job := table[c.job];
      if job.cancelled {
        workers := workers[w := c.(row := c.row + 1)];
        return;
      }
      workers := workers[w := c.(calling := true)];
      table := table[c.job := job.(called := job.called + [c.row])];
    }

    /** The row function returns or throws; only the first exception is kept. */
    method FinishRow(w: nat, threw: bool)
      requires Inv(View()) && Enabled(View(), Finish(w, threw))
      modifies this
      ensures View() == Next(old(View()), Finish(w, threw)) && Inv(View())
    {
      hide Inv, Grain;
      StepKeeps(View(), Finish(w, threw));
      var c := workers[w];
      workers := workers[w := c.(row := c.row + 1, calling := false)];
      if threw {
        var job := table[c.job];
        if job.exception == None {
          job := job.(exception := Some(c.row));
        }
        table := table[c.job := job.(cancelled := true, thrown := job.thrown + [c.row])];
      }
    }

    /** The worker gives its chunk back, completing or re-queueing the job. */
    method Retire(w: nat, pick: nat)
      requires Inv(View()) && Enabled(View(), Label.Retire(w, pick))
      modifies this
      ensures View() == Next(old(View()), Label.Retire(w, pick)) && Inv(View())
    {
      hide Inv, Grain;
      StepKeeps(View(), Label.Retire(w, pick));
      var c := workers[w];
      var job := table[c.job];
      job := job.(active := job.active - 1, remaining := job.remaining - (c.end - c.begin));
      workers := workers[w := Awake];
      if job.remaining == 0 {
        table := table[c.job := job.(waiting := false)];
      } else {
        table := table[c.job := job];
        Enqueue(c.job, pick);
      }
    }

    /** The client's wait ends; its job leaves the stack and its exception is rethrown. */
    method Return(id: JobId) returns (exception: Option<nat>)
      requires Inv(View()) && Enabled(View(), Label.Return(id))
      modifies this
      ensures View() == Next(old(View()), Label.Return(id)) && Inv(View())
      ensures exception == old(table[id].exception)
    {
      hide Inv, Grain;
      StepKeeps(View(), Label.Return(id));
      exception := table[id].exception;
      table := table[id := table[id].(released := true)];
    }
  }

  /** The branch of ParallelFor that runs rows on the calling thread: rows are entered in
      order, each once, up to and including the first that throws. */
  method RunInline(count: nat, throws: nat -> bool) returns (called: seq<nat>, exception: Option<nat>)
    ensures forall i :: 0 <= i < |called| ==> called[i] == i
    ensures exception.None? ==> |called| == count && forall r :: 0 <= r < count ==> !throws(r)
    ensures exception.Some? ==>
              exception.value < count && throws(exception.value) && |called| == exception.value + 1
              && forall r :: 0 <= r < exception.value ==> !throws(r)
  {
    called := [];
    var row := 0;
    while row < count
      invariant 0 <= row <= count && |called| == row
      invariant forall i :: 0 <= i < |called| ==> called[i] == i
      invariant forall r :: 0 <= r < row ==> !throws(r)
    {
      called := called + [row];
      if throws(row) {
        return called, Some(row);
      }
      row := row + 1;
    }
    exception := None;
  }
}
