/** The worker pool as a labelled transition system.

    Every label is one critical section of the pool's mutex, or one unlocked action of
    a worker between two critical sections (the test of the cancellation flag, the call
    of the row function).  A run is a sequence of labels in which every label is enabled
    when it is taken, so runs are exactly the interleavings of any number of clients and
    workers, including spurious wake-ups. */
module PoolMachine {
  import opened Common

  const MINIMUM_PARALLEL_ROWS: nat := 16
  const CHUNKS_PER_WORKER: nat := 4

  type JobId = nat

  datatype Worker =
    | Asleep                       // blocked in ready.wait
    | Awake                        // about to test the wait predicate
    | Chunk(job: JobId, begin: nat, end: nat, row: nat, calling: bool)
    | Exited

  /** A job lives on its client's stack.  `released` records that the client has left
      ParallelFor, after which the job's memory no longer exists.  `chunks`, `called`
      and `thrown` are the history of the job: claims, rows entered, rows that threw. */
  datatype Job = Job(
    count: nat, maxActive: nat, grain: nat,
    next: nat, remaining: int, active: int, queued: bool,
    cancelled: bool, exception: Option<nat>,
    waiting: bool, released: bool,
    chunks: nat, called: seq<nat>, thrown: seq<nat>)

  datatype Pool = Pool(jobs: seq<JobId>, table: seq<Job>, workers: seq<Worker>, stopping: bool)

  datatype Label =
    | Submit(count: nat, maxWorkers: nat, pick: nat)
    | Claim(w: nat, pick: nat)
    | Check(w: nat)
    | Finish(w: nat, threw: bool)
    | Retire(w: nat, pick: nat)
    | Sleep(w: nat)
    | Wake(w: nat)
    | Exit(w: nat)
    | Return(id: JobId)
    | Stop
    | NotifyAll

  // ---------------------------------------------------------------- arithmetic

  function CeilDiv(n: nat, d: nat): nat
    requires d > 0
  {
    (n + d - 1) / d
  }

  function Grain(count: nat, maxActive: nat): nat
    requires maxActive > 0
  {
    Max(1, CeilDiv(count, maxActive * CHUNKS_PER_WORKER))
  }

  /** How many chunks of one job may run at once. */
  function Concurrency(count: nat, maxWorkers: nat, workerCount: nat): nat {
    Min(Max(maxWorkers, 1), Min(count, workerCount))
  }

  /** ParallelFor runs the rows on the calling thread in these cases. */
  predicate RunsInline(count: nat, maxWorkers: nat, workerCount: nat) {
    Concurrency(count, maxWorkers, workerCount) == 1 || count < MINIMUM_PARALLEL_ROWS
  }

  function NewJob(count: nat, maxActive: nat): Job
    requires maxActive > 0
  {
    Job(count, maxActive, Grain(count, maxActive), 0, count, 0, false, false, None, true, false, 0, [], [])
  }

  // ---------------------------------------------------------------- steps

  predicate SomeAsleep(ws: seq<Worker>) {
    exists i :: 0 <= i < |ws| && ws[i].Asleep?
  }

  /** notify_one must reach a sleeper when there is one; which one is the label's choice. */
  predicate MayNotify(ws: seq<Worker>, pick: nat) {
    SomeAsleep(ws) ==> pick < |ws| && ws[pick].Asleep?
  }

  function Notify(ws: seq<Worker>, pick: nat): seq<Worker> {
    if pick < |ws| && ws[pick].Asleep? then ws[pick := Awake] else ws
  }

  predicate Saturated(j: Job) {
    j.next >= j.count || j.active >= j.maxActive
  }

  function Enqueue(s: Pool, id: JobId, pick: nat): Pool
    requires id < |s.table|
  {
    var j := s.table[id];
    if j.queued || Saturated(j) then s
    else s.(table := s.table[id := j.(queued := true)],
            jobs := s.jobs + [id],
            workers := Notify(s.workers, pick))
  }

  predicate Enabled(s: Pool, l: Label) {
    match l
    case Submit(count, maxWorkers, pick) =>
      !s.stopping && count > 0 && |s.workers| > 0 && !RunsInline(count, maxWorkers, |s.workers|)
          && MayNotify(s.workers, pick)
    case Claim(w, pick) =>
      w < |s.workers| && s.workers[w].Awake? && s.jobs != [] && s.jobs[0] < |s.table| && MayNotify(s.workers, pick)
    case Check(w) =>
      w < |s.workers| && s.workers[w].Chunk? && s.workers[w].job < |s.table| &&
      !s.workers[w].calling && s.workers[w].row < s.workers[w].end
    case Finish(w, _) =>
      w < |s.workers| && s.workers[w].Chunk? && s.workers[w].job < |s.table| && s.workers[w].calling
    case Retire(w, pick) =>
      w < |s.workers| && s.workers[w].Chunk? && s.workers[w].job < |s.table| &&
      !s.workers[w].calling && s.workers[w].row >= s.workers[w].end && MayNotify(s.workers, pick)
    case Sleep(w) => w < |s.workers| && s.workers[w].Awake? && s.jobs == [] && !s.stopping
    case Wake(w) => w < |s.workers| && s.workers[w].Asleep?
    case Exit(w) => w < |s.workers| && s.workers[w].Awake? && s.jobs == [] && s.stopping
    case Return(id) =>
      id < |s.table| && !s.table[id].released && !s.table[id].waiting && s.table[id].remaining == 0
    case Stop => !s.stopping
    case NotifyAll => s.stopping
  }

  function SubmitStep(s: Pool, count: nat, maxWorkers: nat, pick: nat): Pool
    requires Enabled(s, Submit(count, maxWorkers, pick))
  {
    var s1 := s.(table := s.table + [NewJob(count, Concurrency(count, maxWorkers, |s.workers|))]);
    Enqueue(s1, |s.table|, pick)
  }

  /** Lines 135-142 up to the second Enqueue: pop the front job and take its next chunk. */
  function Pop(s: Pool, w: nat): Pool
    requires w < |s.workers| && s.jobs != [] && s.jobs[0] < |s.table|
  {
    var id := s.jobs[0];
    var j := s.table[id];
    var end := Min(j.count, j.next + j.grain);
    Pool(s.jobs[1..],
         s.table[id := j.(queued := false, next := end, active := j.active + 1, chunks := j.chunks + 1)],
         s.workers[w := Chunk(id, j.next, end, j.next, false)],
         s.stopping)
  }

  function CheckStep(s: Pool, w: nat): Pool
    requires Enabled(s, Check(w))
  {
    var c := s.workers[w];
    var j := s.table[c.job];
    if j.cancelled then s.(workers := s.workers[w := c.(row := c.row + 1)])
    else s.(workers := s.workers[w := c.(calling := true)],
            table := s.table[c.job := j.(called := j.called + [c.row])])
  }

  function FinishStep(s: Pool, w: nat, threw: bool): Pool
    requires Enabled(s, Finish(w, threw))
  {
    var c := s.workers[w];
    var j := s.table[c.job];
    var ws := s.workers[w := c.(row := c.row + 1, calling := false)];
    if !threw then s.(workers := ws)
    else s.(workers := ws,
            table := s.table[c.job := j.(
              exception := if j.exception.None? then Some(c.row) else j.exception,
              cancelled := true,
              thrown := j.thrown + [c.row])])
  }

  /** The worker gives its chunk back; the job may thereby complete. */
  function Drop(s: Pool, w: nat): Pool
    requires w < |s.workers| && s.workers[w].Chunk? && s.workers[w].job < |s.table|
  {
    var c := s.workers[w];
    var j := s.table[c.job];
    var remaining := j.remaining - (c.end - c.begin);
    s.(workers := s.workers[w := Awake],
       table := s.table[c.job := j.(
         active := j.active - 1,
         remaining := remaining,
         waiting := j.waiting && remaining != 0)])
  }

  function RetireStep(s: Pool, w: nat, pick: nat): Pool
    requires Enabled(s, Retire(w, pick))
  {
    var id := s.workers[w].job;
    var s1 := Drop(s, w);
    if s1.table[id].remaining == 0 then s1 else Enqueue(s1, id, pick)
  }

  function WakeAll(ws: seq<Worker>): (r: seq<Worker>)
    ensures |r| == |ws|
    ensures forall i :: 0 <= i < |ws| ==> r[i] == if ws[i].Asleep? then Awake else ws[i]
  {
    seq(|ws|, i requires 0 <= i < |ws| => if ws[i].Asleep? then Awake else ws[i])
  }

  function Next(s: Pool, l: Label): Pool
    requires Enabled(s, l)
  {
    match l
    case Submit(count, maxWorkers, pick) => SubmitStep(s, count, maxWorkers, pick)
    case Claim(w, pick) => Enqueue(Pop(s, w), s.jobs[0], pick)
    case Check(w) => CheckStep(s, w)
    case Finish(w, threw) => FinishStep(s, w, threw)
    case Retire(w, pick) => RetireStep(s, w, pick)
    case Sleep(w) => s.(workers := s.workers[w := Asleep])
    case Wake(w) => s.(workers := s.workers[w := Awake])
    case Exit(w) => s.(workers := s.workers[w := Exited])
    case Return(id) => s.(table := s.table[id := s.table[id].(released := true)])
    case Stop => s.(stopping := true)
    case NotifyAll => s.(workers := WakeAll(s.workers))
  }

  // ---------------------------------------------------------------- runs

  ghost predicate IsRun(s: Pool, run: seq<Label>)
    decreases |run|
  {
    run == [] || (Enabled(s, run[0]) && IsRun(Next(s, run[0]), run[1..]))
  }

  ghost function After(s: Pool, run: seq<Label>): Pool
    requires IsRun(s, run)
    decreases |run|
  {
    if run == [] then s else After(Next(s, run[0]), run[1..])
  }

  /** The pool just after its workers were created. */
  predicate Initial(s: Pool) {
    s.jobs == [] && s.table == [] && |s.workers| > 0 && !s.stopping &&
    forall i :: 0 <= i < |s.workers| ==> s.workers[i] == Awake
  }

  // ---------------------------------------------------------------- invariant

  /** Rows of the worker's chunk that it has claimed but not yet entered or skipped. */
  predicate Ahead(w: Worker, id: JobId, r: nat) {
    w.Chunk? && w.job == id && w.row <= r < w.end && !(w.calling && r == w.row)
  }

  predicate Pending(ws: seq<Worker>, id: JobId, r: nat) {
    exists i :: 0 <= i < |ws| && Ahead(ws[i], id, r)
  }

  function Load(w: Worker, id: JobId): int {
    if w.Chunk? && w.job == id then w.end - w.begin else 0
  }

  function Busy(w: Worker, id: JobId): int {
    if w.Chunk? && w.job == id then 1 else 0
  }

  /** Rows of job `id` inside chunks that workers hold. */
  function InFlight(ws: seq<Worker>, id: JobId): int {
    if ws == [] then 0 else Load(ws[0], id) + InFlight(ws[1..], id)
  }

  /** Chunks of job `id` that workers hold. */
  function Holders(ws: seq<Worker>, id: JobId): int {
    if ws == [] then 0 else Busy(ws[0], id) + Holders(ws[1..], id)
  }

  predicate WorkerOk(w: Worker, table: seq<Job>) {
    w.Chunk? ==>
      && w.job < |table|
      && !table[w.job].released
      && w.begin < w.end <= table[w.job].next
      && w.begin <= w.row <= w.end
      && (w.calling ==> w.row < w.end && w.row in table[w.job].called && w.row !in table[w.job].thrown)
  }

  predicate Apart(a: Worker, b: Worker) {
    a.Chunk? && b.Chunk? && a.job == b.job ==> a.end <= b.begin || b.end <= a.begin
  }

  /** Counters of one job against the workers. */
  ghost predicate CountersOk(s: Pool, id: JobId)
    requires id < |s.table|
  {
    var j := s.table[id];
    && 0 < j.count && 0 < j.maxActive && j.grain == Grain(j.count, j.maxActive)
    && j.next <= j.count && j.next == Min(j.count, j.chunks * j.grain)
    && (j.chunks > 0 ==> (j.chunks - 1) * j.grain < j.count)
    && j.active == Holders(s.workers, id) && j.active <= j.maxActive
    && j.remaining == (j.count - j.next) + InFlight(s.workers, id)
    && (j.waiting <==> j.remaining > 0)
    && (j.released ==> j.remaining == 0)
    && (j.queued <==> id in s.jobs)
    && (j.queued ==> !Saturated(j))
  }

  /** History of one job against the workers. */
  ghost predicate HistoryOk(s: Pool, id: JobId)
    requires id < |s.table|
  {
    var j := s.table[id];
    && Distinct(j.called)
    && (forall r :: r in j.called ==> r < j.next && !Pending(s.workers, id, r))
    && (!j.cancelled ==> forall r: nat :: r < j.next && !Pending(s.workers, id, r) ==> r in j.called)
    && Distinct(j.thrown)
    && (forall r :: r in j.thrown ==> r in j.called)
    && (j.cancelled <==> j.thrown != [])
    && j.exception == (if j.thrown == [] then None else Some(j.thrown[0]))
  }

  ghost predicate Core(s: Pool) {
    && |s.workers| > 0
    && Distinct(s.jobs)
    && (forall i :: 0 <= i < |s.jobs| ==> s.jobs[i] < |s.table|)
    && (forall i :: 0 <= i < |s.workers| ==> WorkerOk(s.workers[i], s.table))
    && (forall i, k :: 0 <= i < k < |s.workers| ==> Apart(s.workers[i], s.workers[k]))
    && (forall i :: 0 <= i < |s.workers| && s.workers[i].Exited? ==> s.stopping)
    && (forall id :: 0 <= id < |s.table| ==> CountersOk(s, id) && HistoryOk(s, id))
  }

  predicate Alive(w: Worker) {
    !w.Asleep? && !w.Exited?
  }

  /** Work in the deque implies a worker that has not left its loop. */
  predicate Attended(s: Pool) {
    s.jobs != [] ==> exists i :: 0 <= i < |s.workers| && Alive(s.workers[i])
  }

  /** Workers about to look at the deque. */
  function Looking(ws: seq<Worker>): nat {
    if ws == [] then 0 else (if ws[0].Awake? then 1 else 0) + Looking(ws[1..])
  }

  /** No wake-up is lost: while a worker sleeps, as many workers are about to look at the
      deque as it has entries. */
  predicate NoneOverlooked(s: Pool) {
    SomeAsleep(s.workers) ==> |s.jobs| <= Looking(s.workers)
  }

  /** What every step keeps of jobs and counters. */
  ghost predicate Sound(s: Pool) {
    && Core(s)
    && (forall id :: 0 <= id < |s.table| ==> s.table[id].queued || Saturated(s.table[id]))
    && Attended(s)
  }

  ghost predicate Inv(s: Pool) {
    Sound(s) && NoneOverlooked(s)
  }
}
