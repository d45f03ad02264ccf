/** The invariant of the pool is inductive: it holds when the pool is created and every
    critical section and every unlocked worker action keeps it. */
module PoolSafety {
  import opened Common
  import opened PoolMachine

  // ---------------------------------------------------------------- sums over workers

  lemma {:induction false} InFlightUpdate(ws: seq<Worker>, i: nat, w: Worker, id: JobId)
    requires i < |ws|
    ensures InFlight(ws[i := w], id) == InFlight(ws, id) - Load(ws[i], id) + Load(w, id)
  {
    if i == 0 {
      assert ws[0 := w][1..] == ws[1..];
    } else {
      assert ws[i := w][1..] == ws[1..][i - 1 := w];
      InFlightUpdate(ws[1..], i - 1, w, id);
    }
  }

  lemma {:induction false} HoldersUpdate(ws: seq<Worker>, i: nat, w: Worker, id: JobId)
    requires i < |ws|
    ensures Holders(ws[i := w], id) == Holders(ws, id) - Busy(ws[i], id) + Busy(w, id)
  {
    if i == 0 {
      assert ws[0 := w][1..] == ws[1..];
    } else {
      assert ws[i := w][1..] == ws[1..][i - 1 := w];
      HoldersUpdate(ws[1..], i - 1, w, id);
    }
  }

  /** Chunks are non-empty, so rows in flight dominate chunks held, and both are zero
      exactly when nobody holds the job. */
  lemma {:induction false} InFlightBounds(ws: seq<Worker>, id: JobId)
    requires forall i :: 0 <= i < |ws| && ws[i].Chunk? ==> ws[i].begin < ws[i].end
    ensures 0 <= Holders(ws, id) <= InFlight(ws, id)
    ensures Holders(ws, id) == 0 ==> InFlight(ws, id) == 0
    ensures forall i :: 0 <= i < |ws| && ws[i].Chunk? && ws[i].job == id ==> Holders(ws, id) > 0
  {
    if ws != [] {
      InFlightBounds(ws[1..], id);
      forall i | 0 <= i < |ws| && ws[i].Chunk? && ws[i].job == id ensures Holders(ws, id) > 0 {
        if i > 0 {
          assert ws[1..][i - 1] == ws[i];
        }
      }
    }
  }

  lemma {:induction false} NoHolder(ws: seq<Worker>, id: JobId)
    requires forall i :: 0 <= i < |ws| ==> !(ws[i].Chunk? && ws[i].job == id)
    ensures Holders(ws, id) == 0 && InFlight(ws, id) == 0
  {
    if ws != [] {
      NoHolder(ws[1..], id);
    }
  }

  lemma {:induction false} SomeHolder(ws: seq<Worker>, id: JobId) returns (i: nat)
    requires Holders(ws, id) > 0
    ensures i < |ws| && ws[i].Chunk? && ws[i].job == id
  {
    if ws[0].Chunk? && ws[0].job == id {
      i := 0;
    } else {
      var k := SomeHolder(ws[1..], id);
      i := k + 1;
    }
  }

  /** Replacing a worker that holds no chunk by another that holds none changes no sum. */
  lemma IdleSwap(ws: seq<Worker>, i: nat, w: Worker, id: JobId)
    requires i < |ws| && !ws[i].Chunk? && !w.Chunk?
    ensures InFlight(ws[i := w], id) == InFlight(ws, id)
    ensures Holders(ws[i := w], id) == Holders(ws, id)
    ensures forall r: nat :: Pending(ws[i := w], id, r) <==> Pending(ws, id, r)
  {
    InFlightUpdate(ws, i, w, id);
    HoldersUpdate(ws, i, w, id);
    forall r: nat ensures Pending(ws[i := w], id, r) <==> Pending(ws, id, r) {
      PendingUpdate(ws, i, w, id, r);
    }
  }

  lemma PendingUpdate(ws: seq<Worker>, i: nat, w: Worker, id: JobId, r: nat)
    requires i < |ws|
    ensures Pending(ws[i := w], id, r) <==>
            (Ahead(w, id, r) || exists k :: 0 <= k < |ws| && k != i && Ahead(ws[k], id, r))
  {
    var vs := ws[i := w];
    if Ahead(w, id, r) {
      assert Ahead(vs[i], id, r);
    }
    if k :| 0 <= k < |ws| && k != i && Ahead(ws[k], id, r) {
      assert Ahead(vs[k], id, r);
    }
    if Pending(vs, id, r) {
      var k :| 0 <= k < |vs| && Ahead(vs[k], id, r);
      assert k == i || Ahead(ws[k], id, r);
    }
  }

  /** A step that only moves idle workers between Asleep, Awake and Exited. */
  lemma IdleStepKeepsCore(s: Pool, i: nat, w: Worker)
    requires Core(s) && i < |s.workers| && !s.workers[i].Chunk? && !w.Chunk?
    requires w.Exited? ==> s.stopping
    ensures Core(s.(workers := s.workers[i := w]))
  {
    hide CountersOk, HistoryOk, Pending;
    var t := s.(workers := s.workers[i := w]);
    forall id | 0 <= id < |t.table| ensures CountersOk(t, id) && HistoryOk(t, id) {
      IdleSwap(s.workers, i, w, id);
      CountersCarry(s, t, id);
      HistoryCarry(s, t, id);
    }
  }

  // ---------------------------------------------------------------- jobs a step does not touch

  /** A job keeps its counters when its record, its holders and its place in the deque stay. */
  lemma CountersCarry(s: Pool, t: Pool, id: JobId)
    requires id < |s.table| && id < |t.table| && CountersOk(s, id) && t.table[id] == s.table[id]
    requires InFlight(t.workers, id) == InFlight(s.workers, id) && Holders(t.workers, id) == Holders(s.workers, id)
    requires id in t.jobs <==> id in s.jobs
    ensures CountersOk(t, id)
  {
  }

  /** A job keeps its history when its record and its pending rows stay. */
  lemma HistoryCarry(s: Pool, t: Pool, id: JobId)
    requires id < |s.table| && id < |t.table| && HistoryOk(s, id)
    requires t.table[id].next == s.table[id].next && t.table[id].called == s.table[id].called
    requires t.table[id].cancelled == s.table[id].cancelled && t.table[id].thrown == s.table[id].thrown
    requires t.table[id].exception == s.table[id].exception
    requires forall r: nat :: Pending(t.workers, id, r) <==> Pending(s.workers, id, r)
    ensures HistoryOk(t, id)
  {
  }

  // ---------------------------------------------------------------- Enqueue

  ghost function Queue(s: Pool, id: JobId): Pool
    requires id < |s.table|
  {
    s.(table := s.table[id := s.table[id].(queued := true)], jobs := s.jobs + [id])
  }

  lemma QueueKeepsCore(s: Pool, id: JobId)
    requires Core(s) && id < |s.table| && !s.table[id].queued && !Saturated(s.table[id])
    ensures Core(Queue(s, id))
  {
    hide CountersOk, HistoryOk, Pending;
    var t := Queue(s, id);
    forall k | 0 <= k < |t.table| ensures CountersOk(t, k) && HistoryOk(t, k) {
      if k == id {
        QueuedCounters(s, id);
      } else {
        CountersCarry(s, t, k);
      }
      HistoryCarry(s, t, k);
    }
    forall i | 0 <= i < |t.workers| ensures WorkerOk(t.workers[i], t.table) {
      assert WorkerOk(s.workers[i], s.table);
    }
    NotQueuedYet(s, id);
  }

  lemma NotQueuedYet(s: Pool, id: JobId)
    requires Core(s) && id < |s.table| && !s.table[id].queued
    ensures id !in s.jobs
  {
    hide HistoryOk;
    assert CountersOk(s, id);
  }

  lemma QueuedCounters(s: Pool, id: JobId)
    requires Core(s) && id < |s.table| && !s.table[id].queued && !Saturated(s.table[id])
    ensures CountersOk(Queue(s, id), id)
  {
    hide HistoryOk;
    assert CountersOk(s, id);
  }

  lemma {:induction false} LookingUpdate(ws: seq<Worker>, i: nat, w: Worker)
    requires i < |ws|
    ensures Looking(ws[i := w]) == Looking(ws) - (if ws[i].Awake? then 1 else 0) + (if w.Awake? then 1 else 0)
  {
    if i == 0 {
      assert ws[0 := w][1..] == ws[1..];
    } else {
      assert ws[i := w][1..] == ws[1..][i - 1 := w];
      LookingUpdate(ws[1..], i - 1, w);
    }
  }

  /** A new entry of the deque comes with a worker woken for it. */
  lemma EnqueueWatches(s: Pool, id: JobId, pick: nat)
    requires id < |s.table| && MayNotify(s.workers, pick) && NoneOverlooked(s)
    ensures NoneOverlooked(Enqueue(s, id, pick))
  {
    if SomeAsleep(s.workers) {
      LookingUpdate(s.workers, pick, Awake);
    }
  }

  /** A worker that stops looking took an entry with it or found none. */
  lemma WorkerWatches(s: Pool, t: Pool, w: nat)
    requires NoneOverlooked(s) && w < |s.workers| == |t.workers| && t.workers == s.workers[w := t.workers[w]]
    requires t.workers[w].Asleep? ==> s.workers[w].Asleep? || t.jobs == []
    requires |t.jobs| + (if s.workers[w].Awake? then 1 else 0) <= |s.jobs| + (if t.workers[w].Awake? then 1 else 0)
        || t.jobs == []
    ensures NoneOverlooked(t)
  {
    LookingUpdate(s.workers, w, t.workers[w]);
    if i :| 0 <= i < |t.workers| && t.workers[i].Asleep? && t.jobs != [] {
      assert s.workers[i].Asleep?;
    }
  }

  /** Enqueue restores what the surrounding critical section left open for job `id`. */
  lemma EnqueueKeeps(s: Pool, id: JobId, pick: nat)
    requires Core(s) && id < |s.table| && MayNotify(s.workers, pick)
    requires SomeAsleep(s.workers) || exists i :: 0 <= i < |s.workers| && Alive(s.workers[i])
    requires forall k :: 0 <= k < |s.table| && k != id ==> s.table[k].queued || Saturated(s.table[k])
    requires Attended(s) || !(s.table[id].queued || Saturated(s.table[id]))
    ensures Sound(Enqueue(s, id, pick))
    ensures NoneOverlooked(s) ==> NoneOverlooked(Enqueue(s, id, pick))
  {
    if NoneOverlooked(s) {
      EnqueueWatches(s, id, pick);
    }
    if !s.table[id].queued && !Saturated(s.table[id]) {
      QueueKeepsCore(s, id);
      if SomeAsleep(s.workers) {
        IdleStepKeepsCore(Queue(s, id), pick, Awake);
        assert Alive(s.workers[pick := Awake][pick]);
      } else {
        assert Notify(s.workers, pick) == s.workers;
      }
    }
  }

  lemma IdleWorkersAlive(s: Pool)
    requires Core(s) && !s.stopping
    ensures SomeAsleep(s.workers) || exists i :: 0 <= i < |s.workers| && Alive(s.workers[i])
  {
    assert s.workers[0].Asleep? || Alive(s.workers[0]);
  }

  /** `remaining` never underflows: it is a sum of unclaimed rows and rows in flight. */
  lemma LoadsNonNegative(s: Pool, id: JobId)
    requires Core(s) && id < |s.table|
    ensures 0 <= Holders(s.workers, id) <= InFlight(s.workers, id)
    ensures 0 <= s.table[id].count - s.table[id].next <= s.table[id].remaining
    ensures forall i :: 0 <= i < |s.workers| && s.workers[i].Chunk? && s.workers[i].job == id
                    ==> Holders(s.workers, id) > 0
  {
    forall i | 0 <= i < |s.workers| && s.workers[i].Chunk? ensures s.workers[i].begin < s.workers[i].end {
      assert WorkerOk(s.workers[i], s.table);
    }
    InFlightBounds(s.workers, id);
    assert CountersOk(s, id);
  }

  // ---------------------------------------------------------------- the steps

  lemma CeilDivCovers(n: nat, d: nat)
    requires d > 0
    ensures n <= CeilDiv(n, d) * d
  {
    var q := CeilDiv(n, d);
    assert (n + d - 1) == q * d + (n + d - 1) % d;
  }

  lemma SubmitKeeps(s: Pool, count: nat, maxWorkers: nat, pick: nat)
    requires Sound(s) && Enabled(s, Submit(count, maxWorkers, pick))
    ensures Sound(SubmitStep(s, count, maxWorkers, pick))
  {
    hide CountersOk, HistoryOk, Pending;
    var j := NewJob(count, Concurrency(count, maxWorkers, |s.workers|));
    var t := s.(table := s.table + [j]);
    var id := |s.table|;
    forall i | 0 <= i < |s.workers| ensures WorkerOk(t.workers[i], t.table) {
      assert WorkerOk(s.workers[i], s.table);
    }
    SubmittedOk(s, j);
    forall k | 0 <= k < |t.table| ensures CountersOk(t, k) && HistoryOk(t, k) {
      if k < id {
        CountersCarry(s, t, k);
        HistoryCarry(s, t, k);
      }
    }
    IdleWorkersAlive(s);
    EnqueueKeeps(t, id, pick);
  }

  lemma SubmittedOk(s: Pool, j: Job)
    requires Core(s) && j.count > 0 && j.maxActive > 0 && j == NewJob(j.count, j.maxActive)
    ensures var t := s.(table := s.table + [j]); CountersOk(t, |s.table|) && HistoryOk(t, |s.table|)
  {
    hide Grain, HistoryOk;
    NoHolder(s.workers, |s.table|);
    assert 0 * j.grain == 0;
    FreshHistory(s.(table := s.table + [j]), |s.table|);
  }

  lemma FreshHistory(t: Pool, id: JobId)
    requires id < |t.table| && t.table[id].next == 0 && t.table[id].called == [] && t.table[id].thrown == []
    requires !t.table[id].cancelled && t.table[id].exception.None?
    ensures HistoryOk(t, id)
  {
  }

  lemma PopKeepsCounters(s: Pool, w: nat, k: JobId)
    requires Sound(s) && w < |s.workers| && s.workers[w].Awake? && s.jobs != [] && k < |s.table|
    requires s.jobs[0] < |s.table|
    ensures CountersOk(Pop(s, w), k)
  {
    hide HistoryOk, CountersOk, Grain, Saturated;
    var t := Pop(s, w);
    InFlightUpdate(s.workers, w, t.workers[w], k);
    HoldersUpdate(s.workers, w, t.workers[w], k);
    FrontLeaves(s.jobs, k);
    if k == s.jobs[0] {
      PoppedCounters(s, t, k);
    } else {
      CountersCarry(s, t, k);
    }
  }

  lemma FrontLeaves(jobs: seq<JobId>, k: JobId)
    requires jobs != [] && Distinct(jobs)
    ensures k in jobs[1..] <==> k in jobs && k != jobs[0]
  {
    assert jobs == [jobs[0]] + jobs[1..];
  }

  /** The popped job: one chunk more claimed and held. */
  lemma PoppedCounters(s: Pool, t: Pool, id: JobId)
    requires id < |s.table| && id < |t.table| && CountersOk(s, id) && id in s.jobs && id !in t.jobs
    requires var j := s.table[id];
      && t.table[id] == j.(queued := false, next := Min(j.count, j.next + j.grain), active := j.active + 1,
                           chunks := j.chunks + 1)
      && Holders(t.workers, id) == Holders(s.workers, id) + 1
      && InFlight(t.workers, id) == InFlight(s.workers, id) + (t.table[id].next - j.next)
    ensures CountersOk(t, id)
  {
    var j := s.table[id];
    NextChunk(j.count, j.grain, j.chunks);
  }

  lemma NextChunk(count: nat, grain: nat, chunks: nat)
    requires chunks * grain < count
    ensures Min(count, chunks * grain + grain) == Min(count, (chunks + 1) * grain)
  {
    assert (chunks + 1) * grain == chunks * grain + grain;
  }

  lemma PopKeepsWorkers(s: Pool, w: nat)
    requires Sound(s) && w < |s.workers| && s.workers[w].Awake? && s.jobs != []
    requires s.jobs[0] < |s.table|
    ensures var t := Pop(s, w);
      && (forall i :: 0 <= i < |t.workers| ==> WorkerOk(t.workers[i], t.table))
      && (forall i, k :: 0 <= i < k < |t.workers| ==> Apart(t.workers[i], t.workers[k]))
  {
    var id := s.jobs[0];
    var t := Pop(s, w);
    assert CountersOk(s, id);
    LoadsNonNegative(s, id);
    forall i | 0 <= i < |t.workers| ensures WorkerOk(t.workers[i], t.table) {
      assert WorkerOk(s.workers[i], s.table);
    }
    forall i, k | 0 <= i < k < |t.workers| ensures Apart(t.workers[i], t.workers[k]) {
      assert WorkerOk(s.workers[i], s.table) && WorkerOk(s.workers[k], s.table);
      assert Apart(s.workers[i], s.workers[k]);
    }
  }

  lemma PopKeepsCore(s: Pool, w: nat)
    requires Sound(s) && w < |s.workers| && s.workers[w].Awake? && s.jobs != []
    ensures s.jobs[0] < |s.table|
    ensures Core(Pop(s, w))
  {
    PopKeepsWorkers(s, w);
    forall k | 0 <= k < |s.table| ensures CountersOk(Pop(s, w), k) && HistoryOk(Pop(s, w), k) {
      PopKeepsCounters(s, w, k);
      PopKeepsHistory(s, w, k);
    }
  }

  lemma PopKeepsHistory(s: Pool, w: nat, k: JobId)
    requires Sound(s) && w < |s.workers| && s.workers[w].Awake? && s.jobs != [] && k < |s.table|
    requires s.jobs[0] < |s.table|
    ensures HistoryOk(Pop(s, w), k)
  {
    hide CountersOk, HistoryOk, Pending;
    var t := Pop(s, w);
    NextInside(s, k);
    forall r: nat
      ensures Pending(t.workers, k, r) <==> Pending(s.workers, k, r) || s.table[k].next <= r < t.table[k].next
    {
      PendingUpdate(s.workers, w, t.workers[w], k, r);
      PendingUpdate(s.workers, w, s.workers[w], k, r);
      assert s.workers[w := s.workers[w]] == s.workers;
    }
    PoppedHistory(s, t, k);
  }

  lemma NextInside(s: Pool, k: JobId)
    requires Core(s) && k < |s.table|
    ensures s.table[k].next <= s.table[k].count && s.table[k].grain >= 0
  {
    hide HistoryOk;
    assert CountersOk(s, k);
  }

  /** Newly claimed rows are all pending. */
  lemma PoppedHistory(s: Pool, t: Pool, k: JobId)
    requires k < |s.table| && k < |t.table| && HistoryOk(s, k) && s.table[k].next <= t.table[k].next
    requires t.table[k].called == s.table[k].called && t.table[k].cancelled == s.table[k].cancelled
    requires t.table[k].thrown == s.table[k].thrown && t.table[k].exception == s.table[k].exception
    requires forall r: nat :: Pending(t.workers, k, r) <==>
      Pending(s.workers, k, r) || s.table[k].next <= r < t.table[k].next
    ensures HistoryOk(t, k)
  {
    hide Pending;
  }

  lemma ClaimKeeps(s: Pool, w: nat, pick: nat)
    requires Sound(s) && Enabled(s, Claim(w, pick))
    ensures Sound(Next(s, Claim(w, pick)))
  {
    PopKeepsCore(s, w);
    var t := Pop(s, w);
    assert Alive(t.workers[w]);
    assert SomeAsleep(t.workers) ==> SomeAsleep(s.workers);
    EnqueueKeeps(t, s.jobs[0], pick);
  }

  /** A step of a worker inside its chunk: begin, end and job stay, so every counter does. */
  lemma ChunkStepKeepsCounters(s: Pool, t: Pool, w: nat, k: JobId)
    requires Core(s) && w < |s.workers| && s.workers[w].Chunk? && k < |s.table|
    requires t.jobs == s.jobs && |t.table| == |s.table| && |t.workers| == |s.workers|
    requires t.workers == s.workers[w := t.workers[w]] && t.workers[w].Chunk?
    requires t.workers[w].job == s.workers[w].job
    requires t.workers[w].begin == s.workers[w].begin && t.workers[w].end == s.workers[w].end
    requires t.table[k].(cancelled := s.table[k].cancelled, exception := s.table[k].exception,
                         called := s.table[k].called, thrown := s.table[k].thrown) == s.table[k]
    ensures CountersOk(t, k)
  {
    assert CountersOk(s, k);
    InFlightUpdate(s.workers, w, t.workers[w], k);
    HoldersUpdate(s.workers, w, t.workers[w], k);
  }

  /** Rows of different chunks of one job differ. */
  lemma OwnRow(s: Pool, w: nat, i: nat)
    requires Core(s) && w < |s.workers| && i < |s.workers| && i != w
    requires s.workers[w].Chunk? && s.workers[w].row < s.workers[w].end
    ensures !Ahead(s.workers[i], s.workers[w].job, s.workers[w].row)
    ensures s.workers[i].Chunk? && s.workers[i].job == s.workers[w].job && s.workers[i].calling
            ==> s.workers[i].row != s.workers[w].row
  {
    assert WorkerOk(s.workers[w], s.table) && WorkerOk(s.workers[i], s.table);
    if i < w {
      assert Apart(s.workers[i], s.workers[w]);
    } else {
      assert Apart(s.workers[w], s.workers[i]);
    }
  }

  lemma CheckKeepsHistory(s: Pool, w: nat, k: JobId)
    requires Core(s) && Enabled(s, Check(w)) && k < |s.table|
    ensures HistoryOk(CheckStep(s, w), k)
  {
    hide CountersOk, HistoryOk, Pending;
    var t := CheckStep(s, w);
    var c := s.workers[w];
    assert HistoryOk(s, k) && WorkerOk(c, s.table);
    forall r: nat
      ensures Pending(t.workers, k, r) <==> Pending(s.workers, k, r) && !(k == c.job && r == c.row)
    {
      CheckedRow(s, w, k, r);
    }
    if k != c.job {
      HistoryCarry(s, t, k);
    } else {
      OwnRowIsPending(s, w);
      if s.table[k].cancelled {
        SkippedHistory(s, t, k);
      } else {
        EnteredHistory(s, t, k, c.row);
      }
    }
  }

  /** A check takes one row off the pending ones. */
  lemma CheckedRow(s: Pool, w: nat, k: JobId, r: nat)
    requires Core(s) && Enabled(s, Check(w))
    ensures var c := s.workers[w];
      Pending(CheckStep(s, w).workers, k, r) <==> Pending(s.workers, k, r) && !(k == c.job && r == c.row)
  {
    hide CountersOk, HistoryOk;
    var c := s.workers[w];
    PendingUpdate(s.workers, w, CheckStep(s, w).workers[w], k, r);
    PendingUpdate(s.workers, w, c, k, r);
    assert s.workers[w := c] == s.workers;
    forall i | 0 <= i < |s.workers| && i != w ensures k == c.job && r == c.row ==> !Ahead(s.workers[i], k, r) {
      OwnRow(s, w, i);
    }
  }

  lemma OwnRowIsPending(s: Pool, w: nat)
    requires Core(s) && Enabled(s, Check(w))
    ensures Pending(s.workers, s.workers[w].job, s.workers[w].row) && s.workers[w].row < s.table[s.workers[w].job].next
  {
    hide CountersOk, HistoryOk;
    assert WorkerOk(s.workers[w], s.table);
    assert Ahead(s.workers[w], s.workers[w].job, s.workers[w].row);
  }

  /** A cancelled job only skips rows. */
  lemma SkippedHistory(s: Pool, t: Pool, k: JobId)
    requires k < |s.table| && k < |t.table| && HistoryOk(s, k) && t.table[k] == s.table[k] && s.table[k].cancelled
    requires forall r: nat :: Pending(t.workers, k, r) ==> Pending(s.workers, k, r)
    ensures HistoryOk(t, k)
  {
    hide Pending;
  }

  lemma EnteredHistory(s: Pool, t: Pool, k: JobId, row: nat)
    requires k < |s.table| && k < |t.table| && HistoryOk(s, k) && Pending(s.workers, k, row) && row < s.table[k].next
    requires t.table[k] == s.table[k].(called := s.table[k].called + [row])
    requires forall r: nat :: Pending(t.workers, k, r) <==> Pending(s.workers, k, r) && r != row
    ensures HistoryOk(t, k)
  {
    hide Pending;
    assert row !in s.table[k].called;
    forall r: nat | r in s.table[k].called ensures r in t.table[k].called {
    }
  }

  lemma CheckKeepsWorkers(s: Pool, w: nat)
    requires Core(s) && Enabled(s, Check(w))
    ensures var t := CheckStep(s, w); forall i :: 0 <= i < |t.workers| ==> WorkerOk(t.workers[i], t.table)
  {
    hide CountersOk;
    var t := CheckStep(s, w);
    var c := s.workers[w];
    assert WorkerOk(c, s.table) && HistoryOk(s, c.job);
    assert Pending(s.workers, c.job, c.row) by {
      assert Ahead(s.workers[w], c.job, c.row);
    }
    forall i | 0 <= i < |t.workers| ensures WorkerOk(t.workers[i], t.table) {
      assert WorkerOk(s.workers[i], s.table);
    }
  }

  lemma CheckKeeps(s: Pool, w: nat)
    requires Sound(s) && Enabled(s, Check(w))
    ensures Sound(CheckStep(s, w))
  {
    hide CountersOk, HistoryOk;
    var t := CheckStep(s, w);
    forall k | 0 <= k < |t.table| ensures CountersOk(t, k) && HistoryOk(t, k) {
      ChunkStepKeepsCounters(s, t, w, k);
      CheckKeepsHistory(s, w, k);
    }
    CheckKeepsWorkers(s, w);
    ChunkStepKeepsApart(s, t.workers, w);
    assert Alive(t.workers[w]);
  }

  lemma ChunkStepKeepsApart(s: Pool, ws: seq<Worker>, w: nat)
    requires Core(s) && w < |s.workers| && s.workers[w].Chunk? && |ws| == |s.workers|
    requires ws == s.workers[w := ws[w]] && ws[w].Chunk? && ws[w].job == s.workers[w].job
    requires ws[w].begin == s.workers[w].begin && ws[w].end == s.workers[w].end
    ensures forall i, k :: 0 <= i < k < |ws| ==> Apart(ws[i], ws[k])
  {
    forall i, k | 0 <= i < k < |ws| ensures Apart(ws[i], ws[k]) {
      assert Apart(s.workers[i], s.workers[k]);
    }
  }

  lemma FinishKeepsHistory(s: Pool, w: nat, threw: bool, k: JobId)
    requires Core(s) && Enabled(s, Finish(w, threw)) && k < |s.table|
    ensures HistoryOk(FinishStep(s, w, threw), k)
  {
    hide CountersOk, HistoryOk, Pending;
    var t := FinishStep(s, w, threw);
    var c := s.workers[w];
    assert HistoryOk(s, k) && WorkerOk(c, s.table);
    forall r: nat ensures Pending(t.workers, k, r) <==> Pending(s.workers, k, r) {
      PendingUpdate(s.workers, w, t.workers[w], k, r);
      PendingUpdate(s.workers, w, c, k, r);
      assert s.workers[w := c] == s.workers;
    }
    if k == c.job && threw {
      ThrownHistory(s, t, k, c.row);
    } else {
      HistoryCarry(s, t, k);
    }
  }

  lemma ThrownHistory(s: Pool, t: Pool, k: JobId, row: nat)
    requires k < |s.table| && k < |t.table| && HistoryOk(s, k)
    requires row in s.table[k].called && row !in s.table[k].thrown
    requires var j := s.table[k];
      t.table[k] == j.(exception := if j.exception.None? then Some(row) else j.exception, cancelled := true,
                       thrown := j.thrown + [row])
    requires forall r: nat :: Pending(t.workers, k, r) <==> Pending(s.workers, k, r)
    ensures HistoryOk(t, k)
  {
    hide Pending;
  }

  lemma FinishKeeps(s: Pool, w: nat, threw: bool)
    requires Sound(s) && Enabled(s, Finish(w, threw))
    ensures Sound(FinishStep(s, w, threw))
  {
    hide CountersOk, HistoryOk;
    var t := FinishStep(s, w, threw);
    var c := s.workers[w];
    assert WorkerOk(c, s.table);
    forall k | 0 <= k < |t.table| ensures CountersOk(t, k) && HistoryOk(t, k) {
      ChunkStepKeepsCounters(s, t, w, k);
      FinishKeepsHistory(s, w, threw, k);
    }
    forall i | 0 <= i < |t.workers| ensures WorkerOk(t.workers[i], t.table) {
      assert WorkerOk(s.workers[i], s.table);
      if i != w {
        OwnRow(s, w, i);
      }
    }
    ChunkStepKeepsApart(s, t.workers, w);
    assert Alive(t.workers[w]);
  }

  lemma DropKeepsCounters(s: Pool, w: nat, k: JobId)
    requires Core(s) && w < |s.workers| && s.workers[w].Chunk? && k < |s.table|
    requires s.workers[w].job < |s.table|
    ensures CountersOk(Drop(s, w), k)
  {
    hide HistoryOk;
    var t := Drop(s, w);
    assert CountersOk(s, k) && WorkerOk(s.workers[w], s.table);
    LoadsNonNegative(s, k);
    InFlightUpdate(s.workers, w, Awake, k);
    HoldersUpdate(s.workers, w, Awake, k);
    forall i | 0 <= i < |t.workers| && t.workers[i].Chunk? ensures t.workers[i].begin < t.workers[i].end {
      assert WorkerOk(s.workers[i], s.table);
    }
    InFlightBounds(t.workers, k);
  }

  lemma DropKeepsHistory(s: Pool, w: nat, k: JobId)
    requires Core(s) && w < |s.workers| && s.workers[w].Chunk? && k < |s.table|
    requires s.workers[w].job < |s.table|
    requires !s.workers[w].calling && s.workers[w].row >= s.workers[w].end
    ensures HistoryOk(Drop(s, w), k)
  {
    hide CountersOk;
    var t := Drop(s, w);
    assert HistoryOk(s, k);
    forall r: nat ensures Pending(t.workers, k, r) <==> Pending(s.workers, k, r) {
      PendingUpdate(s.workers, w, Awake, k, r);
      PendingUpdate(s.workers, w, s.workers[w], k, r);
      assert s.workers[w := s.workers[w]] == s.workers;
    }
  }

  lemma DropKeepsCore(s: Pool, w: nat)
    requires Core(s) && w < |s.workers| && s.workers[w].Chunk? && s.workers[w].job < |s.table|
    requires !s.workers[w].calling && s.workers[w].row >= s.workers[w].end
    ensures Core(Drop(s, w))
  {
    hide CountersOk, HistoryOk;
    var t := Drop(s, w);
    forall k | 0 <= k < |t.table| ensures CountersOk(t, k) && HistoryOk(t, k) {
      DropKeepsCounters(s, w, k);
      DropKeepsHistory(s, w, k);
    }
    forall i | 0 <= i < |t.workers| ensures WorkerOk(t.workers[i], t.table) {
      assert WorkerOk(s.workers[i], s.table);
    }
    forall i, k | 0 <= i < k < |t.workers| ensures Apart(t.workers[i], t.workers[k]) {
      assert Apart(s.workers[i], s.workers[k]);
    }
  }

  lemma RetireKeeps(s: Pool, w: nat, pick: nat)
    requires Sound(s) && Enabled(s, Retire(w, pick))
    ensures Sound(RetireStep(s, w, pick))
  {
    hide HistoryOk;
    var t := Drop(s, w);
    var id := s.workers[w].job;
    DropKeepsCore(s, w);
    assert Alive(t.workers[w]);
    if t.table[id].remaining == 0 {
      LoadsNonNegative(t, id);
    } else {
      assert SomeAsleep(t.workers) ==> SomeAsleep(s.workers);
      EnqueueKeeps(t, id, pick);
    }
  }

  lemma IdleStepKeeps(s: Pool, i: nat, w: Worker)
    requires Sound(s) && i < |s.workers| && !s.workers[i].Chunk? && !w.Chunk?
    requires w.Exited? ==> s.stopping
    requires Alive(w) || s.jobs == []
    ensures Sound(s.(workers := s.workers[i := w]))
  {
    IdleStepKeepsCore(s, i, w);
    if Alive(w) {
      assert Alive(s.workers[i := w][i]);
    }
  }

  lemma {:induction false} WakeAllKeepsSums(ws: seq<Worker>, id: JobId)
    ensures InFlight(WakeAll(ws), id) == InFlight(ws, id)
    ensures Holders(WakeAll(ws), id) == Holders(ws, id)
  {
    if ws != [] {
      assert WakeAll(ws)[1..] == WakeAll(ws[1..]);
      WakeAllKeepsSums(ws[1..], id);
    }
  }

  lemma WakeAllKeepsPending(ws: seq<Worker>, id: JobId, r: nat)
    ensures Pending(WakeAll(ws), id, r) <==> Pending(ws, id, r)
  {
    if i :| 0 <= i < |ws| && Ahead(ws[i], id, r) {
      assert Ahead(WakeAll(ws)[i], id, r);
    }
    if i :| 0 <= i < |ws| && Ahead(WakeAll(ws)[i], id, r) {
      assert Ahead(ws[i], id, r);
    }
  }

  lemma NotifyAllKeeps(s: Pool)
    requires Sound(s)
    ensures Sound(s.(workers := WakeAll(s.workers)))
  {
    hide CountersOk, HistoryOk, Pending, Ahead;
    var t := s.(workers := WakeAll(s.workers));
    forall k | 0 <= k < |t.table| ensures CountersOk(t, k) && HistoryOk(t, k) {
      WakeAllKeepsSums(s.workers, k);
      forall r: nat ensures Pending(t.workers, k, r) <==> Pending(s.workers, k, r) {
        WakeAllKeepsPending(s.workers, k, r);
      }
      CountersCarry(s, t, k);
      HistoryCarry(s, t, k);
    }
    forall i | 0 <= i < |t.workers| ensures WorkerOk(t.workers[i], t.table) {
      assert WorkerOk(s.workers[i], s.table);
    }
    forall i, k | 0 <= i < k < |t.workers| ensures Apart(t.workers[i], t.workers[k]) {
      assert Apart(s.workers[i], s.workers[k]);
    }
    if i :| 0 <= i < |s.workers| && Alive(s.workers[i]) {
      assert Alive(t.workers[i]);
    }
  }

  /** A client leaves only when no worker holds its job and the deque does not name it. */
  lemma ReturnKeeps(s: Pool, id: JobId)
    requires Sound(s) && Enabled(s, Return(id))
    ensures Sound(Next(s, Return(id)))
    ensures id !in s.jobs
    ensures forall i :: 0 <= i < |s.workers| && s.workers[i].Chunk? ==> s.workers[i].job != id
  {
    hide CountersOk, HistoryOk, Pending;
    var t := Next(s, Return(id));
    LoadsNonNegative(s, id);
    ReturnedCounters(s, id);
    forall k | 0 <= k < |t.table| ensures CountersOk(t, k) && HistoryOk(t, k) {
      if k != id {
        CountersCarry(s, t, k);
      }
      HistoryCarry(s, t, k);
    }
    forall i | 0 <= i < |t.workers| ensures WorkerOk(t.workers[i], t.table) {
      assert WorkerOk(s.workers[i], s.table);
    }
  }

  lemma ReturnedCounters(s: Pool, id: JobId)
    requires Core(s) && Enabled(s, Return(id))
    ensures CountersOk(Next(s, Return(id)), id) && id !in s.jobs && Holders(s.workers, id) == 0
  {
    hide HistoryOk;
    LoadsNonNegative(s, id);
    assert CountersOk(s, id);
  }

  lemma StopKeeps(s: Pool)
    requires Sound(s)
    ensures Sound(s.(stopping := true))
  {
    hide CountersOk, HistoryOk, Pending;
    var t := s.(stopping := true);
    forall k | 0 <= k < |t.table| ensures CountersOk(t, k) && HistoryOk(t, k) {
      CountersCarry(s, t, k);
      HistoryCarry(s, t, k);
    }
  }

  /** Every step keeps every entry of the deque looked after. */
  lemma StepWatches(s: Pool, l: Label)
    requires NoneOverlooked(s) && Enabled(s, l)
    ensures NoneOverlooked(Next(s, l))
  {
    match l
    case Submit(count, maxWorkers, pick) =>
      EnqueueWatches(s.(table := s.table + [NewJob(count, Concurrency(count, maxWorkers, |s.workers|))]), |s.table|,
                     pick);
    case Claim(w, pick) =>
      WorkerWatches(s, Pop(s, w), w);
      StillPicked(s.workers, w, Pop(s, w).workers[w], pick);
      EnqueueWatches(Pop(s, w), s.jobs[0], pick);
    case Check(w) => WorkerWatches(s, CheckStep(s, w), w);
    case Finish(w, threw) => WorkerWatches(s, FinishStep(s, w, threw), w);
    case Retire(w, pick) =>
      WorkerWatches(s, Drop(s, w), w);
      StillPicked(s.workers, w, Awake, pick);
      if Drop(s, w).table[s.workers[w].job].remaining != 0 {
        EnqueueWatches(Drop(s, w), s.workers[w].job, pick);
      }
    case Sleep(w) => WorkerWatches(s, Next(s, l), w);
    case Wake(w) => WorkerWatches(s, Next(s, l), w);
    case Exit(w) => WorkerWatches(s, Next(s, l), w);
    case Return(id) =>
    case Stop =>
    case NotifyAll =>
  }

  lemma StillPicked(ws: seq<Worker>, w: nat, now: Worker, pick: nat)
    requires w < |ws| && !ws[w].Asleep? && !now.Asleep? && MayNotify(ws, pick)
    ensures MayNotify(ws[w := now], pick)
  {
    var vs := ws[w := now];
    if i :| 0 <= i < |vs| && vs[i].Asleep? {
      assert ws[i].Asleep?;
    }
  }

  /** Every step of the machine keeps the invariant. */
  lemma StepKeeps(s: Pool, l: Label)
    requires Inv(s) && Enabled(s, l)
    ensures Inv(Next(s, l))
  {
    hide Core;
    StepWatches(s, l);
    match l
    case Submit(count, maxWorkers, pick) => SubmitKeeps(s, count, maxWorkers, pick);
    case Claim(w, pick) => ClaimKeeps(s, w, pick);
    case Check(w) => CheckKeeps(s, w);
    case Finish(w, threw) => FinishKeeps(s, w, threw);
    case Retire(w, pick) => RetireKeeps(s, w, pick);
    case Sleep(w) => IdleStepKeeps(s, w, Asleep);
    case Wake(w) => IdleStepKeeps(s, w, Awake);
    case Exit(w) => IdleStepKeeps(s, w, Exited);
    case Return(id) => ReturnKeeps(s, id);
    case Stop => StopKeeps(s);
    case NotifyAll => NotifyAllKeeps(s);
  }

  lemma InitialInv(s: Pool)
    requires Initial(s)
    ensures Inv(s)
  {
  }

  /** Safety over whole runs: the invariant holds at the end of every run. */
  lemma {:induction false} RunKeeps(s: Pool, run: seq<Label>)
    requires Inv(s) && IsRun(s, run)
    ensures Inv(After(s, run))
    decreases |run|
  {
    if run != [] {
      StepKeeps(s, run[0]);
      RunKeeps(Next(s, run[0]), run[1..]);
    }
  }
}
