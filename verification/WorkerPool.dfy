/** The pool as it lies in memory: job objects linked through `next` and `prev`, and the global job store.
    Each method is one locked region of `core/osa_worker.c`. */
module WorkerPool {
  import opened PoolCore

  class Job {
    var id: nat
    var state: JobState
    var result: int
    var notify: bool  // target_hsm is set
    var signal: int   // completion_signal
    var next: Job?
    var prev: Job?

    constructor ()
      ensures Record() == ZEROED && signal == 0 && next == null && prev == null
    {
      id, state, result, notify, signal, next, prev := 0, Pending, 0, false, 0, null, null;
    }

    ghost function Record(): Rec
      reads this`id, this`state, this`result, this`notify
    {
      Rec(id, state, result, notify)
    }

    ghost predicate Unlinked()
      reads this`next, this`prev
    {
      next == null && prev == null
    }
  }

  /** `k` is where a search of `q` for `id` stops: the first job with that id, or the end. */
  ghost predicate StopsAt(q: seq<Job>, id: nat, k: nat)
    reads q`id
  {
    && k <= |q|
    && (k < |q| ==> q[k].id == id)
    && forall i :: 0 <= i < k ==> q[i].id != id
  }

  ghost function States(q: seq<Job>): (states: seq<JobState>)
    reads q`state
    ensures |states| == |q| && forall i :: 0 <= i < |q| ==> states[i] == q[i].state
  {
    if q == [] then [] else [q[0].state] + States(q[1..])
  }

  ghost predicate Distinct(q: seq<Job>) {
    forall i, j :: 0 <= i < j < |q| ==> q[i] != q[j]
  }

  /** The static job slots and the job id counter. */
  class JobStore {
    const slots: seq<Job>
    var counter: nat
    var initialised: bool

    constructor (slots: seq<Job>)
      ensures this.slots == slots && counter == 0 && !initialised
    {
      this.slots, counter, initialised := slots, 0, false;
    }

    method NextId() returns (id: nat)
      modifies this`counter
      ensures id == counter == Inc32(old(counter))
    {
      counter := Inc32(counter);
      id := counter;
    }

    /** Zeroes every slot and marks it reusable, on the first allocation only. */
    method InitSlots()
      requires Distinct(slots)
      modifies this`initialised, slots
      ensures initialised
      ensures old(initialised) ==> forall k :: 0 <= k < |slots| ==> unchanged(slots[k])
      ensures !old(initialised) ==> forall k :: 0 <= k < |slots| ==> Reusable(slots[k])
    {
      if initialised {
        return;
      }
      for i := 0 to |slots|
        invariant initialised == old(initialised)
        invariant forall k :: 0 <= k < i ==> Reusable(slots[k])
      {
        Clear(slots[i]);
        slots[i].state := Completed;
      }
      initialised := true;
    }

    static ghost predicate Reusable(job: Job)
      reads job
    {
      job.Record() == ZEROED.(state := Completed) && job.signal == 0 && job.Unlinked()
    }

    method Clear(job: Job)
      modifies job
      ensures job.Record() == ZEROED && job.signal == 0 && job.Unlinked()
    {
      job.id, job.state, job.result, job.notify, job.signal := 0, Pending, 0, false, 0;
      job.next, job.prev := null, null;
    }

    method FindFree() returns (k: nat)
      ensures k == FirstFree(States(slots))
    {
      k := 0;
      while k < |slots| && !(slots[k].state == Completed || slots[k].state == Cancelled)
        invariant k <= |slots|
        invariant forall i :: 0 <= i < k ==> !IsFree(slots[i].state)
      {
        k := k + 1;
      }
      ghost var m := FirstFree(States(slots));
      assert k < |slots| ==> IsFree(States(slots)[k]);
      assert m < |slots| ==> IsFree(slots[m].state);
    }

    /** The slot handed out is the first free one; before the first allocation every slot is. */
    method Alloc() returns (job: Job?)
      requires Distinct(slots)
      modifies this, slots
      ensures
        var k := if old(initialised) then FirstFree(old(States(slots))) else 0;
        && initialised
        && job == (if k < |slots| then slots[k] else null)
        && (forall i :: 0 <= i < |slots| && i != k ==>
              if old(initialised) then unchanged(slots[i]) else Reusable(slots[i]))
      ensures job != null ==>
        && job.Record() == Claimed(old(counter)) && counter == Inc32(old(counter))
        && job.signal == 0 && job.Unlinked()
      ensures job == null ==> counter == old(counter)
    {
      InitSlots();
      assert old(initialised) ==> States(slots) == old(States(slots));
      var k := FindFree();
      if k == |slots| {
        return null;
      }
      job := slots[k];
      Clear(job);
      job.id := NextId();
      job.state := Pending;
    }

    /** Only a job that lies in the static pool is released; any other pointer is ignored. */
    method Free(job: Job)
      modifies job`state
      ensures job.Record() == if job in slots then old(job.Record()).(state := Completed) else old(job.Record())
    {
      if job in slots {
        job.state := Completed;
      }
    }

    method InitJob(job: Job)
      modifies this`counter, job
      ensures counter == Inc32(old(counter)) && job.Record() == Claimed(old(counter))
      ensures job.signal == 0 && job.Unlinked()
    {
      Clear(job);
      job.id := NextId();
    }
  }

  class Pool {
    const queueSize: nat
    const cap: Cap
    var head: Job?
    var tail: Job?
    var stats: Stats
    var shutdown: bool
    var workSem: nat
    var completeSem: nat
    ghost var Queue: seq<Job>

    /** The pointers of the pool and of the jobs of `q` form exactly the list `q`. The `prev` of the head is
        left open: nothing in the code maintains it. */
    ghost predicate Represents(q: seq<Job>)
      reads this`head, this`tail, q`next, q`prev
    {
      && Distinct(q)
      && head == (if q == [] then null else q[0])
      && tail == (if q == [] then null else q[|q| - 1])
      && (forall i {:trigger q[i].next} :: 0 <= i < |q| ==> q[i].next == if i + 1 < |q| then q[i + 1] else null)
      && (forall i {:trigger q[i].prev} :: 0 < i < |q| ==> q[i].prev == q[i - 1])
    }

    ghost predicate Valid()
      reads this, Queue
    {
      && Represents(Queue)
      && stats.queueDepth == |Queue| <= queueSize < U32
    }

    ghost function View(): Core<Job>
      requires Valid()
      reads this, Queue
    {
      Core(Queue, head != null && head.prev != null, stats)
    }

    constructor (queueSize: nat, cap: Cap)
      requires queueSize < U32
      ensures Valid() && Queue == [] && stats == ZERO_STATS && !shutdown && workSem == completeSem == 0
      ensures this.queueSize == queueSize && this.cap == cap
    {
      this.queueSize, this.cap := queueSize, cap;
      head, tail, stats, shutdown, workSem, completeSem := null, null, ZERO_STATS, false, 0, 0;
      Queue := [];
    }

    method Link(job: Job)
      modifies this`head, this`tail, job`next, job`prev, (if tail == null then {} else {tail})`next
      ensures old(Represents(Queue)) && job !in Queue ==> Represents(Queue + [job])
      ensures job.prev == old(tail)
    {
      job.next, job.prev := null, null;
      if tail == null {
        head, tail := job, job;
      } else {
        tail.next := job;
        job.prev := tail;
        tail := job;
      }
    }

    method Accept(job: Job, store: JobStore)
      modifies job`id, job`state, store`counter
      ensures job.Record() == Accepted(old(job.Record()), old(store.counter))
      ensures store.counter == CounterAfter(old(job.Record()), old(store.counter))
    {
      if job.id == 0 {
        job.id := store.NextId();
      }
      job.state := Pending;
    }

    /** The code checks neither that the pool is intact nor that the job is idle, so neither is required:
        what a submission does to the list is promised when both hold. */
    method Submit(job: Job, store: JobStore) returns (rc: int)
      modifies this`head, this`tail, this`stats, this`workSem, this`Queue
      modifies job`id, job`state, job`next, job`prev, (if tail == null then {} else {tail})`next, store`counter
      ensures rc == if old(stats.queueDepth) >= queueSize then -1 else 0
      ensures rc != 0 ==> unchanged(this) && unchanged(job) && unchanged(store)
      ensures old(Valid()) && rc != 0 ==> Valid() && View() == old(View())
      ensures rc == 0 ==>
        && job.Record() == Accepted(old(job.Record()), old(store.counter))
        && store.counter == CounterAfter(old(job.Record()), old(store.counter))
        && workSem == cap.Post(old(workSem))
      ensures old(Valid()) && rc == 0 && job !in old(Queue) ==> Valid() && View() == Enqueue(old(View()), job)
    {
      if stats.queueDepth >= queueSize {
        return -1;
      }
      Accept(job, store);
      Link(job);
      stats := stats.(queueDepth := Inc32(stats.queueDepth));
      stats := stats.(submitted := Inc32(stats.submitted));
      workSem := cap.Post(workSem);
      Queue := Queue + [job];
      return 0;
    }

    /** The target is set before the queue is checked, so it stays set when the submission is refused. */
    method SubmitToHsm(job: Job, store: JobStore, signal: int) returns (rc: int)
      modifies this`head, this`tail, this`stats, this`workSem, this`Queue
      modifies job`id, job`state, job`next, job`prev, job`notify, job`signal
      modifies (if tail == null then {} else {tail})`next, store`counter
      ensures job.notify && job.signal == signal && rc == if old(stats.queueDepth) >= queueSize then -1 else 0
      ensures rc != 0 ==> job.Record() == old(job.Record()).(notify := true) && unchanged(this) && unchanged(store)
      ensures rc == 0 ==>
        && job.Record() == Accepted(old(job.Record()).(notify := true), old(store.counter))
        && store.counter == CounterAfter(old(job.Record()), old(store.counter))
        && workSem == cap.Post(old(workSem))
      ensures old(Valid()) && rc == 0 && job !in old(Queue) ==> Valid() && View() == Enqueue(old(View()), job)
    {
      job.notify, job.signal := true, signal;
      rc := Submit(job, store);
    }

    /** The region a worker runs after it took a token: leave, go back to waiting, or take the head. */
    method Fetch() returns (exit: bool, job: Job?)
      modifies this`head, this`tail, this`stats, this`Queue
      modifies (if head == null then {} else {head})`state, (if head == null then {} else {head})`next,
        (if head == null then {} else {head})`prev
      ensures exit == old(shutdown) && (exit ==> job == null && unchanged(this))
      ensures !exit ==> job == old(head)
      ensures job == null ==> unchanged(this)
      ensures job != null ==>
        && job.Record() == old(head.Record()).(state := Running) && job.Unlinked()
        && head == old(head.next)
        && stats == old(stats).(activeWorkers := Inc32(old(stats.activeWorkers)),
                                queueDepth := Dec32(old(stats.queueDepth)))
      ensures old(Valid()) ==> Valid()
      ensures old(Valid()) && job != null ==> old(Queue) != [] && View() == Dequeue(old(View()))
      ensures old(Valid()) && !exit ==> (job == null <==> old(Queue) == [])
    {
      if shutdown {
        return true, null;
      }
      exit, job := false, head;
      if job != null {
        head := job.next;
        if head == null {
          tail := null;
        }
        job.next, job.prev := null, null;
        job.state := Running;
        stats := stats.(activeWorkers := Inc32(stats.activeWorkers));
        stats := stats.(queueDepth := Dec32(stats.queueDepth));
        Queue := if Queue == [] then [] else Queue[1..];
      }
    }

    /** The list is intact and its head has no `prev`. */
    ghost predicate Clean()
      reads this, Queue
    {
      Valid() && !View().headLinked
    }

    /** A repaired dequeue, which the code does not have: it also clears the `prev` of the new head. */
    method FetchClearing() returns (exit: bool, job: Job?)
      modifies this`head, this`tail, this`stats, this`Queue
      modifies (if head == null then {} else {head})`state, (if head == null then {} else {head})`next,
        (if head == null then {} else {head})`prev
      modifies (if head == null || head.next == null then {} else {head.next})`prev
      ensures exit == old(shutdown) && (!exit ==> job == old(head))
      ensures old(Valid()) ==> Valid() && (!exit ==> Clean())
      ensures old(Valid()) && job != null ==>
        old(Queue) != [] && View() == Dequeue(old(View())).(headLinked := false)
    {
      exit, job := Fetch();
      if job != null && head != null {
        head.prev := null;
      }
    }

    /** The region a worker runs after the job function returned. */
    method Finish(job: Job)
      requires Valid() && job !in Queue
      modifies this`stats, this`completeSem, job`state
      ensures Valid() && View() == Complete(old(View()), job.result)
      ensures job.Record() == Ended(old(job.Record()))
      ensures completeSem == cap.Post(old(completeSem))
    {
      job.state := if job.result < 0 then Error else Completed;
      stats := stats.(activeWorkers := Dec32(stats.activeWorkers));
      if job.state == Error {
        stats := stats.(errors := Inc32(stats.errors));
      } else {
        stats := stats.(completed := Inc32(stats.completed));
      }
      completeSem := cap.Post(completeSem);
    }

    /** Walks the list from the head. */
    method Search(jobId: nat) returns (job: Job?, ghost i: nat)
      requires Represents(Queue)
      ensures StopsAt(Queue, jobId, i)
      ensures job == if i < |Queue| then Queue[i] else null
    {
      i, job := 0, head;
      while job != null && job.id != jobId
        invariant i <= |Queue|
        invariant job == if i < |Queue| then Queue[i] else null
        invariant forall m :: 0 <= m < i ==> Queue[m].id != jobId
        decreases |Queue| - i
      {
        job := job.next;
        i := i + 1;
      }
    }

    /** Takes the `i`-th job out of the list, trusting its `prev` to tell whether it is the head. */
    method Unlink(job: Job, ghost i: nat)
      requires Represents(Queue) && i < |Queue| && job == Queue[i]
      modifies this`head, this`tail, Queue`next, Queue`prev, (if job.prev == null then {} else {job.prev})`next
      ensures var kept := Queue[..i] + Queue[i + 1..];
        && (Represents(kept) <==> i != 0 || old(job.prev) == null)
        && (i != 0 ==> head == old(head) && head.prev == old(head.prev))
        && (i == 0 && old(job.prev) == null ==> head == null || head.prev == null)
        && (i == 0 && old(job.prev) != null ==> head == job && job.next == old(job.next))
    {
      ghost var kept := Queue[..i] + Queue[i + 1..];
      assert forall m :: 0 <= m < |kept| ==> kept[m] == Queue[if m < i then m else m + 1];
      if job.prev != null {
        job.prev.next := job.next;
      } else {
        head := job.next;
      }
      if job.next != null {
        job.next.prev := job.prev;
      } else {
        tail := job.prev;
      }
      if i != 0 || old(job.prev) == null {
        forall m | 0 <= m < |kept|
          ensures kept[m].next == if m + 1 < |kept| then kept[m + 1] else null
        {
          var o := if m < i then m else m + 1;
          assert old(Queue[o].next) == if o + 1 < |Queue| then Queue[o + 1] else null;
        }
        forall m | 0 < m < |kept| ensures kept[m].prev == kept[m - 1] {
          var o := if m < i then m else m + 1;
          assert old(Queue[o].prev) == Queue[o - 1];
        }
        assert Represents(kept);
      } else {
        assert head == job && job !in kept;
      }
    }

    /** Takes the `k`-th job out of the list and counts it as cancelled. */
    method Remove(job: Job, ghost k: nat)
      requires Valid() && k < |Queue| && job == Queue[k]
      modifies this`head, this`tail, this`stats, this`Queue, Queue`next, Queue`prev, job`state
      modifies (if job.prev == null then {} else {job.prev})`next
      ensures
        var kept := old(Queue)[..k] + old(Queue)[k + 1..];
        && job.state == Cancelled
        && stats == RemoveAt(old(View()), k).stats
        && (Represents(kept) <==> k != 0 || !old(View()).headLinked)
        && (k != 0 || !old(View()).headLinked ==> Valid() && View() == RemoveAt(old(View()), k))
        && (k == 0 && old(View()).headLinked ==> head == old(Queue)[0] && head.next == old(head.next))
    {
      Unlink(job, k);
      job.state := Cancelled;
      stats := stats.(queueDepth := Dec32(stats.queueDepth));
      stats := stats.(cancelled := Inc32(stats.cancelled));
      Queue := Queue[..k] + Queue[k + 1..];
    }

    /** Cancel removes exactly the first job with the given id when that job is not the head or when the head
        has no `prev`. In the one remaining case the list does not represent the shortened queue: the
        cancelled job is still the head. */
    method Cancel(jobId: nat) returns (rc: int, ghost k: nat)
      requires Valid()
      modifies this`head, this`tail, this`stats, this`Queue, Queue`next, Queue`prev, Queue`state
      modifies (if head == null || head.prev == null then {} else {head.prev})`next
      ensures
        && StopsAt(old(Queue), jobId, k)
        && (rc == if k < |old(Queue)| then 0 else -1)
        && (k == |old(Queue)| ==> Valid() && View() == old(View()) && forall j <- old(Queue) :: unchanged(j))
        && (k < |old(Queue)| ==>
          var kept := old(Queue)[..k] + old(Queue)[k + 1..];
          && old(Queue)[k].state == Cancelled
          && stats == RemoveAt(old(View()), k).stats
          && (Represents(kept) <==> k != 0 || !old(View()).headLinked)
          && (k != 0 || !old(View()).headLinked ==> Valid() && View() == RemoveAt(old(View()), k))
          && (k == 0 && old(View()).headLinked ==> head == old(Queue)[0] && head.next == old(head.next)))
      ensures forall i :: 0 <= i < |old(Queue)| && old(Queue)[i].state != old(Queue[i].state) ==>
        i == k
    {
      var job;
      job, k := Search(jobId);
      if job == null {
        return -1, k;
      }
      Remove(job, k);
      rc := 0;
    }
  }

  /** With the repaired dequeue, every cancel leaves the list without its job and ready for the next cancel. */
  method CancelOnRepairedPool(pool: Pool, jobId: nat) returns (rc: int, ghost k: nat)
    requires pool.Clean()
    modifies pool, pool.Queue
    ensures pool.Clean() && StopsAt(old(pool.Queue), jobId, k) && rc == (if k < |old(pool.Queue)| then 0 else -1)
    ensures k < |old(pool.Queue)| ==>
      && pool.Represents(old(pool.Queue)[..k] + old(pool.Queue)[k + 1..])
      && pool.View() == RemoveAt(old(pool.View()), k)
  {
    rc, k := pool.Cancel(jobId);
  }

  /** Submissions keep the repaired pool clean as well. */
  method SubmitOnRepairedPool(pool: Pool, store: JobStore, job: Job) returns (rc: int)
    requires pool.Clean() && job !in pool.Queue
    modifies pool, store, job, pool.Queue
    ensures pool.Clean()
  {
    rc := pool.Submit(job, store);
  }

  /** Submit A, submit B, let a worker take A: the head is now B, still pointing back at A. */
  method StaleHead(pool: Pool, store: JobStore, a: Job, b: Job)
    requires pool.Valid() && pool.Queue == [] && !pool.shutdown && 2 <= pool.queueSize
    requires a != b && a.id != 0 && b.id != 0
    modifies pool, store, a, b
    ensures pool.Valid() && pool.Queue == [b] && b.prev != null && !pool.shutdown
    ensures b.id == old(b.id)
  {
    var rc := pool.Submit(a, store);
    rc := pool.Submit(b, store);
    assert pool.Queue == [a, b];
    var exit, job := pool.Fetch();
    assert pool.Queue == [a, b][1..] == [b];
  }

  /** Cancelling B now reports success, yet the next worker runs B; the queue depth then wraps around, so that
      every later submission to the empty queue is refused as if the queue were full. */
  method CancelledHeadStillRuns(pool: Pool, b: Job) returns (rc: int, ran: Job?)
    requires pool.Valid() && pool.Queue == [b] && b.prev != null && !pool.shutdown
    modifies pool, b, b.prev
    ensures rc == 0 && ran == b && b.state == Running
    ensures pool.head == null && pool.stats.queueDepth == 0xFFFF_FFFF >= pool.queueSize
  {
    ghost var k;
    rc, k := pool.Cancel(b.id);
    assert k == 0;
    var exit;
    exit, ran := pool.Fetch();
  }

  /** A slot is freed by an earlier owner while its new owner has it in the queue. The free marks it COMPLETED, so the next
      allocation hands the queued job to a third one, zeroed and with its links cleared; the list survives if and only
      if the job was alone in it. */
  method FreedWhileQueued(pool: Pool, store: JobStore, i: nat, k: nat) returns (job: Job?)
    requires pool.Valid() && i < |pool.Queue| && k < |store.slots| && store.slots[k] == pool.Queue[i]
    requires Distinct(store.slots) && store.initialised && forall m :: 0 <= m < k ==> !IsFree(store.slots[m].state)
    modifies store, store.slots
    ensures job == pool.Queue[i] && job.Record() == Claimed(old(store.counter)) && pool.Queue == old(pool.Queue)
    ensures pool.Represents(pool.Queue) <==> |pool.Queue| == 1
  {
    job := Recycle(store, k);
    if pool.Represents(pool.Queue) {
      assert pool.Queue[i].next == null && pool.Queue[i].prev == null;
    }
  }

  /** Frees the slot and has it handed out again. */
  method Recycle(store: JobStore, k: nat) returns (job: Job?)
    requires k < |store.slots| && Distinct(store.slots) && store.initialised
    requires forall m :: 0 <= m < k ==> !IsFree(store.slots[m].state)
    modifies store, store.slots
    ensures job == store.slots[k] && job.Record() == Claimed(old(store.counter)) && job.Unlinked()
    ensures forall m :: 0 <= m < |store.slots| && m != k ==> unchanged(store.slots[m])
  {
    store.Free(store.slots[k]);
    assert IsFree(States(store.slots)[k]);
    assert forall m :: 0 <= m < k ==> !IsFree(States(store.slots)[m]);
    job := store.Alloc();
  }
}
