/** What one locked region of the worker pool does to the queue and the statistics.

    Both views of the pool are written over the functions of this module: the heap view
    (module WorkerPool, with J a reference to a job object) and the concurrent view
    (module PoolProtocol, with J a numbered submission). */
module PoolCore {

  const U32: nat := 0x1_0000_0000
  const MAX_WORKERS: nat := 16
  const DEFAULT_WORKERS: nat := 4
  const DEFAULT_QUEUE_SIZE: nat := 64

  /** `x++` and `x--` on a `uint32_t`. */
  function Inc32(x: nat): nat {
    if x == 0xFFFF_FFFF then 0 else x + 1
  }

  function Dec32(x: nat): nat {
    if x == 0 then 0xFFFF_FFFF else x - 1
  }

  /** The value a `uint32_t` counter shows after `n` increments. */
  function Low32(n: nat): nat {
    n % 0x1_0000_0000
  }

  lemma Low32Inc(n: nat)
    ensures Low32(n + 1) == Inc32(Low32(n))
  {
  }

  lemma Low32Sum(a: nat, b: nat, c: nat, d: nat)
    ensures Low32(Low32(a) + Low32(b) + Low32(c) + d) == Low32(a + b + c + d)
  {
    Low32Add(a, Low32(b) + Low32(c) + d);
    Low32Add(b, a + Low32(c) + d);
    Low32Add(c, a + b + d);
  }

  lemma Low32Add(a: nat, d: nat)
    ensures Low32(Low32(a) + d) == Low32(a + d)
  {
    var q := a / 0x1_0000_0000;
    assert a + d == Low32(a) + d + q * 0x1_0000_0000;
  }

  datatype JobState = Pending | Running | Completed | Cancelled | Error

  /** A slot that `job_pool_alloc` may hand out. */
  predicate IsFree(s: JobState) {
    s == Completed || s == Cancelled
  }

  /** What a job object holds besides its links; `notify` says that a state machine is to be told of its completion. */
  datatype Rec = Rec(id: nat, state: JobState, result: int, notify: bool)

  const ZEROED := Rec(0, Pending, 0, false)

  /** A job that is handed out or initialised with the next id of the counter. */
  function Claimed(counter: nat): Rec {
    ZEROED.(id := Inc32(counter))
  }

  /** A job that is accepted into the queue; it draws an id if it has none. */
  function Accepted(r: Rec, counter: nat): Rec {
    r.(id := if r.id == 0 then Inc32(counter) else r.id, state := Pending)
  }

  function CounterAfter(r: Rec, counter: nat): nat {
    if r.id == 0 then Inc32(counter) else counter
  }

  function Ended(r: Rec): Rec {
    r.(state := if r.result < 0 then Error else Completed)
  }

  datatype Stats = Stats(
    submitted: nat, completed: nat, cancelled: nat, errors: nat,
    queueDepth: nat, activeWorkers: nat)

  const ZERO_STATS := Stats(0, 0, 0, 0, 0, 0)

  /** How a semaphore treats a post at its maximum: POSIX keeps counting, FreeRTOS drops the token. */
  datatype Cap = Unbounded | Saturating(max: nat) {
    predicate AtLeast(n: nat) {
      Unbounded? || n <= max
    }

    function Post(tokens: nat): nat {
      if Saturating? && max <= tokens then tokens else tokens + 1
    }
  }

  /** The state guarded by the pool lock. `headLinked` says that the queue has a head and that the head's
      `prev` pointer is not null: dequeuing leaves it pointing at the job that was just taken. */
  datatype Core<J> = Core(queue: seq<J>, headLinked: bool, stats: Stats)

  function Enqueue<J>(c: Core<J>, j: J): Core<J> {
    Core(c.queue + [j], c.queue != [] && c.headLinked,
         c.stats.(submitted := Inc32(c.stats.submitted), queueDepth := Inc32(c.stats.queueDepth)))
  }

  function Dequeue<J>(c: Core<J>): Core<J>
    requires c.queue != []
  {
    Core(c.queue[1..], |c.queue| > 1,
         c.stats.(activeWorkers := Inc32(c.stats.activeWorkers), queueDepth := Dec32(c.stats.queueDepth)))
  }

  function RemoveAt<J>(c: Core<J>, k: nat): Core<J>
    requires k < |c.queue|
  {
    Core(c.queue[..k] + c.queue[k + 1..], k != 0 && c.headLinked,
         c.stats.(cancelled := Inc32(c.stats.cancelled), queueDepth := Dec32(c.stats.queueDepth)))
  }

  function Complete<J>(c: Core<J>, result: int): Core<J> {
    var st := c.stats.(activeWorkers := Dec32(c.stats.activeWorkers));
    c.(stats := if result < 0 then st.(errors := Inc32(st.errors)) else st.(completed := Inc32(st.completed)))
  }

  /** The job that a search from the head stops at, or the length of the queue when no id matches. */
  function IndexOf(ids: seq<nat>, id: nat): (k: nat)
    ensures k <= |ids|
    ensures k < |ids| ==> ids[k] == id
    ensures id !in ids[..k]
  {
    if ids == [] then 0
    else if ids[0] == id then 0
    else
      var k := 1 + IndexOf(ids[1..], id);
      assert ids[..k] == [ids[0]] + ids[1..][..k - 1];
      k
  }

  /** The slot that a scan of the static pool stops at, or the number of slots when all are taken. */
  function FirstFree(states: seq<JobState>): (k: nat)
    ensures k <= |states|
    ensures k < |states| ==> IsFree(states[k])
    ensures forall i :: 0 <= i < k ==> !IsFree(states[i])
  {
    if states == [] then 0
    else if IsFree(states[0]) then 0
    else
      var k := 1 + FirstFree(states[1..]);
      assert forall i :: 0 < i < k ==> states[i] == states[1..][i - 1];
      k
  }
}
