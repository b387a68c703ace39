/** The worker pool as a transition system: any number of clients and up to sixteen workers, interleaved in every
    way the lock and the two semaphores allow. Each action is one locked region or one semaphore operation. */
module PoolProtocol {
  import opened PoolCore

  /** `clearsPrev` is false for the code as written; true describes a dequeue that also clears the new head's `prev`. */
  datatype Config = Config(numWorkers: nat, queueSize: nat, numSlots: nat, cap: Cap, clearsPrev: bool)

  predicate Sized(cfg: Config) {
    && 1 <= cfg.numWorkers <= MAX_WORKERS
    && 1 <= cfg.queueSize < U32
  }

  /** The limits `osa_worker_pool_init` settles on for the two `uint32_t` arguments it is given. */
  function Normalise(numWorkers: nat, queueSize: nat, numSlots: nat, cap: Cap): (cfg: Config)
    requires numWorkers < U32 && queueSize < U32
    ensures Sized(cfg) && !cfg.clearsPrev
    ensures numWorkers == 0 ==> cfg.numWorkers == 4
    ensures 1 <= numWorkers <= 16 ==> cfg.numWorkers == numWorkers
    ensures 16 < numWorkers ==> cfg.numWorkers == 16
    ensures cfg.queueSize == if queueSize == 0 then 64 else queueSize
    ensures cfg.numSlots == numSlots && cfg.cap == cap
  {
    var workers := if numWorkers == 0 then DEFAULT_WORKERS else numWorkers;
    Config(if workers > MAX_WORKERS then MAX_WORKERS else workers,
           if queueSize == 0 then DEFAULT_QUEUE_SIZE else queueSize, numSlots, cap, false)
  }

  /** One accepted submission: its rank among all submissions, and the job object submitted. */
  datatype Entry = Entry(ticket: nat, job: nat)

  datatype Pc =
    | Waiting                   // blocked on, or about to wait on, work_sem
    | HasToken                  // took a token, not yet inside the lock
    | Executing(entry: Entry)   // running the job function
    | Finishing(entry: Entry, returned: int)   // the function returned and its result is stored in the job
    | Exited
  {
    predicate Active() {
      Executing? || Finishing?
    }
  }

  /** Where `osa_worker_pool_stop` has got to; the shutdown flag is set in every state but `Live`. */
  datatype StopPc = Live | Posting(left: nat) | Joining(next: nat) | Stopped

  datatype Run = Run(worker: nat, entry: Entry)
  datatype Outcome = Outcome(run: Run, result: int)

  /** The latest claim on a static slot. It is `live` while the slot is handed out and neither submitted nor released;
      it is `undercut` when a free meant for an older claim has hit the slot since. */
  datatype Own = Own(claim: nat, live: bool, undercut: bool)

  /** What has happened so far. What an action does to the rest of the state does not depend on it, nor on the `returned` of a
      worker; only the guard of Free looks at the claims. Every allocation makes a new claim: `claims[c]` is the slot that
      claim `c` was given. */
  datatype History = History(
    submitted: seq<Entry>, started: seq<Run>, finished: seq<Outcome>, cancelled: seq<Entry>,
    waits: nat, draws: nat, claims: seq<nat>, owner: map<nat, Own>)

  /** Jobs are numbered; the first `numSlots` are the static slots, the others belong to clients. */
  datatype State = State(
    core: Core<Entry>, jobs: seq<Rec>, counter: nat, workers: seq<Pc>,
    workSem: nat, completeSem: nat, stop: StopPc, hist: History)

  datatype Action =
    | TakeToken(w: nat)
    | Interrupted(w: nat)
    | Fetch(w: nat)
    | Execute(w: nat, result: int)
    | Finish(w: nat)
    | Submit(job: nat, toHsm: bool)
    | Cancel(id: nat)
    | Alloc
    | InitJob(job: nat)
    | Free(job: nat, claim: nat)   // for a static slot: by whoever was given it with that claim
    | Wait(job: nat)
    | Shutdown
    | StopPost
    | Join

  function Initial(cfg: Config, numJobs: nat): State {
    State(Core([], false, ZERO_STATS),
          seq(numJobs, i => ZEROED.(state := if i < cfg.numSlots then Completed else Pending)),
          0, seq(cfg.numWorkers, _ => Waiting), 0, 0, Live,
          History([], [], [], [], 0, 0, [], map[]))
  }

  predicate Shape(cfg: Config, s: State) {
    && |s.workers| == cfg.numWorkers
    && cfg.numSlots <= |s.jobs|
    && (forall i :: 0 <= i < |s.core.queue| ==> s.core.queue[i].job < |s.jobs|)
    && (forall w :: 0 <= w < |s.workers| && s.workers[w].Active() ==> s.workers[w].entry.job < |s.jobs|)
  }

  predicate Queued(s: State, job: nat) {
    exists i :: 0 <= i < |s.core.queue| && s.core.queue[i].job == job
  }

  predicate Held(s: State, job: nat) {
    exists w :: 0 <= w < |s.workers| && s.workers[w].Active() && s.workers[w].entry.job == job
  }

  predicate InFlight(s: State, job: nat) {
    Queued(s, job) || Held(s, job)
  }

  function QueueIds(cfg: Config, s: State): (ids: seq<nat>)
    requires Shape(cfg, s)
    ensures |ids| == |s.core.queue|
    ensures forall i :: 0 <= i < |ids| ==> ids[i] == s.jobs[s.core.queue[i].job].id
  {
    seq(|s.core.queue|, i requires 0 <= i < |s.core.queue| => s.jobs[s.core.queue[i].job].id)
  }

  function SlotStates(cfg: Config, s: State): (states: seq<JobState>)
    requires Shape(cfg, s)
    ensures |states| == cfg.numSlots
    ensures forall i :: 0 <= i < |states| ==> states[i] == s.jobs[i].state
  {
    seq(cfg.numSlots, i requires 0 <= i < cfg.numSlots => s.jobs[i].state)
  }

  function CancelIndex(cfg: Config, s: State, id: nat): (k: nat)
    requires Shape(cfg, s)
    ensures k <= |s.core.queue|
  {
    IndexOf(QueueIds(cfg, s), id)
  }

  /** Cancel is guarded where the code breaks the list (see WorkerPool.Pool.Cancel). Submitting, re-initialising
      or freeing a job that is queued or running is a mistake that the code does not detect (see
      WorkerPool.FreedWhileQueued). A blocking wait names a job and ignores it. */
  predicate Enabled(cfg: Config, s: State, a: Action) {
    && Shape(cfg, s)
    && (match a
        case TakeToken(w) => w < |s.workers| && s.workers[w] == Waiting && 0 < s.workSem
        case Interrupted(w) => w < |s.workers| && s.workers[w] == Waiting
        case Fetch(w) => w < |s.workers| && s.workers[w] == HasToken
        case Execute(w, _) => w < |s.workers| && s.workers[w].Executing?
        case Finish(w) => w < |s.workers| && s.workers[w].Finishing?
        case Submit(j, _) => s.stop != Stopped && j < |s.jobs| && !InFlight(s, j)
        case Cancel(id) =>
          s.stop != Stopped && (CancelIndex(cfg, s, id) == 0 && s.core.queue != [] ==> !s.core.headLinked)
        case Alloc => true
        case InitJob(j) => j < |s.jobs| && !InFlight(s, j)
        case Free(j, c) =>
          j < |s.jobs| && !InFlight(s, j) && (j < cfg.numSlots ==> c < |s.hist.claims| && s.hist.claims[c] == j)
        case Wait(_) => s.stop != Stopped && 0 < s.completeSem
        case Shutdown => s.stop == Live
        case StopPost => s.stop.Posting?
        case Join => s.stop.Joining? && (s.stop.next < |s.workers| ==> s.workers[s.stop.next] == Exited))
  }

  function SetPc(s: State, w: nat, pc: Pc): State
    requires w < |s.workers|
  {
    s.(workers := s.workers[w := pc])
  }

  function SetJob(s: State, j: nat, r: Rec): State
    requires j < |s.jobs|
  {
    s.(jobs := s.jobs[j := r])
  }

  function FetchStep(cfg: Config, s: State, w: nat): State
    requires Enabled(cfg, s, Fetch(w))
  {
    if s.stop != Live then SetPc(s, w, Exited)
    else if s.core.queue == [] then SetPc(s, w, Waiting)
    else
      var e := s.core.queue[0];
      var core := Dequeue(s.core);
      SetJob(SetPc(s, w, Executing(e)), e.job, s.jobs[e.job].(state := Running))
        .(core := core.(headLinked := core.headLinked && !cfg.clearsPrev),
          hist := s.hist.(started := s.hist.started + [Run(w, e)]))
  }

  function FinishStep(cfg: Config, s: State, w: nat): State
    requires Enabled(cfg, s, Finish(w))
  {
    var e := s.workers[w].entry;
    var r := s.jobs[e.job].result;
    SetJob(SetPc(s, w, Waiting), e.job, Ended(s.jobs[e.job]))
      .(core := Complete(s.core, r), completeSem := cfg.cap.Post(s.completeSem),
        hist := s.hist.(finished := s.hist.finished + [Outcome(Run(w, e), r)]))
  }

  predicate Accepts(cfg: Config, s: State) {
    s.core.stats.queueDepth < cfg.queueSize
  }

  function SubmitStep(cfg: Config, s: State, j: nat, toHsm: bool): State
    requires Enabled(cfg, s, Submit(j, toHsm))
  {
    var rec := s.jobs[j].(notify := s.jobs[j].notify || toHsm);
    if !Accepts(cfg, s) then SetJob(s, j, rec)
    else
      var e := Entry(|s.hist.submitted|, j);
      SetJob(s, j, Accepted(rec, s.counter))
        .(core := Enqueue(s.core, e), workSem := cfg.cap.Post(s.workSem), counter := CounterAfter(rec, s.counter),
          hist := s.hist.(submitted := s.hist.submitted + [e], owner := Used(s.hist.owner, j),
                          draws := s.hist.draws + if rec.id == 0 then 1 else 0))
  }

  /** The slot is submitted: its claim is no longer live. */
  function Used(owner: map<nat, Own>, j: nat): map<nat, Own> {
    if j in owner then owner[j := owner[j].(live := false, undercut := false)] else owner
  }

  /** The slot is initialised: its claim stands, whatever was freed before. */
  function Renewed(owner: map<nat, Own>, j: nat): map<nat, Own> {
    if j in owner then owner[j := owner[j].(live := true, undercut := false)] else owner
  }

  /** The slot is freed by the holder of claim `c`. */
  function Released(owner: map<nat, Own>, j: nat, c: nat): map<nat, Own> {
    if j !in owner then owner
    else if owner[j].claim == c then owner[j := Own(c, false, false)]
    else owner[j := owner[j].(undercut := owner[j].undercut || owner[j].live)]
  }

  function CancelStep(cfg: Config, s: State, id: nat): State
    requires Enabled(cfg, s, Cancel(id))
  {
    var k := CancelIndex(cfg, s, id);
    if k == |s.core.queue| then s
    else
      var e := s.core.queue[k];
      SetJob(s, e.job, s.jobs[e.job].(state := Cancelled))
        .(core := RemoveAt(s.core, k), hist := s.hist.(cancelled := s.hist.cancelled + [e]))
  }

  /** Zeroes a job and gives it a new id, as both `job_pool_alloc` and `osa_worker_job_init` do. */
  function Zeroed(s: State, j: nat): State
    requires j < |s.jobs|
  {
    SetJob(s, j, Claimed(s.counter))
      .(counter := Inc32(s.counter), hist := s.hist.(draws := s.hist.draws + 1))
  }

  function Claim(s: State, j: nat): State
    requires j < |s.jobs|
  {
    var t := Zeroed(s, j);
    t.(hist := t.hist.(claims := s.hist.claims + [j], owner := s.hist.owner[j := Own(|s.hist.claims|, true, false)]))
  }

  function Reset(s: State, j: nat): State
    requires j < |s.jobs|
  {
    var t := Zeroed(s, j);
    t.(hist := t.hist.(owner := Renewed(s.hist.owner, j)))
  }

  function FreeStep(cfg: Config, s: State, j: nat, c: nat): State
    requires Enabled(cfg, s, Free(j, c))
  {
    if j < cfg.numSlots
    then SetJob(s, j, s.jobs[j].(state := Completed)).(hist := s.hist.(owner := Released(s.hist.owner, j, c)))
    else s
  }

  function AllocIndex(cfg: Config, s: State): (k: nat)
    requires Shape(cfg, s)
    ensures k <= cfg.numSlots
  {
    FirstFree(SlotStates(cfg, s))
  }

  function Step(cfg: Config, s: State, a: Action): State
    requires Enabled(cfg, s, a)
  {
    match a
    case TakeToken(w) => SetPc(s, w, HasToken).(workSem := s.workSem - 1)
    case Interrupted(_) => s
    case Fetch(w) => FetchStep(cfg, s, w)
    case Execute(w, r) =>
      var e := s.workers[w].entry;
      SetJob(SetPc(s, w, Finishing(e, r)), e.job, s.jobs[e.job].(result := r))
    case Finish(w) => FinishStep(cfg, s, w)
    case Submit(j, toHsm) => SubmitStep(cfg, s, j, toHsm)
    case Cancel(id) => CancelStep(cfg, s, id)
    case Alloc => var k := AllocIndex(cfg, s); if k == cfg.numSlots then s else Claim(s, k)
    case InitJob(j) => Reset(s, j)
    case Free(j, c) => FreeStep(cfg, s, j, c)
    case Wait(_) => s.(completeSem := s.completeSem - 1, hist := s.hist.(waits := s.hist.waits + 1))
    case Shutdown => s.(stop := Posting(cfg.numWorkers))
    case StopPost =>
      if s.stop.left == 0 then s.(stop := Joining(0))
      else s.(stop := Posting(s.stop.left - 1), workSem := cfg.cap.Post(s.workSem))
    case Join => s.(stop := if s.stop.next < |s.workers| then Joining(s.stop.next + 1) else Stopped)
  }

  predicate Executable(cfg: Config, s: State, acts: seq<Action>)
    decreases |acts|
  {
    acts == [] || (Enabled(cfg, s, acts[0]) && Executable(cfg, Step(cfg, s, acts[0]), acts[1..]))
  }

  function Exec(cfg: Config, s: State, acts: seq<Action>): State
    requires Executable(cfg, s, acts)
    decreases |acts|
  {
    if acts == [] then s else Exec(cfg, Step(cfg, s, acts[0]), acts[1..])
  }

  /** `s` is where the pool can get to, over `numJobs` job objects, by some interleaving. */
  ghost predicate Reachable(cfg: Config, numJobs: nat, s: State) {
    exists acts :: Executable(cfg, Initial(cfg, numJobs), acts) && Exec(cfg, Initial(cfg, numJobs), acts) == s
  }

  lemma {:induction false} ExecSnoc(cfg: Config, s: State, acts: seq<Action>, a: Action)
    requires Executable(cfg, s, acts) && Enabled(cfg, Exec(cfg, s, acts), a)
    ensures Executable(cfg, s, acts + [a])
    ensures Exec(cfg, s, acts + [a]) == Step(cfg, Exec(cfg, s, acts), a)
    decreases |acts|
  {
    if acts == [] {
      assert ([a])[1..] == [];
      assert acts + [a] == [a];
    } else {
      assert (acts + [a])[1..] == acts[1..] + [a];
      ExecSnoc(cfg, Step(cfg, s, acts[0]), acts[1..], a);
    }
  }
}
