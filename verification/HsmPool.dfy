/** The three-state client and the worker pool together, joined by jobs on one side and completion events on the
    other.

    Any number of other threads use the same pool, with job objects of their own and with the static slots, as the
    second client of the example does. The completion of a job is posted without waiting, so it is lost when the
    client's message queue is full; and a cancelled job posts nothing. */
module HsmPool {
  import opened PoolCore
  import opened PoolProtocol
  import opened PoolInvariants
  import opened HsmClient
  import PoolTheorems
  import Hsm

  /** Events in the client's message queue. */
  datatype Msg = Posted(sig: int) | Completion(job: nat)

  /** Signals that anybody may post: those the machine names, except WORK_ERROR and the completions posted by workers. */
  predicate Postable(sig: int) {
    Named(sig) && sig != WORK_ERROR && sig != WORK_COMPLETE
  }

  /** Where the client's thread is: waiting for an event, or at a pool call in the middle of a dispatch. */
  datatype Phase =
    | Resting
    | Allocating
    | Initialising(slot: nat)
    | Submitting(slot: nat)
    | Releasing(slot: nat)       // the submission was refused
    | Closing(done: Done)        // a completion was received and read
    | Cancelling(id: nat)
  {
    /** A slot has been handed to the client, which has not submitted it. */
    predicate Preparing() {
      Initialising? || Submitting? || Releasing?
    }
  }

  /** The fields from `claim` on are history: what a move does to the others does not depend on them; only what the other
      threads may do, and which claim the client releases, is said in terms of them. `claim` is the client's latest claim
      and `mine` holds all its claims. `shared` says that the client and another thread once held live claims on one slot;
      `stranded` that the client's job was taken out of the queue or its completion was dropped; `verdict` is what the
      function of its last finished job returned, `jobId` the id that its last job had when it was submitted. */
  datatype System = System(
    pool: State, mq: seq<Msg>, view: View, phase: Phase,
    claim: nat, mine: set<nat>, shared: bool, stranded: bool, verdict: int, jobId: nat)

  datatype Move =
    | Others(a: Action)        // a worker, another client, or the thread that stops the pool
    | Post(sig: int)
    | Receive
    | CallPool                 // the client's next pool call

  function Initial(cfg: Config, numJobs: nat): System {
    System(PoolProtocol.Initial(cfg, numJobs), [], START, Resting, 0, {}, false, false, 0, 0)
  }

  /** The job tells the client when it is done. */
  predicate Notifies(p: State, j: nat) {
    j < |p.jobs| && p.jobs[j].notify
  }

  /** A static slot that somebody else was given last, or that has two owners. */
  predicate Theirs(s: System, j: nat) {
    j in s.pool.hist.owner && (s.pool.hist.owner[j].claim !in s.mine || s.shared)
  }

  /** What the other threads do: they allocate and free static slots like the client, use the slots they were given
      last, and cancel by whatever id they have. */
  predicate OthersMay(cfg: Config, s: System, a: Action)
    requires Enabled(cfg, s.pool, a)
  {
    match a
    case Submit(j, toHsm) => !toHsm && (j < cfg.numSlots ==> Theirs(s, j))
    case InitJob(j) => j < cfg.numSlots ==> Theirs(s, j)
    case Free(j, c) => j < cfg.numSlots ==> c !in s.mine
    case _ => true
  }

  /** The pool call that the client is about to make. */
  function NextCall(s: System): Action
    requires s.phase != Resting
  {
    match s.phase
    case Allocating => Alloc
    case Initialising(j) => InitJob(j)
    case Submitting(j) => Submit(j, true)
    case Releasing(j) => Free(j, s.claim)
    case Closing(d) => Free(d.job, s.claim)
    case Cancelling(id) => Cancel(id)
  }

  predicate Can(cfg: Config, cap: nat, s: System, m: Move) {
    match m
    case Others(a) => Enabled(cfg, s.pool, a) && OthersMay(cfg, s, a)
    case Post(sig) => Postable(sig)
    case Receive => s.phase == Resting && s.mq != [] && AtRest(s.view) && (s.mq[0].Posted? ==> Postable(s.mq[0].sig))
                    && (s.mq[0].Completion? ==> s.mq[0].job < |s.pool.jobs|)
                    && (s.view.job.Some? ==> s.view.job.value < |s.pool.jobs|)
    case CallPool => s.phase != Resting && Enabled(cfg, s.pool, NextCall(s)) && AtRest(s.view) && PhaseFits(s.view, s.phase)
  }

  predicate PhaseFits(v: View, phase: Phase) {
    match phase
    case Resting => true
    case Closing(_) => v.active.current == PROCESSING
    case Cancelling(_) => v.active.current == PROCESSING
    case _ => v.active.current == IDLE
  }

  /** A worker finishes a job; if the job names the client, its completion is posted, or lost. */
  function Finished(cfg: Config, cap: nat, s: System, w: nat): System
    requires Enabled(cfg, s.pool, Finish(w))
  {
    var j := s.pool.workers[w].entry.job;
    var s' := s.(pool := FinishStep(cfg, s.pool, w));
    if !Notifies(s.pool, j) then s'
    else if |s.mq| < cap then s'.(mq := s.mq + [Completion(j)], verdict := s.pool.workers[w].returned)
    else s'.(stranded := true, verdict := s.pool.workers[w].returned)
  }

  /** Another thread is given a slot; if the client holds it and has not submitted it, they share it now. */
  function Allocated(cfg: Config, s: System): System
    requires Enabled(cfg, s.pool, Alloc)
  {
    var k := AllocIndex(cfg, s.pool);
    s.(pool := Step(cfg, s.pool, Alloc),
       shared := s.shared || (k < cfg.numSlots && s.phase.Preparing() && s.phase.slot == k))
  }

  /** A cancel of `id` takes a job out of the queue that notifies the client. */
  predicate Hits(cfg: Config, p: State, id: nat)
    requires Shape(cfg, p)
  {
    var k := CancelIndex(cfg, p, id);
    k < |p.core.queue| && Notifies(p, p.core.queue[k].job)
  }

  /** Another thread cancels a job; if it is the client's, nobody tells the client. */
  function TakenOut(cfg: Config, s: System, id: nat): System
    requires Enabled(cfg, s.pool, Cancel(id))
  {
    s.(pool := CancelStep(cfg, s.pool, id), stranded := s.stranded || Hits(cfg, s.pool, id))
  }

  /** The dispatcher takes the oldest event and calls the handler of the current state. */
  function Received(s: System): System
    requires s.mq != [] && AtRest(s.view) && (s.mq[0].Posted? ==> Postable(s.mq[0].sig))
    requires s.mq[0].Completion? ==> s.mq[0].job < |s.pool.jobs|
    requires s.view.job.Some? ==> s.view.job.value < |s.pool.jobs|
  {
    s.(mq := s.mq[1..], phase := Answer(s.pool, s.view, s.mq[0]))
  }

  /** What the handler of the current state does first with an event. */
  function Answer(p: State, v: View, m: Msg): Phase
    requires m.Completion? ==> m.job < |p.jobs|
    requires v.job.Some? ==> v.job.value < |p.jobs|
  {
    var busy := v.active.current == PROCESSING;
    match m
    case Completion(j) => if busy then Closing(Done(j, p.jobs[j].result)) else Resting
    case Posted(sig) =>
      if !busy && sig == WORK_START then Allocating
      else if busy && sig == WORK_CANCEL && v.job.Some? then Cancelling(p.jobs[v.job.value].id)
      else Resting
  }

  /** The end of a dispatch: the view moves as the verified handlers move it. */
  function Conclude(s: System, ev: Event, answers: Answers): System
    requires AtRest(s.view) && Safe(s.view, ev.sig)
  {
    s.(view := React(s.view, ev, answers), phase := Resting)
  }

  function CallMade(cfg: Config, s: System): System
    requires s.phase != Resting && Enabled(cfg, s.pool, NextCall(s)) && AtRest(s.view) && PhaseFits(s.view, s.phase)
  {
    var s' := s.(pool := Step(cfg, s.pool, NextCall(s)));
    var start := Event(WORK_START, Hsm.None);
    match s.phase
    case Allocating =>
      var k := AllocIndex(cfg, s.pool);
      if k == cfg.numSlots then Conclude(s', start, Answers(Hsm.None, false))
      else
        var owner, c := s.pool.hist.owner, |s.pool.hist.claims|;
        s'.(phase := Initialising(k), claim := c, mine := s.mine + {c},
            shared := s.shared || (k in owner && owner[k].live))
    case Initialising(j) => s'.(phase := Submitting(j))
    case Submitting(j) =>
      if Accepts(cfg, s.pool)
      then Conclude(s'.(jobId := s'.pool.jobs[j].id), start, Answers(Hsm.Some(j), true))
      else s'.(phase := Releasing(j))
    case Releasing(j) => Conclude(s', start, Answers(Hsm.Some(j), false))
    case Closing(d) => Conclude(s', Event(WORK_COMPLETE, Hsm.Some(d)), Answers(Hsm.None, false))
    case Cancelling(id) =>
      Conclude(s'.(stranded := s.stranded || Hits(cfg, s.pool, id)), Event(WORK_CANCEL, Hsm.None), Answers(Hsm.None, false))
  }

  function Next(cfg: Config, cap: nat, s: System, m: Move): System
    requires Can(cfg, cap, s, m)
  {
    match m
    case Others(a) =>
      if a.Finish? then Finished(cfg, cap, s, a.w)
      else if a.Alloc? then Allocated(cfg, s)
      else if a.Cancel? then TakenOut(cfg, s, a.id)
      else s.(pool := Step(cfg, s.pool, a))
    case Post(sig) => if |s.mq| < cap then s.(mq := s.mq + [Posted(sig)]) else s
    case Receive => Received(s)
    case CallPool => CallMade(cfg, s)
  }

  predicate Runnable(cfg: Config, cap: nat, s: System, moves: seq<Move>)
    decreases |moves|
  {
    moves == [] || (Can(cfg, cap, s, moves[0]) && Runnable(cfg, cap, Next(cfg, cap, s, moves[0]), moves[1..]))
  }

  function RunTo(cfg: Config, cap: nat, s: System, moves: seq<Move>): System
    requires Runnable(cfg, cap, s, moves)
    decreases |moves|
  {
    if moves == [] then s else RunTo(cfg, cap, Next(cfg, cap, s, moves[0]), moves[1..])
  }

  // ----- How the pool's actions move jobs

  ghost predicate SameFlight(p: State, q: State) {
    forall k: nat :: (Queued(q, k) <==> Queued(p, k)) && (Held(q, k) <==> Held(p, k))
  }

  lemma FlightFetch(cfg: Config, p: State, w: nat)
    requires Structure(cfg, p) && Enabled(cfg, p, Fetch(w)) && p.stop == Live && p.core.queue != []
    ensures var q, j := FetchStep(cfg, p, w), p.core.queue[0].job;
      forall k: nat :: (Queued(q, k) <==> Queued(p, k) && k != j) && (Held(q, k) <==> Held(p, k) || k == j)
  {
    var q, j := FetchStep(cfg, p, w), p.core.queue[0].job;
    forall k: nat ensures (Queued(q, k) <==> Queued(p, k) && k != j) && (Held(q, k) <==> Held(p, k) || k == j) {
      if i :| 0 <= i < |p.core.queue| && p.core.queue[i].job == k && k != j {
        assert q.core.queue[i - 1].job == k;
      }
      if v :| 0 <= v < |p.workers| && p.workers[v].Active() && p.workers[v].entry.job == k {
        assert q.workers[v].Active() && q.workers[v].entry.job == k;
      }
      assert q.workers[w].Active() && q.workers[w].entry.job == j;
    }
  }

  lemma FlightFinish(cfg: Config, p: State, w: nat)
    requires Structure(cfg, p) && Enabled(cfg, p, Finish(w))
    ensures var q, j := FinishStep(cfg, p, w), p.workers[w].entry.job;
      Held(p, j) && forall k: nat :: (Queued(q, k) <==> Queued(p, k)) && (Held(q, k) <==> Held(p, k) && k != j)
  {
    var q, j := FinishStep(cfg, p, w), p.workers[w].entry.job;
    assert p.workers[w].Active();
    forall k: nat ensures (Queued(q, k) <==> Queued(p, k)) && (Held(q, k) <==> Held(p, k) && k != j) {
      if v :| 0 <= v < |p.workers| && p.workers[v].Active() && p.workers[v].entry.job == k && k != j {
        assert q.workers[v].Active() && q.workers[v].entry.job == k;
      }
    }
  }

  lemma FlightSubmit(cfg: Config, p: State, j: nat, toHsm: bool)
    requires Enabled(cfg, p, Submit(j, toHsm)) && Accepts(cfg, p)
    ensures var q := SubmitStep(cfg, p, j, toHsm);
      forall k: nat :: (Queued(q, k) <==> Queued(p, k) || k == j) && (Held(q, k) <==> Held(p, k))
  {
    var q := SubmitStep(cfg, p, j, toHsm);
    forall k: nat ensures (Queued(q, k) <==> Queued(p, k) || k == j) && (Held(q, k) <==> Held(p, k)) {
      assert q.core.queue[|p.core.queue|].job == j;
      if i :| 0 <= i < |p.core.queue| && p.core.queue[i].job == k {
        assert q.core.queue[i].job == k;
      }
    }
  }

  lemma FlightCancel(cfg: Config, p: State, id: nat)
    requires Structure(cfg, p) && Enabled(cfg, p, Cancel(id)) && CancelIndex(cfg, p, id) < |p.core.queue|
    ensures var q, j := CancelStep(cfg, p, id), p.core.queue[CancelIndex(cfg, p, id)].job;
      Queued(p, j) && forall k: nat :: (Queued(q, k) <==> Queued(p, k) && k != j) && (Held(q, k) <==> Held(p, k))
  {
    QueuedAfterCut(p, CancelStep(cfg, p, id), CancelIndex(cfg, p, id));
  }

  lemma QueuedAfterCut(p: State, q: State, c: nat)
    requires JobsDistinct(p) && c < |p.core.queue| && q.core.queue == p.core.queue[..c] + p.core.queue[c + 1..]
    ensures forall k: nat :: Queued(q, k) <==> Queued(p, k) && k != p.core.queue[c].job
  {
    var j := p.core.queue[c].job;
    Cut(p.core.queue, c);
    forall k: nat ensures Queued(q, k) <==> Queued(p, k) && k != j {
      if i :| 0 <= i < |p.core.queue| && p.core.queue[i].job == k && k != j {
        assert q.core.queue[if i < c then i else i - 1].job == k;
      }
    }
  }

  /** No other action moves a job into, through or out of the pool. */
  predicate Moves(cfg: Config, p: State, a: Action)
    requires Enabled(cfg, p, a)
  {
    || (a.Fetch? && p.stop == Live && p.core.queue != [])
    || a.Finish?
    || (a.Submit? && Accepts(cfg, p))
    || (a.Cancel? && CancelIndex(cfg, p, a.id) < |p.core.queue|)
  }

  lemma FlightSame(cfg: Config, p: State, a: Action)
    requires Enabled(cfg, p, a) && !Moves(cfg, p, a)
    ensures SameFlight(p, Step(cfg, p, a))
  {
    var q := Step(cfg, p, a);
    assert q.core.queue == p.core.queue;
    forall k: nat ensures Held(q, k) <==> Held(p, k) {
      if v :| 0 <= v < |p.workers| && p.workers[v].Active() && p.workers[v].entry.job == k {
        assert q.workers[v].Active() && q.workers[v].entry.job == k;
      }
      if v :| 0 <= v < |q.workers| && q.workers[v].Active() && q.workers[v].entry.job == k {
        assert p.workers[v].Active() && p.workers[v].entry.job == k;
      }
    }
  }

  // ----- The invariant of the whole

  ghost function One(b: bool): nat { if b then 1 else 0 }

  ghost predicate Busy(s: System) {
    s.view.active.current == PROCESSING
  }

  /** The client is in `processing` and has not received its completion. */
  ghost predicate Expecting(s: System) {
    Busy(s) && !s.phase.Closing?
  }

  /** The latest claim on the slot of the client's job is the client's: no allocation has returned it since. */
  ghost predicate Kept(s: System) {
    && s.view.job.Some? && s.view.job.value in s.pool.hist.owner
    && s.pool.hist.owner[s.view.job.value].claim == s.claim
  }

  ghost predicate QueuedFor(p: State, j: nat) { Queued(p, j) && Notifies(p, j) }

  ghost predicate HeldFor(p: State, j: nat) { Held(p, j) && Notifies(p, j) }

  /** In how many places the pool, the message queue or nobody at all owes the client an answer for job `j`. */
  ghost function Traces(s: System, j: nat): nat {
    One(QueuedFor(s.pool, j)) + One(HeldFor(s.pool, j)) + Times(s.mq, Completion(j)) + One(s.stranded)
  }

  /** No job but `j` (if any) that notifies the client is in the pool or named by a completion event. */
  ghost predicate NoOther(s: System, j: Hsm.Option<nat>) {
    && (forall k: nat :: j != Hsm.Some(k) ==> !QueuedFor(s.pool, k) && !HeldFor(s.pool, k))
    && (forall k: nat :: j != Hsm.Some(k) ==> Times(s.mq, Completion(k)) == 0)
  }

  ghost predicate Tracked(s: System) {
    if Expecting(s) then s.view.job.Some? && Traces(s, s.view.job.value) == 1 && NoOther(s, s.view.job)
    else !s.stranded && NoOther(s, Hsm.None)
  }

  /** Only static slots notify the client. */
  ghost predicate Marks(cfg: Config, p: State) {
    forall k: nat :: Notifies(p, k) ==> k < cfg.numSlots
  }

  ghost predicate Events(cfg: Config, mq: seq<Msg>) {
    forall m <- mq :: if m.Posted? then Postable(m.sig) else m.job < cfg.numSlots
  }

  ghost predicate InRange(cfg: Config, v: View, phase: Phase) {
    && AtRest(v) && PhaseFits(v, phase)
    && (phase.Preparing() ==> phase.slot < cfg.numSlots)
    && (phase.Closing? ==> phase.done.job < cfg.numSlots)
    && (v.job.Some? ==> v.job.value < cfg.numSlots)
  }

  ghost predicate Sound(cfg: Config, s: System) {
    && Inv(cfg, s.pool) && Marks(cfg, s.pool) && Events(cfg, s.mq) && InRange(cfg, s.view, s.phase)
    && (forall c <- s.mine :: c < |s.pool.hist.claims|)
  }

  /** Who has been given which slot: only jobs that the client was given last notify it; a slot it prepares is its own
      alone; and a job of its own in the pool cannot be handed out. */
  ghost predicate Owned(s: System) {
    && OwnMarks(s.pool, s.mine)
    && (s.phase.Preparing() ==> Holds(s, s.phase.slot))
    && (Busy(s) ==> s.view.job.Some? && Claims(s, s.view.job.value))
    && (s.phase.Closing? ==> s.view.job == Hsm.Some(s.phase.done.job))
    && (Busy(s) ==> Guarded(s, s.view.job.value))
  }

  ghost predicate OwnMarks(p: State, mine: set<nat>) {
    forall k: nat :: Notifies(p, k) ==> k in p.hist.owner && p.hist.owner[k].claim in mine
  }

  ghost predicate Guarded(s: System, j: nat) {
    && (Kept(s) ==> Notifies(s.pool, j))
    && (QueuedFor(s.pool, j) || HeldFor(s.pool, j) ==> Kept(s))
  }

  ghost predicate Holds(s: System, k: nat) {
    && k in s.pool.hist.owner && s.pool.hist.owner[k].claim == s.claim && s.pool.hist.owner[k].live
    && Claims(s, k)
  }

  ghost predicate Claims(s: System, k: nat) {
    s.claim in s.mine && s.claim < |s.pool.hist.claims| && s.pool.hist.claims[s.claim] == k
  }

  /** As long as the slot has not been handed out again, a completion event, and a completion being handled, show the
      client what its function returned, and a cancel names its job. */
  ghost predicate Faithful(s: System) {
    Kept(s) && s.view.job.value < |s.pool.jobs| ==>
      && (Expecting(s) && 0 < Times(s.mq, Completion(s.view.job.value)) ==>
            s.pool.jobs[s.view.job.value].result == s.verdict)
      && (s.phase.Closing? ==> s.phase.done.result == s.verdict)
      && (s.phase.Cancelling? ==> s.phase.id == s.pool.jobs[s.view.job.value].id)
  }

  ghost predicate Exclusive(s: System) {
    Owned(s) && Tracked(s) && Faithful(s)
  }

  ghost predicate Base(cfg: Config, s: System) {
    Sound(cfg, s) && (!s.shared ==> Exclusive(s))
  }

  /** Before the id counter wraps: the slot of the client's job has the id it had when the client submitted it exactly as
      long as the slot has not been handed out again; and the id that the client is about to cancel is found on that
      slot or nowhere. */
  ghost predicate Identified(s: System) {
    s.pool.hist.draws < U32 && Busy(s) && s.view.job.Some? && s.view.job.value < |s.pool.jobs| ==>
      && s.jobId <= s.pool.hist.draws && (Kept(s) <==> s.pool.jobs[s.view.job.value].id == s.jobId)
      && (s.phase.Cancelling? ==> Aims(s.pool, s.phase.id, s.view.job.value))
  }

  ghost predicate Aims(p: State, id: nat, j: nat) {
    id <= p.hist.draws && (id != 0 ==> forall i :: 0 <= i < |p.jobs| && i != j ==> p.jobs[i].id != id)
  }

  ghost predicate Joint(cfg: Config, s: System) {
    Base(cfg, s) && (!s.shared ==> Identified(s))
  }

  // ----- Claims and records under an action of the pool

  /** Only an allocation changes which claim is the latest on a slot. */
  lemma ClaimNumbers(cfg: Config, p: State, a: Action)
    requires Enabled(cfg, p, a)
    ensures var q, k := Step(cfg, p, a), AllocIndex(cfg, p);
      if a.Alloc? && k < cfg.numSlots
      then q.hist.claims == p.hist.claims + [k] && q.hist.owner == p.hist.owner[k := Own(|p.hist.claims|, true, false)]
      else SameClaims(p, q)
  {
  }

  ghost predicate SameClaims(p: State, q: State) {
    && q.hist.claims == p.hist.claims && q.hist.owner.Keys == p.hist.owner.Keys
    && forall k <- p.hist.owner :: q.hist.owner[k].claim == p.hist.owner[k].claim
  }

  /** A client call that may write the id, the result or the target of job `k`. */
  predicate Writes(cfg: Config, p: State, a: Action, k: nat)
    requires Enabled(cfg, p, a)
  {
    (a.Submit? && a.job == k) || a == InitJob(k) || (a.Alloc? && AllocIndex(cfg, p) == k < cfg.numSlots)
  }

  /** Otherwise only the worker that executes a job changes its result. */
  lemma RecordSteady(cfg: Config, p: State, a: Action, k: nat)
    requires Enabled(cfg, p, a) && k < |p.jobs| && !Writes(cfg, p, a, k)
    ensures var q := Step(cfg, p, a);
      && |q.jobs| == |p.jobs| && q.jobs[k].notify == p.jobs[k].notify && q.jobs[k].id == p.jobs[k].id
      && (!Held(p, k) ==> q.jobs[k].result == p.jobs[k].result)
  {
  }

  lemma RecordWritten(cfg: Config, p: State, a: Action, k: nat)
    requires Enabled(cfg, p, a) && k < |p.jobs| && Writes(cfg, p, a, k)
    ensures var q := Step(cfg, p, a);
      |q.jobs| == |p.jobs| && (q.jobs[k].notify ==> a.Submit? && (p.jobs[k].notify || a.toHsm))
  {
  }

  /** Others never make a job notify the client. */
  lemma OthersNotifyLess(cfg: Config, s: System, a: Action)
    requires Enabled(cfg, s.pool, a) && OthersMay(cfg, s, a)
    ensures forall k: nat :: Notifies(Step(cfg, s.pool, a), k) ==> Notifies(s.pool, k)
    ensures |Step(cfg, s.pool, a).jobs| == |s.pool.jobs|
  {
    forall k: nat | Notifies(Step(cfg, s.pool, a), k) ensures Notifies(s.pool, k) {
      if Writes(cfg, s.pool, a, k) {
        RecordWritten(cfg, s.pool, a, k);
      } else {
        RecordSteady(cfg, s.pool, a, k);
      }
    }
  }

  /** The client was given job `k` last, so nobody else writes it, except by an allocation. */
  lemma OthersLeave(cfg: Config, s: System, a: Action, k: nat)
    requires !s.shared && Enabled(cfg, s.pool, a) && OthersMay(cfg, s, a)
    requires k < cfg.numSlots && k in s.pool.hist.owner && s.pool.hist.owner[k].claim in s.mine
    requires !(a.Alloc? && AllocIndex(cfg, s.pool) == k)
    ensures !Writes(cfg, s.pool, a, k)
  {
  }

  /** As long as no slot is shared, the others clear that mark only by an allocation. */
  lemma OthersNotify(cfg: Config, s: System, a: Action)
    requires Owned(s) && !s.shared && Enabled(cfg, s.pool, a) && OthersMay(cfg, s, a)
    requires Marks(cfg, s.pool)
    ensures forall k: nat :: Notifies(Step(cfg, s.pool, a), k)
                             <==> Notifies(s.pool, k) && !(a.Alloc? && AllocIndex(cfg, s.pool) == k)
  {
    OthersNotifyLess(cfg, s, a);
    forall k: nat | Notifies(s.pool, k)
      ensures Notifies(Step(cfg, s.pool, a), k) <==> !(a.Alloc? && AllocIndex(cfg, s.pool) == k)
    {
      if a.Alloc? && AllocIndex(cfg, s.pool) == k {
        RecordWritten(cfg, s.pool, a, k);
      } else {
        OthersLeave(cfg, s, a, k);
        RecordSteady(cfg, s.pool, a, k);
      }
    }
  }

  /** The client's jobs stay where they are, unless a worker takes or finishes one. */
  ghost predicate SameFlightFor(p: State, q: State) {
    forall k: nat :: (QueuedFor(q, k) <==> QueuedFor(p, k)) && (HeldFor(q, k) <==> HeldFor(p, k))
  }

  /** No job changes its place, and only a job that is not in the pool its mark. */
  lemma FlightForSame(p: State, q: State)
    requires SameFlight(p, q) && forall k: nat :: (Notifies(q, k) <==> Notifies(p, k)) || !InFlight(p, k)
    ensures SameFlightFor(p, q)
  {
  }

  lemma OthersFlight(cfg: Config, s: System, a: Action)
    requires Owned(s) && !s.shared && Structure(cfg, s.pool) && Enabled(cfg, s.pool, a) && OthersMay(cfg, s, a)
    requires Marks(cfg, s.pool)
    requires !a.Finish? && !a.Cancel? && !(a.Fetch? && Moves(cfg, s.pool, a))
    ensures SameFlightFor(s.pool, Step(cfg, s.pool, a))
  {
    OthersNotify(cfg, s, a);
    if a.Submit? && Accepts(cfg, s.pool) {
      FlightSubmit(cfg, s.pool, a.job, a.toHsm);
      assert !Notifies(s.pool, a.job);
    } else {
      FlightSame(cfg, s.pool, a);
      if a.Alloc? && AllocIndex(cfg, s.pool) < cfg.numSlots {
        FreeNotInFlight(cfg, s.pool, AllocIndex(cfg, s.pool));
      }
      FlightForSame(s.pool, Step(cfg, s.pool, a));
    }
  }

  // ----- Moves of the other threads

  lemma SoundFrame(cfg: Config, s: System, t: System)
    requires Sound(cfg, s) && Inv(cfg, t.pool)
    requires t.view == s.view && t.phase == s.phase && t.mine == s.mine
    requires |s.pool.hist.claims| <= |t.pool.hist.claims|
    requires forall k: nat :: Notifies(t.pool, k) ==> Notifies(s.pool, k)
    requires forall m <- t.mq :: m in s.mq || (m.Completion? && Notifies(s.pool, m.job))
    ensures Sound(cfg, t)
  {
  }

  lemma OthersChange(cfg: Config, cap: nat, s: System, a: Action)
    requires Can(cfg, cap, s, Others(a))
    ensures var t := Next(cfg, cap, s, Others(a));
      && t.pool == Step(cfg, s.pool, a) && t.view == s.view && t.phase == s.phase && t.mine == s.mine && t.claim == s.claim
      && t.jobId == s.jobId
      && (forall m <- t.mq :: m in s.mq || (m.Completion? && Notifies(s.pool, m.job)))
  {
  }

  lemma OthersKeepSound(cfg: Config, cap: nat, s: System, a: Action)
    requires Sound(cfg, s) && Can(cfg, cap, s, Others(a))
    ensures Sound(cfg, Next(cfg, cap, s, Others(a)))
  {
    var t := Next(cfg, cap, s, Others(a));
    OthersChange(cfg, cap, s, a);
    InvStep(cfg, s.pool, a);
    OthersNotifyLess(cfg, s, a);
    ClaimNumbers(cfg, s.pool, a);
    SoundFrame(cfg, s, t);
  }

  /** A slot that the client holds stays held: the others may undercut its claim but not end it. */
  lemma OthersKeepHolds(cfg: Config, s: System, a: Action, k: nat)
    requires Holds(s, k) && k < cfg.numSlots && !s.shared && Enabled(cfg, s.pool, a) && OthersMay(cfg, s, a)
    requires !(a.Alloc? && AllocIndex(cfg, s.pool) == k)
    ensures Holds(s.(pool := Step(cfg, s.pool, a)), k)
  {
    ClaimNumbers(cfg, s.pool, a);
    OthersLeave(cfg, s, a, k);
  }

  /** What the latest claims say about the client's job after an action of the others. */
  lemma OthersKeepKept(cfg: Config, s: System, a: Action)
    requires Enabled(cfg, s.pool, a) && s.view.job.Some? && Claims(s, s.view.job.value) && s.view.job.value < cfg.numSlots
    ensures var t := s.(pool := Step(cfg, s.pool, a));
      && Claims(t, s.view.job.value)
      && (Kept(t) <==> Kept(s) && !(a.Alloc? && AllocIndex(cfg, s.pool) == s.view.job.value))
  {
    ClaimNumbers(cfg, s.pool, a);
  }

  lemma OthersOwnNotified(cfg: Config, s: System, a: Action)
    requires Owned(s) && !s.shared && Enabled(cfg, s.pool, a) && OthersMay(cfg, s, a)
    requires Marks(cfg, s.pool)
    ensures OwnMarks(Step(cfg, s.pool, a), s.mine)
  {
    OthersNotify(cfg, s, a);
    ClaimNumbers(cfg, s.pool, a);
  }

  lemma OthersOwnJob(cfg: Config, s: System, a: Action)
    requires Sound(cfg, s) && Owned(s) && !s.shared && Enabled(cfg, s.pool, a) && OthersMay(cfg, s, a) && Busy(s)
    requires !a.Finish? && !a.Cancel? && !(a.Fetch? && Moves(cfg, s.pool, a))
    ensures Guarded(s.(pool := Step(cfg, s.pool, a)), s.view.job.value)
  {
    OthersNotify(cfg, s, a);
    OthersFlight(cfg, s, a);
    OthersKeepKept(cfg, s, a);
  }

  lemma OthersKeepOwned(cfg: Config, cap: nat, s: System, a: Action)
    requires Base(cfg, s) && !s.shared && Can(cfg, cap, s, Others(a)) && !Next(cfg, cap, s, Others(a)).shared
    requires !a.Finish? && !a.Cancel? && !(a.Fetch? && Moves(cfg, s.pool, a))
    ensures Owned(Next(cfg, cap, s, Others(a)))
  {
    var t := Next(cfg, cap, s, Others(a));
    assert t == s.(pool := Step(cfg, s.pool, a));
    OthersOwnNotified(cfg, s, a);
    if s.phase.Preparing() {
      OthersKeepHolds(cfg, s, a, s.phase.slot);
    }
    if Busy(s) {
      OthersKeepKept(cfg, s, a);
      OthersOwnJob(cfg, s, a);
    }
  }

  lemma OthersKeepTracked(cfg: Config, cap: nat, s: System, a: Action)
    requires Base(cfg, s) && !s.shared && Can(cfg, cap, s, Others(a))
    requires !a.Finish? && !a.Cancel? && !(a.Fetch? && Moves(cfg, s.pool, a))
    ensures Tracked(Next(cfg, cap, s, Others(a)))
  {
    OthersFlight(cfg, s, a);
  }

  /** A job of the client's that has been finished is not in the pool, as long as nobody else was given its slot. */
  lemma FinishedNotHeld(s: System)
    requires Owned(s) && Tracked(s) && Expecting(s) && Kept(s) && 0 < Times(s.mq, Completion(s.view.job.value))
    ensures !InFlight(s.pool, s.view.job.value)
  {
  }

  lemma OthersKeepFaithful(cfg: Config, cap: nat, s: System, a: Action)
    requires Base(cfg, s) && !s.shared && Can(cfg, cap, s, Others(a)) && !a.Finish?
    ensures Faithful(Next(cfg, cap, s, Others(a)))
  {
    if Busy(s) {
      var j := s.view.job.value;
      OthersKeepKept(cfg, s, a);
      if Kept(s) && !(a.Alloc? && AllocIndex(cfg, s.pool) == j) {
        OthersLeave(cfg, s, a, j);
        RecordSteady(cfg, s.pool, a, j);
        if Expecting(s) && 0 < Times(s.mq, Completion(j)) {
          FinishedNotHeld(s);
        }
      }
    }
  }

  lemma FetchFlight(cfg: Config, s: System, w: nat)
    requires Sound(cfg, s) && Owned(s) && !s.shared
    requires Enabled(cfg, s.pool, Fetch(w)) && s.pool.stop == Live && s.pool.core.queue != []
    ensures var q, j := FetchStep(cfg, s.pool, w), s.pool.core.queue[0].job;
      forall k: nat :: (QueuedFor(q, k) <==> QueuedFor(s.pool, k) && k != j)
                       && (HeldFor(q, k) <==> HeldFor(s.pool, k) || (k == j && QueuedFor(s.pool, j)))
  {
    OthersNotify(cfg, s, Fetch(w));
    FlightFetch(cfg, s.pool, w);
    assert Queued(s.pool, s.pool.core.queue[0].job);
  }

  lemma FetchKeepsTracked(cfg: Config, s: System, w: nat)
    requires Base(cfg, s) && !s.shared
    requires Enabled(cfg, s.pool, Fetch(w)) && s.pool.stop == Live && s.pool.core.queue != []
    ensures Tracked(s.(pool := FetchStep(cfg, s.pool, w)))
  {
    FetchFlight(cfg, s, w);
  }

  lemma FetchKeepsOwned(cfg: Config, s: System, w: nat)
    requires Base(cfg, s) && !s.shared
    requires Enabled(cfg, s.pool, Fetch(w)) && s.pool.stop == Live && s.pool.core.queue != []
    ensures Owned(s.(pool := FetchStep(cfg, s.pool, w)))
  {
    OthersOwnNotified(cfg, s, Fetch(w));
    OthersNotify(cfg, s, Fetch(w));
    FetchFlight(cfg, s, w);
  }

  // ----- A worker finishes a job

  lemma FinishFlight(cfg: Config, s: System, w: nat)
    requires Sound(cfg, s) && Owned(s) && !s.shared && Enabled(cfg, s.pool, Finish(w))
    ensures var q, j := FinishStep(cfg, s.pool, w), s.pool.workers[w].entry.job;
      && (HeldFor(s.pool, j) <==> Notifies(s.pool, j))
      && forall k: nat :: (QueuedFor(q, k) <==> QueuedFor(s.pool, k)) && (HeldFor(q, k) <==> HeldFor(s.pool, k) && k != j)
  {
    OthersNotify(cfg, s, Finish(w));
    FlightFinish(cfg, s.pool, w);
  }

  /** If it was a job of the client's, it is the one the client waits for. */
  lemma FinishIsExpected(cfg: Config, s: System, w: nat)
    requires Base(cfg, s) && !s.shared && Enabled(cfg, s.pool, Finish(w))
    ensures var j := s.pool.workers[w].entry.job;
      Notifies(s.pool, j) ==> Expecting(s) && s.view.job == Hsm.Some(j) && HeldFor(s.pool, j) && Kept(s)
                              && !s.stranded && Times(s.mq, Completion(j)) == 0
  {
    FinishFlight(cfg, s, w);
  }

  lemma FinishTracked(cfg: Config, cap: nat, s: System, w: nat)
    requires Base(cfg, s) && !s.shared && Enabled(cfg, s.pool, Finish(w))
    ensures Tracked(Finished(cfg, cap, s, w))
  {
    FinishFlight(cfg, s, w);
    FinishIsExpected(cfg, s, w);
    TrackedDone(s, Finished(cfg, cap, s, w), s.pool.workers[w].entry.job);
  }

  /** A worker has finished job `j`, the client's own or another. */
  lemma TrackedDone(s: System, t: System, j: nat)
    requires Tracked(s) && t.view == s.view && t.phase == s.phase
    requires forall k: nat :: QueuedFor(t.pool, k) <==> QueuedFor(s.pool, k)
    requires forall k: nat :: HeldFor(t.pool, k) <==> HeldFor(s.pool, k) && k != j
    requires HeldFor(s.pool, j) ==> Expecting(s) && s.view.job == Hsm.Some(j)
    requires if !HeldFor(s.pool, j) then t.mq == s.mq && t.stranded == s.stranded
             else (t.mq == s.mq + [Completion(j)] && t.stranded == s.stranded) || (t.mq == s.mq && t.stranded)
    ensures Tracked(t)
  {
    forall k: nat ensures Times(s.mq + [Completion(j)], Completion(k)) == Times(s.mq, Completion(k)) + One(k == j) {
      TimesOne(s.mq, Completion(j), Completion(k));
    }
    forall k: nat | s.view.job != Hsm.Some(k) || !Expecting(s)
      ensures !QueuedFor(t.pool, k) && !HeldFor(t.pool, k) && Times(t.mq, Completion(k)) == 0
    {
      assert !QueuedFor(s.pool, k) && !HeldFor(s.pool, k) && Times(s.mq, Completion(k)) == 0;
    }
  }

  lemma FinishOwned(cfg: Config, cap: nat, s: System, w: nat)
    requires Base(cfg, s) && !s.shared && Enabled(cfg, s.pool, Finish(w))
    ensures Owned(Finished(cfg, cap, s, w))
  {
    FinishPoolOwned(cfg, s, w);
    OwnedFrame(s.(pool := FinishStep(cfg, s.pool, w)), Finished(cfg, cap, s, w));
  }

  lemma OwnedFrame(s: System, t: System)
    requires Owned(s) && t.pool == s.pool && t.view == s.view && t.phase == s.phase
    requires t.claim == s.claim && t.mine == s.mine
    ensures Owned(t)
  {
  }

  lemma FinishPoolOwned(cfg: Config, s: System, w: nat)
    requires Base(cfg, s) && !s.shared && Enabled(cfg, s.pool, Finish(w))
    ensures Owned(s.(pool := FinishStep(cfg, s.pool, w)))
  {
    OthersOwnNotified(cfg, s, Finish(w));
    OthersNotify(cfg, s, Finish(w));
    FinishFlight(cfg, s, w);
  }

  lemma FinishFaithful(cfg: Config, cap: nat, s: System, w: nat)
    requires Base(cfg, s) && !s.shared && Enabled(cfg, s.pool, Finish(w))
    ensures Faithful(Finished(cfg, cap, s, w))
  {
    FinishIsExpected(cfg, s, w);
    var j := s.pool.workers[w].entry.job;
    assert s.pool.workers[w].Active() && s.pool.jobs[j].result == s.pool.workers[w].returned;
    if Busy(s) {
      OthersKeepKept(cfg, s, Finish(w));
    }
  }

  lemma FinishKeeps(cfg: Config, cap: nat, s: System, a: Action)
    requires Base(cfg, s) && !s.shared && Can(cfg, cap, s, Others(a)) && a.Finish?
    ensures Exclusive(Next(cfg, cap, s, Others(a)))
  {
    FinishTracked(cfg, cap, s, a.w);
    FinishOwned(cfg, cap, s, a.w);
    FinishFaithful(cfg, cap, s, a.w);
  }

  lemma FetchKeeps(cfg: Config, cap: nat, s: System, a: Action)
    requires Base(cfg, s) && !s.shared && Can(cfg, cap, s, Others(a)) && a.Fetch? && Moves(cfg, s.pool, a)
    ensures Exclusive(Next(cfg, cap, s, Others(a)))
  {
    OthersKeepFaithful(cfg, cap, s, a);
    FetchKeepsTracked(cfg, s, a.w);
    FetchKeepsOwned(cfg, s, a.w);
  }

  lemma RestKeeps(cfg: Config, cap: nat, s: System, a: Action)
    requires Base(cfg, s) && !s.shared && Can(cfg, cap, s, Others(a)) && !Next(cfg, cap, s, Others(a)).shared
    requires !a.Finish? && !a.Cancel? && !(a.Fetch? && Moves(cfg, s.pool, a))
    ensures Exclusive(Next(cfg, cap, s, Others(a)))
  {
    OthersKeepFaithful(cfg, cap, s, a);
    OthersKeepTracked(cfg, cap, s, a);
    OthersKeepOwned(cfg, cap, s, a);
  }

  lemma OthersKeep(cfg: Config, cap: nat, s: System, a: Action)
    requires Base(cfg, s) && Can(cfg, cap, s, Others(a))
    ensures Base(cfg, Next(cfg, cap, s, Others(a)))
  {
    OthersKeepSound(cfg, cap, s, a);
    if !Next(cfg, cap, s, Others(a)).shared {
      assert !s.shared;
      if a.Finish? {
        FinishKeeps(cfg, cap, s, a);
      } else if a.Fetch? && Moves(cfg, s.pool, a) {
        FetchKeeps(cfg, cap, s, a);
      } else if a.Cancel? {
        OthersCancelKeeps(cfg, cap, s, a);
      } else {
        RestKeeps(cfg, cap, s, a);
      }
    }
  }

  // ----- Moves of the message queue and of the client

  lemma PostKeeps(cfg: Config, cap: nat, s: System, sig: int)
    requires Base(cfg, s) && Postable(sig)
    ensures Base(cfg, Next(cfg, cap, s, Post(sig)))
  {
    var t := Next(cfg, cap, s, Post(sig));
    forall k: nat ensures Times(t.mq, Completion(k)) == Times(s.mq, Completion(k)) {
      TimesOne(s.mq, Posted(sig), Completion(k));
    }
    assert Events(cfg, t.mq);
    MqFrame(cfg, s, t);
  }

  /** Events that are no completions do not matter. */
  lemma MqFrame(cfg: Config, s: System, t: System)
    requires Base(cfg, s) && t == s.(mq := t.mq) && Events(cfg, t.mq)
    requires forall k: nat :: Times(t.mq, Completion(k)) == Times(s.mq, Completion(k))
    ensures Base(cfg, t)
  {
    if !s.shared {
      OwnedFrame(s, t);
    }
  }

  lemma ReceiveCounts(s: System)
    requires s.mq != []
    ensures forall k: nat ::
      Times(s.mq, Completion(k)) == Times(s.mq[1..], Completion(k)) + One(s.mq[0] == Completion(k))
  {
    forall k: nat
      ensures Times(s.mq, Completion(k)) == Times(s.mq[1..], Completion(k)) + One(s.mq[0] == Completion(k))
    {
      TimesHead(s.mq, Completion(k));
    }
  }

  lemma AnswerInRange(cfg: Config, p: State, v: View, m: Msg)
    requires InRange(cfg, v, Resting) && cfg.numSlots <= |p.jobs| && (m.Completion? ==> m.job < cfg.numSlots)
    ensures InRange(cfg, v, Answer(p, v, m)) && !Answer(p, v, m).Preparing()
  {
  }

  lemma ReceiveKeepsSound(cfg: Config, cap: nat, s: System)
    requires Sound(cfg, s) && Can(cfg, cap, s, Receive)
    ensures Sound(cfg, Received(s))
  {
    assert s.mq[0] in s.mq;
    AnswerInRange(cfg, s.pool, s.view, s.mq[0]);
    assert Events(cfg, s.mq[1..]);
  }

  /** The only completion in the queue is that of the job the client waits for. */
  lemma ReceiveIsExpected(s: System)
    requires Tracked(s) && s.phase == Resting && s.mq != [] && s.mq[0].Completion?
    ensures Expecting(s) && s.view.job == Hsm.Some(s.mq[0].job) && !s.stranded
    ensures Times(s.mq, s.mq[0]) == 1
    ensures !QueuedFor(s.pool, s.mq[0].job) && !HeldFor(s.pool, s.mq[0].job)
  {
    ReceiveCounts(s);
  }

  lemma ReceiveCompletion(cfg: Config, cap: nat, s: System)
    requires Sound(cfg, s) && Exclusive(s) && Can(cfg, cap, s, Receive) && s.mq[0].Completion?
    ensures Exclusive(Received(s))
  {
    ReceiveCounts(s);
    ReceiveIsExpected(s);
  }

  lemma ReceivePosted(cfg: Config, cap: nat, s: System)
    requires Sound(cfg, s) && Exclusive(s) && Can(cfg, cap, s, Receive) && s.mq[0].Posted?
    ensures Exclusive(Received(s))
  {
    ReceiveCounts(s);
    AnswerInRange(cfg, s.pool, s.view, s.mq[0]);
    var t := Received(s);
    assert !t.phase.Closing? && !t.phase.Preparing();
    assert Kept(t) == Kept(s) && Expecting(t) == Expecting(s);
  }

  lemma CallNotifies(cfg: Config, cap: nat, s: System)
    requires Can(cfg, cap, s, CallPool)
    ensures forall k: nat :: Notifies(Step(cfg, s.pool, NextCall(s)), k) ==>
      Notifies(s.pool, k) || (s.phase.Submitting? && k == s.phase.slot)
    ensures |Step(cfg, s.pool, NextCall(s)).jobs| == |s.pool.jobs|
  {
    var a := NextCall(s);
    forall k: nat | Notifies(Step(cfg, s.pool, a), k)
      ensures Notifies(s.pool, k) || (s.phase.Submitting? && k == s.phase.slot)
    {
      if Writes(cfg, s.pool, a, k) {
        RecordWritten(cfg, s.pool, a, k);
      } else {
        RecordSteady(cfg, s.pool, a, k);
      }
    }
  }

  lemma LaunchInRange(cfg: Config, cap: nat, s: System)
    requires InRange(cfg, s.view, s.phase) && Can(cfg, cap, s, CallPool) && !s.phase.Closing? && !s.phase.Cancelling?
    ensures var t := CallMade(cfg, s); InRange(cfg, t.view, t.phase)
  {
  }

  lemma SettleInRange(cfg: Config, cap: nat, s: System)
    requires InRange(cfg, s.view, s.phase) && Can(cfg, cap, s, CallPool) && (s.phase.Closing? || s.phase.Cancelling?)
    ensures var t := CallMade(cfg, s); InRange(cfg, t.view, t.phase)
  {
  }

  lemma CallInRange(cfg: Config, cap: nat, s: System)
    requires InRange(cfg, s.view, s.phase) && Can(cfg, cap, s, CallPool)
    ensures var t := CallMade(cfg, s); InRange(cfg, t.view, t.phase)
  {
    if s.phase.Closing? || s.phase.Cancelling? {
      SettleInRange(cfg, cap, s);
    } else {
      LaunchInRange(cfg, cap, s);
    }
  }

  lemma CallKeepsSound(cfg: Config, cap: nat, s: System)
    requires Sound(cfg, s) && Can(cfg, cap, s, CallPool)
    ensures Sound(cfg, CallMade(cfg, s))
  {
    var t := CallMade(cfg, s);
    InvStep(cfg, s.pool, NextCall(s));
    CallNotifies(cfg, cap, s);
    CallInRange(cfg, cap, s);
    CallMine(cfg, cap, s);
    assert Marks(cfg, t.pool);
  }

  lemma CallMine(cfg: Config, cap: nat, s: System)
    requires Sound(cfg, s) && Can(cfg, cap, s, CallPool)
    ensures var t := CallMade(cfg, s);
      && t.pool == Step(cfg, s.pool, NextCall(s)) && t.mq == s.mq
      && forall c <- t.mine :: c < |t.pool.hist.claims|
  {
    CallClaims(cfg, cap, s);
    ClaimNumbers(cfg, s.pool, NextCall(s));
  }

  lemma CallClaims(cfg: Config, cap: nat, s: System)
    requires Can(cfg, cap, s, CallPool)
    ensures var t := CallMade(cfg, s);
      && t.pool == Step(cfg, s.pool, NextCall(s)) && t.mq == s.mq
      && (t.mine == s.mine
          || (s.phase.Allocating? && AllocIndex(cfg, s.pool) < cfg.numSlots && t.mine == s.mine + {|s.pool.hist.claims|}))
  {
  }

  /** A call of the client that moves no job of its own. */
  lemma CallFlight(cfg: Config, cap: nat, s: System)
    requires Structure(cfg, s.pool) && Can(cfg, cap, s, CallPool) && !Moves(cfg, s.pool, NextCall(s))
    ensures var q := Step(cfg, s.pool, NextCall(s));
      NoOther(s, Hsm.None) && !s.phase.Submitting? ==>
        forall k: nat :: !QueuedFor(q, k) && !HeldFor(q, k)
  {
    FlightSame(cfg, s.pool, NextCall(s));
    CallNotifies(cfg, cap, s);
    var q := Step(cfg, s.pool, NextCall(s));
    if NoOther(s, Hsm.None) && !s.phase.Submitting? {
      forall k: nat ensures !QueuedFor(q, k) && !HeldFor(q, k) {
        assert Hsm.None != Hsm.Some(k);
        assert !QueuedFor(s.pool, k) && !HeldFor(s.pool, k);
      }
    }
  }

  lemma AllocChange(cfg: Config, cap: nat, s: System)
    requires Can(cfg, cap, s, CallPool) && s.phase.Allocating?
    ensures var t, k, c := CallMade(cfg, s), AllocIndex(cfg, s.pool), |s.pool.hist.claims|;
      && t.mq == s.mq && t.stranded == s.stranded && t.view.active.current == IDLE
      && (k == cfg.numSlots ==> t.pool == s.pool && t.phase == Resting && t.mine == s.mine && t.shared == s.shared)
      && (k < cfg.numSlots ==>
          && t.pool == Claim(s.pool, k) && t.phase == Initialising(k) && t.claim == c && t.mine == s.mine + {c}
          && (!t.shared ==> !s.shared))
  {
  }

  lemma CallAlloc(cfg: Config, cap: nat, s: System)
    requires Base(cfg, s) && Can(cfg, cap, s, CallPool) && s.phase.Allocating? && !CallMade(cfg, s).shared
    ensures Exclusive(CallMade(cfg, s))
  {
    var t, k := CallMade(cfg, s), AllocIndex(cfg, s.pool);
    AllocChange(cfg, cap, s);
    CallFlight(cfg, cap, s);
    CallNotifies(cfg, cap, s);
    if k < cfg.numSlots {
      RecordWritten(cfg, s.pool, Alloc, k);
      assert OwnMarks(t.pool, t.mine) && Holds(t, k) && NoOther(t, Hsm.None);
    } else {
      assert NoOther(t, Hsm.None);
      IdleExclusive(t);
    }
  }

  lemma CallInit(cfg: Config, cap: nat, s: System)
    requires Base(cfg, s) && !s.shared && Can(cfg, cap, s, CallPool) && s.phase.Initialising?
    ensures Exclusive(CallMade(cfg, s))
  {
    InitChange(cfg, cap, s);
    CallFlight(cfg, cap, s);
    CallNotifies(cfg, cap, s);
    assert OwnMarks(CallMade(cfg, s).pool, s.mine);
  }

  lemma InitChange(cfg: Config, cap: nat, s: System)
    requires Can(cfg, cap, s, CallPool) && s.phase.Initialising?
    ensures CallMade(cfg, s) == s.(pool := Reset(s.pool, s.phase.slot), phase := Submitting(s.phase.slot))
    ensures SameClaims(s.pool, Reset(s.pool, s.phase.slot))
    ensures s.phase.slot in s.pool.hist.owner ==> Reset(s.pool, s.phase.slot).hist.owner[s.phase.slot].live
  {
  }

  /** Back in `idle`, with nothing in the pool. */
  lemma IdleExclusive(s: System)
    requires s.view.active.current == IDLE && (s.phase == Resting || s.phase == Allocating) && !s.stranded
    requires OwnMarks(s.pool, s.mine) && NoOther(s, Hsm.None)
    ensures Exclusive(s)
  {
  }

  lemma FreeChange(cfg: Config, cap: nat, s: System)
    requires Can(cfg, cap, s, CallPool) && (s.phase.Releasing? || s.phase.Closing?)
    ensures var t := CallMade(cfg, s);
      && t.pool == Step(cfg, s.pool, NextCall(s)) && SameClaims(s.pool, t.pool) && t.mine == s.mine && t.mq == s.mq
      && t.view.active.current == IDLE && t.phase == Resting && t.stranded == s.stranded
  {
    ClaimNumbers(cfg, s.pool, NextCall(s));
  }

  lemma CallFree(cfg: Config, cap: nat, s: System)
    requires Base(cfg, s) && !s.shared && Can(cfg, cap, s, CallPool) && (s.phase.Releasing? || s.phase.Closing?)
    ensures Exclusive(CallMade(cfg, s))
  {
    var t := CallMade(cfg, s);
    FreeChange(cfg, cap, s);
    CallFlight(cfg, cap, s);
    CallNotifies(cfg, cap, s);
    assert OwnMarks(t.pool, t.mine) && NoOther(t, Hsm.None);
    IdleExclusive(t);
  }

  lemma SubmitFlight(cfg: Config, s: System, j: nat)
    requires NoOther(s, Hsm.None) && Enabled(cfg, s.pool, Submit(j, true))
    ensures var q := SubmitStep(cfg, s.pool, j, true);
      && Notifies(q, j) && (QueuedFor(q, j) <==> Accepts(cfg, s.pool)) && !HeldFor(q, j)
      && forall k: nat :: k != j ==> !QueuedFor(q, k) && !HeldFor(q, k) && (Notifies(q, k) <==> Notifies(s.pool, k))
  {
    var q := SubmitStep(cfg, s.pool, j, true);
    if Accepts(cfg, s.pool) {
      FlightSubmit(cfg, s.pool, j, true);
    } else {
      FlightSame(cfg, s.pool, Submit(j, true));
    }
    assert q.jobs[j].notify;
    forall k: nat | k != j
      ensures (Notifies(q, k) <==> Notifies(s.pool, k)) && !QueuedFor(q, k) && !HeldFor(q, k)
    {
      assert Hsm.None != Hsm.Some(k);
      assert !QueuedFor(s.pool, k) && !HeldFor(s.pool, k);
      if k < |s.pool.jobs| {
        RecordSteady(cfg, s.pool, Submit(j, true), k);
      }
    }
  }

  lemma SubmitChange(cfg: Config, cap: nat, s: System)
    requires Can(cfg, cap, s, CallPool) && s.phase.Submitting?
    ensures var t, j := CallMade(cfg, s), s.phase.slot;
      && t.pool == SubmitStep(cfg, s.pool, j, true) && SameClaims(s.pool, t.pool)
      && t.claim == s.claim && t.mine == s.mine && t.mq == s.mq && t.stranded == s.stranded
      && (if Accepts(cfg, s.pool) then Busy(t) && t.phase == Resting && t.view.job == Hsm.Some(j)
          else t.view == s.view && t.phase == Releasing(j) && t.pool.hist.owner == s.pool.hist.owner)
  {
    ClaimNumbers(cfg, s.pool, NextCall(s));
  }

  lemma CallSubmitAccepted(cfg: Config, cap: nat, s: System)
    requires Base(cfg, s) && !s.shared && Can(cfg, cap, s, CallPool) && s.phase.Submitting? && Accepts(cfg, s.pool)
    ensures Exclusive(CallMade(cfg, s))
  {
    SubmitChange(cfg, cap, s);
    SubmitFlight(cfg, s, s.phase.slot);
    assert OwnMarks(CallMade(cfg, s).pool, s.mine);
    SubmittedExclusive(s, CallMade(cfg, s), s.phase.slot);
  }

  /** In `processing`, with the job in the queue and nothing else in the pool. */
  lemma SubmittedExclusive(s: System, t: System, j: nat)
    requires NoOther(s, Hsm.None) && Holds(s, j) && !s.stranded
    requires Busy(t) && t.phase == Resting && t.view.job == Hsm.Some(j) && !t.stranded && t.mq == s.mq
    requires SameClaims(s.pool, t.pool) && t.claim == s.claim && t.mine == s.mine && OwnMarks(t.pool, t.mine)
    requires Notifies(t.pool, j) && QueuedFor(t.pool, j) && !HeldFor(t.pool, j)
    requires forall k: nat :: k != j ==> !QueuedFor(t.pool, k) && !HeldFor(t.pool, k)
    ensures Exclusive(t)
  {
    forall k: nat ensures Times(t.mq, Completion(k)) == 0 {
      assert Hsm.None != Hsm.Some(k);
      assert Times(s.mq, Completion(k)) == 0;
    }
  }

  lemma CallSubmitRefused(cfg: Config, cap: nat, s: System)
    requires Base(cfg, s) && !s.shared && Can(cfg, cap, s, CallPool) && s.phase.Submitting? && !Accepts(cfg, s.pool)
    ensures Exclusive(CallMade(cfg, s))
  {
    var t, j := CallMade(cfg, s), s.phase.slot;
    SubmitChange(cfg, cap, s);
    SubmitFlight(cfg, s, j);
    assert OwnMarks(t.pool, t.mine) && Holds(t, j) && NoOther(t, Hsm.None);
  }

  /** Whoever cancels, the jobs of the client that stay where they are. */
  lemma CancelFlight(cfg: Config, p: State, id: nat)
    requires Structure(cfg, p) && Enabled(cfg, p, Cancel(id))
    ensures var q, c := CancelStep(cfg, p, id), CancelIndex(cfg, p, id);
      && (forall k: nat :: Notifies(q, k) <==> Notifies(p, k))
      && (forall k: nat :: HeldFor(q, k) <==> HeldFor(p, k))
      && (forall k: nat :: QueuedFor(q, k) <==> QueuedFor(p, k) && Gone(cfg, p, id) != Hsm.Some(k))
      && (c < |p.core.queue| ==> Queued(p, p.core.queue[c].job))
  {
    var q, c := CancelStep(cfg, p, id), CancelIndex(cfg, p, id);
    forall k: nat ensures Notifies(q, k) <==> Notifies(p, k) {
      if k < |p.jobs| {
        RecordSteady(cfg, p, Cancel(id), k);
      }
    }
    if c < |p.core.queue| {
      FlightCancel(cfg, p, id);
    } else {
      FlightSame(cfg, p, Cancel(id));
    }
  }

  /** The job that a cancel of `id` takes out of the queue. */
  function Gone(cfg: Config, p: State, id: nat): Hsm.Option<nat>
    requires Shape(cfg, p)
  {
    var c := CancelIndex(cfg, p, id);
    if c < |p.core.queue| then Hsm.Some(p.core.queue[c].job) else Hsm.None
  }

  /** If it notifies the client, it is the job the client waits for. */
  lemma HitIsExpected(cfg: Config, s: System, id: nat)
    requires Base(cfg, s) && !s.shared && Enabled(cfg, s.pool, Cancel(id)) && Hits(cfg, s.pool, id)
    ensures Expecting(s) && s.view.job == Gone(cfg, s.pool, id) && QueuedFor(s.pool, s.view.job.value) && Kept(s)
  {
    CancelFlight(cfg, s.pool, id);
    var j := Gone(cfg, s.pool, id).value;
    assert QueuedFor(s.pool, j);
  }

  lemma CancelTracked(cfg: Config, s: System, t: System, id: nat)
    requires Base(cfg, s) && !s.shared && Enabled(cfg, s.pool, Cancel(id)) && t.pool == CancelStep(cfg, s.pool, id)
    requires t.mq == s.mq && t.view.job == s.view.job && (Expecting(t) <==> Expecting(s))
    requires t.stranded <==> s.stranded || Hits(cfg, s.pool, id)
    ensures Tracked(t)
  {
    CancelFlight(cfg, s.pool, id);
    if Hits(cfg, s.pool, id) {
      HitIsExpected(cfg, s, id);
    }
    TrackedWithout(s, t, Gone(cfg, s.pool, id));
  }

  /** A job is taken out of the queue, the client's own or another. */
  lemma TrackedWithout(s: System, t: System, gone: Hsm.Option<nat>)
    requires Tracked(s) && (Expecting(t) <==> Expecting(s)) && t.view.job == s.view.job && t.mq == s.mq
    requires forall k: nat :: HeldFor(t.pool, k) <==> HeldFor(s.pool, k)
    requires forall k: nat :: QueuedFor(t.pool, k) <==> QueuedFor(s.pool, k) && gone != Hsm.Some(k)
    requires t.stranded <==> s.stranded || (gone.Some? && Notifies(s.pool, gone.value))
    requires gone.Some? && Notifies(s.pool, gone.value) ==>
      Expecting(s) && s.view.job == gone && QueuedFor(s.pool, gone.value)
    ensures Tracked(t)
  {
    forall k: nat | !(Expecting(s) && s.view.job == Hsm.Some(k))
      ensures !QueuedFor(t.pool, k) && !HeldFor(t.pool, k) && Times(t.mq, Completion(k)) == 0
    {
      assert !QueuedFor(s.pool, k) && !HeldFor(s.pool, k) && Times(s.mq, Completion(k)) == 0;
    }
  }

  lemma CancelOwned(cfg: Config, s: System, id: nat)
    requires Base(cfg, s) && !s.shared && Enabled(cfg, s.pool, Cancel(id))
    ensures Owned(s.(pool := CancelStep(cfg, s.pool, id)))
  {
    CancelFlight(cfg, s.pool, id);
    assert OwnMarks(CancelStep(cfg, s.pool, id), s.mine);
  }

  lemma OthersCancelKeeps(cfg: Config, cap: nat, s: System, a: Action)
    requires Base(cfg, s) && !s.shared && Can(cfg, cap, s, Others(a)) && a.Cancel?
    ensures Exclusive(Next(cfg, cap, s, Others(a)))
  {
    var t := TakenOut(cfg, s, a.id);
    CancelTracked(cfg, s, t, a.id);
    CancelOwned(cfg, s, a.id);
    OwnedFrame(s.(pool := t.pool), t);
    OthersKeepFaithful(cfg, cap, s, a);
  }

  /** What the client finds after its call of cancel. */
  lemma CancelChange(cfg: Config, cap: nat, s: System)
    requires Can(cfg, cap, s, CallPool) && s.phase.Cancelling?
    ensures var t := CallMade(cfg, s);
      && t.pool == CancelStep(cfg, s.pool, s.phase.id) && t.mq == s.mq && t.phase == Resting
      && t.view.active == s.view.active && t.view.job == s.view.job
      && t.claim == s.claim && t.mine == s.mine && t.verdict == s.verdict && t.shared == s.shared
      && t.jobId == s.jobId && (t.stranded <==> s.stranded || Hits(cfg, s.pool, s.phase.id))
      && SameClaims(s.pool, t.pool) && t.pool.hist.owner == s.pool.hist.owner
  {
  }

  lemma CallCancelOwned(cfg: Config, cap: nat, s: System)
    requires Base(cfg, s) && !s.shared && Can(cfg, cap, s, CallPool) && s.phase.Cancelling?
    ensures Owned(CallMade(cfg, s))
  {
    CancelChange(cfg, cap, s);
    CancelOwned(cfg, s, s.phase.id);
  }

  lemma CallCancelFaithful(cfg: Config, cap: nat, s: System)
    requires Base(cfg, s) && !s.shared && Can(cfg, cap, s, CallPool) && s.phase.Cancelling?
    ensures Faithful(CallMade(cfg, s))
  {
    CancelChange(cfg, cap, s);
    RecordSteady(cfg, s.pool, Cancel(s.phase.id), s.view.job.value);
    FaithfulFrame(s, CallMade(cfg, s));
  }

  /** The client rests, and nobody has changed the record of its job if it has been finished. */
  lemma FaithfulFrame(s: System, t: System)
    requires Exclusive(s) && Expecting(s) && Expecting(t) && t.phase == Resting && t.view.job == s.view.job
    requires t.mq == s.mq && t.verdict == s.verdict && t.claim == s.claim && t.pool.hist.owner == s.pool.hist.owner
    requires s.view.job.value < |s.pool.jobs| == |t.pool.jobs|
    requires !Held(s.pool, s.view.job.value) ==>
      t.pool.jobs[s.view.job.value].result == s.pool.jobs[s.view.job.value].result
    ensures Faithful(t)
  {
    if Kept(s) && 0 < Times(s.mq, Completion(s.view.job.value)) {
      FinishedNotHeld(s);
    }
  }

  lemma CallCancel(cfg: Config, cap: nat, s: System)
    requires Base(cfg, s) && !s.shared && Can(cfg, cap, s, CallPool) && s.phase.Cancelling?
    ensures Exclusive(CallMade(cfg, s))
  {
    CancelChange(cfg, cap, s);
    CancelTracked(cfg, s, CallMade(cfg, s), s.phase.id);
    CallCancelOwned(cfg, cap, s);
    CallCancelFaithful(cfg, cap, s);
  }

  lemma BaseMove(cfg: Config, cap: nat, s: System, m: Move)
    requires Base(cfg, s) && Can(cfg, cap, s, m)
    ensures Base(cfg, Next(cfg, cap, s, m))
  {
    match m
    case Others(a) => OthersKeep(cfg, cap, s, a);
    case Post(sig) => PostKeeps(cfg, cap, s, sig);
    case Receive => ReceiveKeeps(cfg, cap, s);
    case CallPool => CallKeeps(cfg, cap, s);
  }

  lemma ReceiveKeeps(cfg: Config, cap: nat, s: System)
    requires Base(cfg, s) && Can(cfg, cap, s, Receive)
    ensures Base(cfg, Received(s))
  {
    ReceiveKeepsSound(cfg, cap, s);
    if !s.shared {
      if s.mq[0].Completion? {
        ReceiveCompletion(cfg, cap, s);
      } else {
        ReceivePosted(cfg, cap, s);
      }
    }
  }

  lemma CallKeeps(cfg: Config, cap: nat, s: System)
    requires Base(cfg, s) && Can(cfg, cap, s, CallPool)
    ensures Base(cfg, CallMade(cfg, s))
  {
    CallKeepsSound(cfg, cap, s);
    if !CallMade(cfg, s).shared {
      match s.phase
      case Allocating => CallAlloc(cfg, cap, s);
      case Initialising(_) => CallInit(cfg, cap, s);
      case Submitting(_) =>
        if Accepts(cfg, s.pool) { CallSubmitAccepted(cfg, cap, s); } else { CallSubmitRefused(cfg, cap, s); }
      case Releasing(_) => CallFree(cfg, cap, s);
      case Closing(_) => CallFree(cfg, cap, s);
      case Cancelling(_) => CallCancel(cfg, cap, s);
    }
  }

  // ----- Ids

  /** Before the counter wraps, an action leaves the id of a job alone or gives it one that was never used. */
  lemma IdsGrow(cfg: Config, p: State, a: Action)
    requires IdsUnique(p) && Enabled(cfg, p, a) && Step(cfg, p, a).hist.draws < U32
    ensures var q := Step(cfg, p, a);
      && p.hist.draws <= q.hist.draws && |q.jobs| == |p.jobs|
      && forall i :: 0 <= i < |p.jobs| ==> q.jobs[i].id == p.jobs[i].id || p.hist.draws < q.jobs[i].id
  {
    if a.Submit? {
      SubmitIdsGrow(cfg, p, a.job, a.toHsm);
    } else if a.Alloc? || a.InitJob? {
      ZeroedIdsGrow(cfg, p, a);
    } else {
      IdsStay(cfg, p, a);
    }
  }

  lemma SubmitIdsGrow(cfg: Config, p: State, j: nat, toHsm: bool)
    requires IdsUnique(p) && Enabled(cfg, p, Submit(j, toHsm)) && SubmitStep(cfg, p, j, toHsm).hist.draws < U32
    ensures var q := SubmitStep(cfg, p, j, toHsm);
      && p.hist.draws <= q.hist.draws && |q.jobs| == |p.jobs|
      && forall i :: 0 <= i < |p.jobs| ==> q.jobs[i].id == p.jobs[i].id || p.hist.draws < q.jobs[i].id
  {
  }

  lemma ZeroedIdsGrow(cfg: Config, p: State, a: Action)
    requires IdsUnique(p) && Enabled(cfg, p, a) && (a.Alloc? || a.InitJob?) && Step(cfg, p, a).hist.draws < U32
    ensures var q := Step(cfg, p, a);
      && p.hist.draws <= q.hist.draws && |q.jobs| == |p.jobs|
      && forall i :: 0 <= i < |p.jobs| ==> q.jobs[i].id == p.jobs[i].id || p.hist.draws < q.jobs[i].id
  {
  }

  lemma AimsKept(p: State, q: State, id: nat, j: nat)
    requires Aims(p, id, j) && p.hist.draws <= q.hist.draws && |q.jobs| == |p.jobs|
    requires forall i :: 0 <= i < |p.jobs| ==> q.jobs[i].id == p.jobs[i].id || p.hist.draws < q.jobs[i].id
    ensures Aims(q, id, j)
  {
  }

  lemma IdOthers(cfg: Config, cap: nat, s: System, a: Action)
    requires Joint(cfg, s) && !s.shared && Can(cfg, cap, s, Others(a))
    ensures Identified(Next(cfg, cap, s, Others(a)))
  {
    OthersChange(cfg, cap, s, a);
    IdPool(cfg, s, a);
    IdFrame(s.(pool := Step(cfg, s.pool, a)), Next(cfg, cap, s, Others(a)));
  }

  lemma IdFrame(s: System, t: System)
    requires Identified(s) && t.pool == s.pool && t.view == s.view && t.phase == s.phase
    requires t.claim == s.claim && t.jobId == s.jobId
    ensures Identified(t)
  {
  }

  lemma IdPool(cfg: Config, s: System, a: Action)
    requires Joint(cfg, s) && !s.shared && Enabled(cfg, s.pool, a) && OthersMay(cfg, s, a)
    ensures Identified(s.(pool := Step(cfg, s.pool, a)))
  {
    if Step(cfg, s.pool, a).hist.draws < U32 && Busy(s) {
      IdOfSlot(cfg, s, a);
      IdsGrow(cfg, s.pool, a);
      if s.phase.Cancelling? {
        AimsKept(s.pool, Step(cfg, s.pool, a), s.phase.id, s.view.job.value);
      }
    }
  }

  lemma IdOfSlot(cfg: Config, s: System, a: Action)
    requires Joint(cfg, s) && !s.shared && Busy(s) && Enabled(cfg, s.pool, a) && OthersMay(cfg, s, a)
    requires Step(cfg, s.pool, a).hist.draws < U32
    ensures var t, j := s.(pool := Step(cfg, s.pool, a)), s.view.job.value;
      s.jobId <= t.pool.hist.draws && |t.pool.jobs| == |s.pool.jobs| && (Kept(t) <==> t.pool.jobs[j].id == s.jobId)
  {
    var j := s.view.job.value;
    IdsGrow(cfg, s.pool, a);
    OthersKeepKept(cfg, s, a);
    if Kept(s.(pool := Step(cfg, s.pool, a))) {
      OthersLeave(cfg, s, a, j);
      RecordSteady(cfg, s.pool, a, j);
    } else if Kept(s) {
      FreshId(cfg, s.pool);
    }
  }

  /** The id that an allocation gives out. */
  lemma FreshId(cfg: Config, p: State)
    requires Shape(cfg, p) && IdsUnique(p) && AllocIndex(cfg, p) < cfg.numSlots && Step(cfg, p, Alloc).hist.draws < U32
    ensures p.hist.draws < Step(cfg, p, Alloc).jobs[AllocIndex(cfg, p)].id
  {
  }

  lemma IdReceive(cfg: Config, cap: nat, s: System)
    requires Joint(cfg, s) && !s.shared && Can(cfg, cap, s, Receive)
    ensures Identified(Received(s))
  {
  }

  lemma IdCall(cfg: Config, cap: nat, s: System)
    requires Joint(cfg, s) && !s.shared && Can(cfg, cap, s, CallPool)
    ensures Identified(CallMade(cfg, s))
  {
    match s.phase
    case Submitting(j) => IdSubmit(cfg, cap, s);
    case Cancelling(id) => IdCancel(cfg, cap, s);
    case _ =>
  }

  lemma IdSubmit(cfg: Config, cap: nat, s: System)
    requires Joint(cfg, s) && !s.shared && Can(cfg, cap, s, CallPool) && s.phase.Submitting?
    ensures Identified(CallMade(cfg, s))
  {
    SubmitChange(cfg, cap, s);
    IdsUniqueSubmit(cfg, s.pool, s.phase.slot, true);
  }

  lemma IdCancel(cfg: Config, cap: nat, s: System)
    requires Joint(cfg, s) && !s.shared && Can(cfg, cap, s, CallPool) && s.phase.Cancelling?
    ensures Identified(CallMade(cfg, s))
  {
    CancelChange(cfg, cap, s);
    RecordSteady(cfg, s.pool, Cancel(s.phase.id), s.view.job.value);
    IdsStay(cfg, s.pool, Cancel(s.phase.id));
  }

  lemma IdMove(cfg: Config, cap: nat, s: System, m: Move)
    requires Joint(cfg, s) && !s.shared && Can(cfg, cap, s, m)
    ensures Identified(Next(cfg, cap, s, m))
  {
    match m
    case Others(a) => IdOthers(cfg, cap, s, a);
    case Post(_) =>
    case Receive => IdReceive(cfg, cap, s);
    case CallPool => IdCall(cfg, cap, s);
  }

  lemma InvMove(cfg: Config, cap: nat, s: System, m: Move)
    requires Joint(cfg, s) && Can(cfg, cap, s, m)
    ensures Joint(cfg, Next(cfg, cap, s, m))
  {
    BaseMove(cfg, cap, s, m);
    if !s.shared {
      IdMove(cfg, cap, s, m);
    } else {
      SharedStays(cfg, cap, s, m);
    }
  }

  lemma SharedStays(cfg: Config, cap: nat, s: System, m: Move)
    requires Can(cfg, cap, s, m) && s.shared
    ensures Next(cfg, cap, s, m).shared
  {
  }

  lemma {:induction false} InvRun(cfg: Config, cap: nat, s: System, moves: seq<Move>)
    requires Joint(cfg, s) && Runnable(cfg, cap, s, moves)
    ensures Joint(cfg, RunTo(cfg, cap, s, moves))
    decreases |moves|
  {
    if moves != [] {
      InvMove(cfg, cap, s, moves[0]);
      InvRun(cfg, cap, Next(cfg, cap, s, moves[0]), moves[1..]);
    }
  }

  lemma InvInitial(cfg: Config, numJobs: nat)
    requires PoolTheorems.Setting(cfg, numJobs)
    ensures Joint(cfg, Initial(cfg, numJobs))
  {
    PoolTheorems.InvInitial(cfg, numJobs);
    var s := Initial(cfg, numJobs);
    assert forall k: nat :: !Queued(s.pool, k) && !Held(s.pool, k) && !Notifies(s.pool, k);
  }

  ghost predicate Reaches(cfg: Config, cap: nat, numJobs: nat, s: System) {
    exists moves :: Runnable(cfg, cap, Initial(cfg, numJobs), moves)
                    && RunTo(cfg, cap, Initial(cfg, numJobs), moves) == s
  }

  lemma InvReached(cfg: Config, cap: nat, numJobs: nat, s: System)
    requires PoolTheorems.Setting(cfg, numJobs) && Reaches(cfg, cap, numJobs, s)
    ensures Joint(cfg, s)
  {
    var moves :| Runnable(cfg, cap, Initial(cfg, numJobs), moves)
                 && RunTo(cfg, cap, Initial(cfg, numJobs), moves) == s;
    InvInitial(cfg, numJobs);
    InvRun(cfg, cap, Initial(cfg, numJobs), moves);
  }

  lemma {:induction false} RunSnoc(cfg: Config, cap: nat, s: System, moves: seq<Move>, m: Move)
    requires Runnable(cfg, cap, s, moves) && Can(cfg, cap, RunTo(cfg, cap, s, moves), m)
    ensures Runnable(cfg, cap, s, moves + [m])
    ensures RunTo(cfg, cap, s, moves + [m]) == Next(cfg, cap, RunTo(cfg, cap, s, moves), m)
    decreases |moves|
  {
    if moves == [] {
      assert moves + [m] == [m];
    } else {
      assert (moves + [m])[1..] == moves[1..] + [m];
      RunSnoc(cfg, cap, Next(cfg, cap, s, moves[0]), moves[1..], m);
    }
  }

  lemma ReachesNext(cfg: Config, cap: nat, numJobs: nat, s: System, m: Move)
    requires Reaches(cfg, cap, numJobs, s) && Can(cfg, cap, s, m)
    ensures Reaches(cfg, cap, numJobs, Next(cfg, cap, s, m))
  {
    var moves :| Runnable(cfg, cap, Initial(cfg, numJobs), moves)
                 && RunTo(cfg, cap, Initial(cfg, numJobs), moves) == s;
    RunSnoc(cfg, cap, Initial(cfg, numJobs), moves, m);
  }
}
