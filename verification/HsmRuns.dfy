/** Particular runs of the client, the pool and its other users, each on every pool that is large enough: how a job, its
    result or the ownership of a slot is lost although everybody plays by the rules. */
module HsmRuns {
  import opened PoolCore
  import opened PoolProtocol
  import opened PoolInvariants
  import opened PoolTheorems
  import opened PoolClients
  import opened HsmClient
  import opened HsmPool
  import opened HsmResults
  import Hsm

  /** Nothing is under way, and slot 0 is free. */
  ghost predicate SlotReady(cfg: Config, s: System) {
    && s.view == START && s.phase == Resting && s.mq == [] && s.mine == {} && !s.shared && !s.stranded
    && Shape(cfg, s.pool) && AllWaiting(s.pool) && s.pool.workSem == 0 && s.pool.core.queue == []
    && AllocIndex(cfg, s.pool) == 0 && !HasLiveClaim(s.pool, 0) && s.pool.hist.draws <= 2
  }

  lemma InitiallyReady(cfg: Config, cap: nat, numJobs: nat) returns (s: System)
    requires Setting(cfg, numJobs) && 0 < cfg.numSlots
    ensures Reaches(cfg, cap, numJobs, s) && SlotReady(cfg, s)
  {
    s := HsmPool.Initial(cfg, numJobs);
    assert Runnable(cfg, cap, s, []) && RunTo(cfg, cap, s, []) == s;
  }

  /** The resting client is sent a signal and takes it from its queue. */
  lemma Hear(cfg: Config, cap: nat, numJobs: nat, s: System, sig: int) returns (t: System)
    requires Reaches(cfg, cap, numJobs, s) && InRange(cfg, s.view, s.phase) && cfg.numSlots <= |s.pool.jobs|
    requires s.phase == Resting && s.mq == [] && Postable(sig) && 0 < cap
    ensures Reaches(cfg, cap, numJobs, t) && t == s.(mq := [], phase := Answer(s.pool, s.view, Posted(sig)))
  {
    ReachesNext(cfg, cap, numJobs, s, Post(sig));
    var u := Next(cfg, cap, s, Post(sig));
    ReachesNext(cfg, cap, numJobs, u, Receive);
    t := Next(cfg, cap, u, Receive);
  }

  /** The client has been given slot 0. */
  lemma Ask(cfg: Config, cap: nat, numJobs: nat, s: System) returns (t: System)
    requires Setting(cfg, numJobs) && 0 < cfg.numSlots && 0 < cap && Reaches(cfg, cap, numJobs, s) && SlotReady(cfg, s)
    ensures Reaches(cfg, cap, numJobs, t) && t.phase == Initialising(0) && t.mq == [] && !t.stranded && !t.shared
    ensures t.view == START && AllWaiting(t.pool) && t.pool.workSem == 0 && t.pool.core.queue == []
    ensures t.mine == {t.claim} && t.claim == |s.pool.hist.claims| && t.pool.hist.claims == s.pool.hist.claims + [0]
    ensures t.pool.hist.draws <= 3
  {
    InvReached(cfg, cap, numJobs, s);
    t := Hear(cfg, cap, numJobs, s, WORK_START);
    t := Allocate(cfg, cap, numJobs, t);
  }

  lemma Allocate(cfg: Config, cap: nat, numJobs: nat, s: System) returns (t: System)
    requires Reaches(cfg, cap, numJobs, s) && s.phase == Allocating && s.view == START && !s.shared && s.mine == {}
    requires Shape(cfg, s.pool) && AllocIndex(cfg, s.pool) == 0 < cfg.numSlots && !HasLiveClaim(s.pool, 0)
    ensures Reaches(cfg, cap, numJobs, t) && t.claim == |s.pool.hist.claims|
    ensures t == s.(pool := Claim(s.pool, 0), phase := Initialising(0), claim := t.claim, mine := {t.claim})
  {
    ReachesNext(cfg, cap, numJobs, s, CallPool);
    t := CallMade(cfg, s);
  }

  lemma Initialise(cfg: Config, cap: nat, numJobs: nat, s: System) returns (t: System)
    requires Setting(cfg, numJobs) && Reaches(cfg, cap, numJobs, s) && s.phase == Initialising(0) && !s.shared
    requires s.pool.stop == Live
    ensures Reaches(cfg, cap, numJobs, t) && t == s.(pool := t.pool, phase := Submitting(0))
    ensures t.pool.stop == s.pool.stop && t.pool.core == s.pool.core && t.pool.workers == s.pool.workers
    ensures t.pool.workSem == s.pool.workSem && t.pool.hist.claims == s.pool.hist.claims
    ensures t.pool.hist.draws == s.pool.hist.draws + 1
  {
    CallReaches(cfg, cap, numJobs, s);
    InitChange(cfg, cap, s);
    t := CallMade(cfg, s);
  }

  lemma CallReaches(cfg: Config, cap: nat, numJobs: nat, s: System)
    requires Setting(cfg, numJobs) && Reaches(cfg, cap, numJobs, s) && !s.shared
    requires s.phase.Preparing() && s.pool.stop == Live
    ensures Can(cfg, cap, s, CallPool) && Reaches(cfg, cap, numJobs, CallMade(cfg, s))
  {
    InvReached(cfg, cap, numJobs, s);
    CanPrepare(cfg, cap, s);
    ReachesNext(cfg, cap, numJobs, s, CallPool);
  }

  /** The client has a job in slot 0, which nobody else has touched; no worker has moved yet. */
  ghost predicate JobQueued(cfg: Config, s: System) {
    && s.phase == Resting && !s.stranded && !s.shared && Busy(s) && s.view.job == Hsm.Some(0) && Kept(s)
    && AllWaiting(s.pool) && |s.pool.core.queue| == 1 && s.pool.core.queue[0].job == 0 && !s.pool.core.headLinked
    && QueuedFor(s.pool, 0) && s.pool.workSem == cfg.cap.Post(0) && s.mine == {s.claim}
    && s.pool.hist.draws <= 5 && s.view.cancels == []
  }

  lemma Launch(cfg: Config, cap: nat, numJobs: nat, s: System) returns (t: System)
    requires Setting(cfg, numJobs) && 0 < cfg.numSlots && 0 < cap && Reaches(cfg, cap, numJobs, s) && SlotReady(cfg, s)
    ensures Reaches(cfg, cap, numJobs, t) && JobQueued(cfg, t) && t.mq == []
    ensures t.claim == |s.pool.hist.claims| && t.pool.hist.claims == s.pool.hist.claims + [0]
  {
    t := Ask(cfg, cap, numJobs, s);
    t := Initialise(cfg, cap, numJobs, t);
    t := SubmitFirst(cfg, cap, numJobs, t);
  }

  lemma SubmitFirst(cfg: Config, cap: nat, numJobs: nat, s: System) returns (t: System)
    requires Setting(cfg, numJobs) && Reaches(cfg, cap, numJobs, s) && s.phase == Submitting(0) && !s.shared
    requires s.view == START && !s.stranded && s.mq == [] && s.mine == {s.claim}
    requires AllWaiting(s.pool) && s.pool.workSem == 0 && s.pool.core.queue == [] && s.pool.hist.draws <= 4
    ensures Reaches(cfg, cap, numJobs, t) && JobQueued(cfg, t) && t.mq == []
    ensures t.claim == s.claim && t.pool.hist.claims == s.pool.hist.claims
  {
    PreparingFacts(cfg, cap, numJobs, s);
    CallReaches(cfg, cap, numJobs, s);
    t := CallMade(cfg, s);
    SubmitChange(cfg, cap, s);
    SubmitFlight(cfg, s, 0);
  }

  lemma PreparingFacts(cfg: Config, cap: nat, numJobs: nat, s: System)
    requires Setting(cfg, numJobs) && Reaches(cfg, cap, numJobs, s) && !s.shared && s.phase.Preparing()
    ensures NoOther(s, Hsm.None) && Holds(s, s.phase.slot) && s.phase.slot < |s.pool.jobs|
    ensures QueueBounded(cfg, s.pool) && 0 < cfg.queueSize
  {
    InvReached(cfg, cap, numJobs, s);
  }

  /** WORK_START, then WORK_CANCEL before any worker wakes up. The job is withdrawn, and the client waits for it for
      ever. */
  lemma CancelStrands(cfg: Config, cap: nat, numJobs: nat) returns (s: System)
    requires Setting(cfg, numJobs) && 0 < cfg.numSlots && 0 < cap
    ensures Reaches(cfg, cap, numJobs, s) && s.stranded && s.phase == Resting && Busy(s) && !s.shared
  {
    s := InitiallyReady(cfg, cap, numJobs);
    s := Launch(cfg, cap, numJobs, s);
    InvReached(cfg, cap, numJobs, s);
    s := Hear(cfg, cap, numJobs, s, WORK_CANCEL);
    s := Withdraw(cfg, cap, numJobs, s);
  }

  /** The cancel finds the client's job at the head of the queue. */
  lemma Withdraw(cfg: Config, cap: nat, numJobs: nat, s: System) returns (t: System)
    requires Reaches(cfg, cap, numJobs, s) && s.phase.Cancelling? && AtRest(s.view) && Busy(s) && !s.shared
    requires Shape(cfg, s.pool) && s.pool.stop == Live && s.pool.core.queue != [] && !s.pool.core.headLinked
    requires s.phase.id == s.pool.jobs[s.pool.core.queue[0].job].id && Notifies(s.pool, s.pool.core.queue[0].job)
    ensures Reaches(cfg, cap, numJobs, t) && t.stranded && t.phase == Resting && Busy(t) && !t.shared
  {
    assert QueueIds(cfg, s.pool)[0] == s.phase.id;
    assert CancelIndex(cfg, s.pool, s.phase.id) == 0;
    ReachesNext(cfg, cap, numJobs, s, CallPool);
    CancelChange(cfg, cap, s);
    t := CallMade(cfg, s);
  }

  lemma OthersReach(cfg: Config, cap: nat, numJobs: nat, s: System, a: Action)
    requires Reaches(cfg, cap, numJobs, s) && WorkerAction(a) && !a.Finish? && Enabled(cfg, s.pool, a)
    ensures Reaches(cfg, cap, numJobs, s.(pool := Step(cfg, s.pool, a)))
  {
    ReachesNext(cfg, cap, numJobs, s, Others(a));
  }

  lemma ShapeReached(cfg: Config, cap: nat, numJobs: nat, s: System)
    requires Setting(cfg, numJobs) && Reaches(cfg, cap, numJobs, s)
    ensures Shape(cfg, s.pool) && 0 < |s.pool.workers|
  {
    InvReached(cfg, cap, numJobs, s);
  }

  /** A worker wakes up and takes the only job. */
  lemma WorkerTakes(cfg: Config, cap: nat, numJobs: nat, s: System) returns (t: System)
    requires Reaches(cfg, cap, numJobs, s) && Shape(cfg, s.pool) && 0 < |s.pool.workers| && AllWaiting(s.pool)
    requires 0 < s.pool.workSem && |s.pool.core.queue| == 1
    ensures Reaches(cfg, cap, numJobs, t) && t == s.(pool := t.pool) && t.pool.core.queue == [] && t.pool.stop == Live
    ensures t.pool.workSem == s.pool.workSem - 1 && Shape(cfg, t.pool)
    ensures t.pool.workers == s.pool.workers[0 := Executing(s.pool.core.queue[0])]
    ensures |t.pool.jobs| == |s.pool.jobs|
    ensures forall j :: 0 <= j < |s.pool.jobs| ==> t.pool.jobs[j].notify == s.pool.jobs[j].notify
    ensures t.pool.hist.owner == s.pool.hist.owner && t.pool.hist.claims == s.pool.hist.claims
    ensures t.pool.hist.draws == s.pool.hist.draws
  {
    OthersReach(cfg, cap, numJobs, s, TakeToken(0));
    t := s.(pool := Step(cfg, s.pool, TakeToken(0)));
    OthersReach(cfg, cap, numJobs, t, Fetch(0));
    t := t.(pool := FetchStep(cfg, t.pool, 0));
  }

  /** A worker wakes up, takes the only job and executes it. */
  lemma WorkerRuns(cfg: Config, cap: nat, numJobs: nat, s: System, r: int) returns (t: System)
    requires Setting(cfg, numJobs) && Reaches(cfg, cap, numJobs, s) && AllWaiting(s.pool)
    requires 0 < s.pool.workSem && |s.pool.core.queue| == 1
    ensures Reaches(cfg, cap, numJobs, t) && t == s.(pool := t.pool) && t.pool.core.queue == [] && t.pool.stop == Live
    ensures t.pool.workSem == s.pool.workSem - 1
    ensures |t.pool.workers| > 0 && t.pool.workers[0] == Finishing(s.pool.core.queue[0], r)
    ensures forall w :: 1 <= w < |t.pool.workers| ==> t.pool.workers[w] == Waiting
    ensures forall j: nat :: Notifies(t.pool, j) <==> Notifies(s.pool, j)
    ensures t.pool.hist.owner == s.pool.hist.owner && t.pool.hist.claims == s.pool.hist.claims
    ensures t.pool.hist.draws == s.pool.hist.draws
  {
    ShapeReached(cfg, cap, numJobs, s);
    t := WorkerTakes(cfg, cap, numJobs, s);
    OthersReach(cfg, cap, numJobs, t, Execute(0, r));
    t := t.(pool := Step(cfg, t.pool, Execute(0, r)));
  }

  lemma {:induction false} FillQueue(cfg: Config, cap: nat, numJobs: nat, s: System, n: nat) returns (t: System)
    requires Reaches(cfg, cap, numJobs, s) && |s.mq| + n <= cap
    ensures Reaches(cfg, cap, numJobs, t) && t == s.(mq := t.mq) && |t.mq| == |s.mq| + n
    decreases n
  {
    t := s;
    if n > 0 {
      ReachesNext(cfg, cap, numJobs, s, Post(Hsm.SIG_PERIOD));
      t := FillQueue(cfg, cap, numJobs, Next(cfg, cap, s, Post(Hsm.SIG_PERIOD)), n - 1);
    }
  }

  /** The worker that executed the client's job finishes it. */
  lemma WorkerEnds(cfg: Config, cap: nat, numJobs: nat, s: System) returns (t: System)
    requires Setting(cfg, numJobs) && Reaches(cfg, cap, numJobs, s) && !s.shared && Busy(s) && Kept(s)
    requires 0 < |s.pool.workers| && s.pool.workers[0].Finishing? && s.view.job == Hsm.Some(s.pool.workers[0].entry.job)
    ensures Enabled(cfg, s.pool, Finish(0)) && Reaches(cfg, cap, numJobs, t)
    ensures var r := s.pool.workers[0].returned;
      if |s.mq| < cap
      then t == s.(pool := FinishStep(cfg, s.pool, 0), mq := s.mq + [Completion(s.view.job.value)], verdict := r)
      else t == s.(pool := FinishStep(cfg, s.pool, 0), stranded := true, verdict := r)
    ensures s.pool.jobs[s.view.job.value].result == s.pool.workers[0].returned
  {
    InvReached(cfg, cap, numJobs, s);
    ReachesNext(cfg, cap, numJobs, s, Others(Finish(0)));
    t := Finished(cfg, cap, s, 0);
  }

  /** While the client is busy its message queue fills up, here with periodic signals; then a worker finishes its job,
      and the completion is dropped. This can happen for every capacity of the queue. */
  lemma FullQueueStrands(cfg: Config, cap: nat, numJobs: nat) returns (s: System)
    requires Setting(cfg, numJobs) && 0 < cfg.numSlots && 0 < cap && cfg.cap.AtLeast(1)
    ensures Reaches(cfg, cap, numJobs, s) && s.stranded && s.phase == Resting && Busy(s) && !s.shared && |s.mq| == cap
  {
    s := InitiallyReady(cfg, cap, numJobs);
    s := Launch(cfg, cap, numJobs, s);
    s := FillQueue(cfg, cap, numJobs, s, cap);
    s := WorkerRuns(cfg, cap, numJobs, s, 0);
    s := WorkerEnds(cfg, cap, numJobs, s);
  }

  // ----- A result that is lost to reuse

  /** Another client is given slot 0. */
  lemma OtherAsks(cfg: Config, cap: nat, numJobs: nat) returns (s: System)
    requires Setting(cfg, numJobs) && 0 < cfg.numSlots
    ensures Reaches(cfg, cap, numJobs, s) && s == HsmPool.Initial(cfg, numJobs).(pool := s.pool)
    ensures Shape(cfg, s.pool) && AllWaiting(s.pool) && s.pool.workSem == 0 && s.pool.core.queue == []
    ensures s.pool.core.stats.queueDepth == 0 && s.pool.hist.claims == [0] && s.pool.hist.owner == map[0 := Own(0, true, false)]
    ensures !Notifies(s.pool, 0) && s.pool.hist.draws == 1
  {
    s := HsmPool.Initial(cfg, numJobs);
    assert Runnable(cfg, cap, s, []) && RunTo(cfg, cap, s, []) == s;
    assert AllocIndex(cfg, s.pool) == 0;
    ReachesNext(cfg, cap, numJobs, s, Others(Alloc));
    s := Allocated(cfg, s);
  }

  lemma OtherSubmits(cfg: Config, cap: nat, numJobs: nat, s: System) returns (t: System)
    requires Setting(cfg, numJobs) && 0 < cfg.numSlots && cfg.cap.AtLeast(1)
    requires Reaches(cfg, cap, numJobs, s) && Shape(cfg, s.pool) && Theirs(s, 0) && !Notifies(s.pool, 0)
    requires AllWaiting(s.pool) && s.pool.workSem == 0 && s.pool.core.queue == [] && s.pool.core.stats.queueDepth == 0
    ensures Reaches(cfg, cap, numJobs, t) && t == s.(pool := t.pool)
    ensures AllWaiting(t.pool) && t.pool.workSem == 1 && |t.pool.core.queue| == 1 && t.pool.core.queue[0].job == 0
    ensures t.pool.hist.claims == s.pool.hist.claims && !HasLiveClaim(t.pool, 0) && !Notifies(t.pool, 0)
    ensures 0 in t.pool.hist.owner && t.pool.hist.owner[0].claim == s.pool.hist.owner[0].claim
    ensures t.pool.hist.draws <= s.pool.hist.draws + 1 && !t.pool.core.headLinked
  {
    ReachesNext(cfg, cap, numJobs, s, Others(Submit(0, false)));
    t := s.(pool := SubmitStep(cfg, s.pool, 0, false));
  }

  lemma OtherEnds(cfg: Config, cap: nat, numJobs: nat, s: System) returns (t: System)
    requires Setting(cfg, numJobs) && 0 < cfg.numSlots && Reaches(cfg, cap, numJobs, s) && s.pool.stop == Live
    requires 0 < |s.pool.workers| && s.pool.workers[0].Finishing? && s.pool.workers[0].entry.job == 0
    requires !Notifies(s.pool, 0)
    requires forall w :: 1 <= w < |s.pool.workers| ==> s.pool.workers[w] == Waiting
    ensures Reaches(cfg, cap, numJobs, t) && t == s.(pool := t.pool) && Shape(cfg, t.pool) && AllWaiting(t.pool)
    ensures t.pool.workSem == s.pool.workSem && t.pool.core.queue == s.pool.core.queue
    ensures t.pool.jobs[0].result == s.pool.workers[0].returned && !InFlight(t.pool, 0)
    ensures 0 <= t.pool.jobs[0].result ==> AllocIndex(cfg, t.pool) == 0
    ensures t.pool.hist.claims == s.pool.hist.claims && t.pool.hist.owner == s.pool.hist.owner
    ensures t.pool.hist.draws == s.pool.hist.draws
  {
    StructureReached(cfg, cap, numJobs, s);
    ReachesNext(cfg, cap, numJobs, s, Others(Finish(0)));
    t := s.(pool := FinishStep(cfg, s.pool, 0));
    FlightFinish(cfg, s.pool, 0);
    StructureFinish(cfg, s.pool, 0);
  }

  lemma StructureReached(cfg: Config, cap: nat, numJobs: nat, s: System)
    requires Setting(cfg, numJobs) && Reaches(cfg, cap, numJobs, s)
    ensures Structure(cfg, s.pool)
  {
    InvReached(cfg, cap, numJobs, s);
  }

  /** Another client was given slot 0 first, has run a job in it, and has not freed it. */
  lemma SomebodyBefore(cfg: Config, cap: nat, numJobs: nat) returns (s: System)
    requires Setting(cfg, numJobs) && 0 < cfg.numSlots && cfg.cap.AtLeast(1)
    ensures Reaches(cfg, cap, numJobs, s) && SlotReady(cfg, s) && s.pool.hist.claims == [0]
  {
    s := OtherAsks(cfg, cap, numJobs);
    s := OtherSubmits(cfg, cap, numJobs, s);
    s := WorkerRuns(cfg, cap, numJobs, s, 0);
    s := OtherEnds(cfg, cap, numJobs, s);
  }

  /** The client's job in slot 0 has returned `r`, and its completion waits to be read. */
  lemma ClientJobEnds(cfg: Config, cap: nat, numJobs: nat, r: int) returns (s: System)
    requires Setting(cfg, numJobs) && 0 < cfg.numSlots && 0 < cap && cfg.cap.AtLeast(1)
    ensures Reaches(cfg, cap, numJobs, s) && s.phase == Resting && !s.shared && Busy(s) && s.view.job == Hsm.Some(0)
    ensures s.verdict == r && s.mq == [Completion(0)] && s.mine == {1} && s.claim == 1
    ensures s.pool.hist.claims == [0, 0] && !InFlight(s.pool, 0) && Shape(cfg, s.pool)
    ensures AllWaiting(s.pool) && s.pool.workSem == 0 && s.pool.core.queue == [] && s.pool.hist.draws <= 5
  {
    s := SomebodyBefore(cfg, cap, numJobs);
    s := Launch(cfg, cap, numJobs, s);
    s := WorkerRuns(cfg, cap, numJobs, s, r);
    s := WorkerEnds(cfg, cap, numJobs, s);
    ReadyToRead(cfg, cap, numJobs, s);
  }

  lemma ReadyToRead(cfg: Config, cap: nat, numJobs: nat, s: System)
    requires Setting(cfg, numJobs) && Reaches(cfg, cap, numJobs, s) && !s.shared
    requires Expecting(s) && Kept(s) && s.mq == [Completion(s.view.job.value)]
    ensures !InFlight(s.pool, s.view.job.value) && Shape(cfg, s.pool)
  {
    InvReached(cfg, cap, numJobs, s);
    TimesIn(s.mq, Completion(s.view.job.value));
    FinishedNotHeld(s);
  }

  /** The earlier user of the slot frees it, and a third client is given it. */
  lemma PassedOn(cfg: Config, cap: nat, numJobs: nat, r: int) returns (s: System)
    requires Setting(cfg, numJobs) && 0 < cfg.numSlots && 0 < cap && cfg.cap.AtLeast(1)
    ensures Reaches(cfg, cap, numJobs, s) && s.phase == Resting && !s.shared && Busy(s) && s.view.job == Hsm.Some(0)
    ensures s.verdict == r && s.mq == [Completion(0)] && s.claim == 1 && Theirs(s, 0) && s.pool.hist.owner[0].claim == 2
    ensures Shape(cfg, s.pool) && !Notifies(s.pool, 0)
    ensures AllWaiting(s.pool) && s.pool.workSem == 0 && s.pool.core.queue == [] && s.pool.hist.draws <= 6
  {
    s := ClientJobEnds(cfg, cap, numJobs, r);
    s := OlderFree(cfg, cap, numJobs, s);
    s := GivenAway(cfg, cap, numJobs, s);
  }

  lemma GivenAway(cfg: Config, cap: nat, numJobs: nat, s: System) returns (t: System)
    requires Reaches(cfg, cap, numJobs, s) && Shape(cfg, s.pool) && s.phase == Resting
    requires 0 < cfg.numSlots && IsFree(s.pool.jobs[0].state)
    ensures Reaches(cfg, cap, numJobs, t) && t == s.(pool := Claim(s.pool, 0))
  {
    assert AllocIndex(cfg, s.pool) == 0;
    ReachesNext(cfg, cap, numJobs, s, Others(Alloc));
    t := Allocated(cfg, s);
  }

  /** Between the end of the client's job and its reading the result, the earlier user of the slot frees it, and a third
      client is given it and runs a job in it, each playing by the rules. Whatever the client's function returned, the
      client can read anything: a job that failed is counted as completed. This can happen on every pool with a static
      slot. */
  lemma ReuseSpoilsResult(cfg: Config, cap: nat, numJobs: nat, r: int, x: int) returns (s: System)
    requires Setting(cfg, numJobs) && 0 < cfg.numSlots && 0 < cap && cfg.cap.AtLeast(1)
    ensures Reaches(cfg, cap, numJobs, s) && !s.shared && s.phase.Closing? && !Kept(s)
    ensures s.verdict == r && s.phase.done.result == x && s.pool.hist.draws < U32
    ensures Can(cfg, cap, s, CallPool)
    ensures 0 <= x ==> Next(cfg, cap, s, CallPool).view.completed == Inc32(s.view.completed)
  {
    s := PassedOn(cfg, cap, numJobs, r);
    DepthReached(cfg, cap, numJobs, s);
    s := OtherSubmits(cfg, cap, numJobs, s);
    s := WorkerRuns(cfg, cap, numJobs, s, x);
    s := OtherEnds(cfg, cap, numJobs, s);
    s := ReadsIt(cfg, cap, numJobs, s);
  }

  lemma DepthReached(cfg: Config, cap: nat, numJobs: nat, s: System)
    requires Setting(cfg, numJobs) && Reaches(cfg, cap, numJobs, s)
    ensures s.pool.core.stats.queueDepth == |s.pool.core.queue|
  {
    InvReached(cfg, cap, numJobs, s);
  }

  lemma ReadsIt(cfg: Config, cap: nat, numJobs: nat, s: System) returns (t: System)
    requires Setting(cfg, numJobs) && 0 < cfg.numSlots && Reaches(cfg, cap, numJobs, s) && !s.shared
    requires s.phase == Resting && Busy(s) && s.view.job == Hsm.Some(0) && s.mq == [Completion(0)]
    requires Shape(cfg, s.pool) && !InFlight(s.pool, 0)
    ensures Reaches(cfg, cap, numJobs, t) && t == s.(mq := [], phase := Closing(Done(0, s.pool.jobs[0].result)))
    ensures Can(cfg, cap, t, CallPool)
  {
    InvReached(cfg, cap, numJobs, s);
    CanReceive(cfg, cap, s);
    ReachesNext(cfg, cap, numJobs, s, Receive);
    t := Received(s);
    InvReached(cfg, cap, numJobs, t);
    CanClose(cfg, cap, t);
  }

  /** When the result can be trusted. Consider the moments when the client has read a result and its function had
      returned `r`: what it read is sure to be `r` if and only if no allocation has returned its slot since its job was
      submitted. */
  lemma ResultRightExactlyWhenKept(cfg: Config, cap: nat, numJobs: nat, r: int, kept: bool)
    requires Setting(cfg, numJobs) && 0 < cfg.numSlots && 0 < cap && cfg.cap.AtLeast(1)
    ensures (forall s | Reaches(cfg, cap, numJobs, s) && !s.shared && s.phase.Closing? && s.verdict == r && Kept(s) == kept
             :: s.phase.done.result == r)
            <==> kept
  {
    if kept {
      forall s | Reaches(cfg, cap, numJobs, s) && !s.shared && s.phase.Closing? && s.verdict == r && Kept(s)
        ensures s.phase.done.result == r
      {
        ResultReachesClient(cfg, cap, numJobs, s);
      }
    } else {
      var s := ReuseSpoilsResult(cfg, cap, numJobs, r, r + 1);
    }
  }

  /** The same condition in terms of what a client can look at. Before the id counter wraps, the result is sure to be right
      if and only if the slot has the id that the job was submitted with. */
  lemma ResultRightExactlyWhenSameId(cfg: Config, cap: nat, numJobs: nat, r: int, same: bool)
    requires Setting(cfg, numJobs) && 0 < cfg.numSlots && 0 < cap && cfg.cap.AtLeast(1)
    ensures (forall s | ReadWithId(cfg, cap, numJobs, s, r, same) :: s.phase.done.result == r) <==> same
  {
    if same {
      forall s | ReadWithId(cfg, cap, numJobs, s, r, same) ensures s.phase.done.result == r {
        ReaderIsBusy(cfg, cap, numJobs, s);
        SameIdExactlyWhenKept(cfg, cap, numJobs, s);
        ResultReachesClient(cfg, cap, numJobs, s);
      }
    } else {
      var s := ReuseSpoilsResult(cfg, cap, numJobs, r, r + 1);
      ReaderIsBusy(cfg, cap, numJobs, s);
      SameIdExactlyWhenKept(cfg, cap, numJobs, s);
      assert ReadWithId(cfg, cap, numJobs, s, r, same);
    }
  }

  /** The client has read a result, its function had returned `r`, and the slot has or has not the id of its job. */
  ghost predicate ReadWithId(cfg: Config, cap: nat, numJobs: nat, s: System, r: int, same: bool) {
    && Reaches(cfg, cap, numJobs, s) && !s.shared && s.phase.Closing? && s.verdict == r && s.pool.hist.draws < U32
    && s.phase.done.job < |s.pool.jobs| && (s.pool.jobs[s.phase.done.job].id == s.jobId) == same
  }

  lemma ReaderIsBusy(cfg: Config, cap: nat, numJobs: nat, s: System)
    requires Setting(cfg, numJobs) && Reaches(cfg, cap, numJobs, s) && !s.shared && s.phase.Closing?
    ensures Busy(s) && s.view.job == Hsm.Some(s.phase.done.job) && s.phase.done.job < |s.pool.jobs|
  {
    InvReached(cfg, cap, numJobs, s);
  }

  // ----- A cancel that hits somebody else's job

  /** Another client reads the id of the job it believes to be its own from the slot that the client has been given since,
      and cancels that. The client has not cancelled anything, its message queue is empty, the pool is not stopped; and
      its job is gone. This can happen on every pool with a static slot. */
  lemma OtherCancelStrands(cfg: Config, cap: nat, numJobs: nat) returns (s: System)
    requires Setting(cfg, numJobs) && 0 < cfg.numSlots && 0 < cap && cfg.cap.AtLeast(1)
    ensures Reaches(cfg, cap, numJobs, s) && s.stranded && s.phase == Resting && Busy(s) && !s.shared && Kept(s)
    ensures s.view.cancels == [] && s.mq == [] && s.pool.stop == Live
  {
    s := SomebodyBefore(cfg, cap, numJobs);
    s := Launch(cfg, cap, numJobs, s);
    ShapeReached(cfg, cap, numJobs, s);
    var id := s.pool.jobs[0].id;
    assert QueueIds(cfg, s.pool)[0] == id;
    assert CancelIndex(cfg, s.pool, id) == 0;
    ReachesNext(cfg, cap, numJobs, s, Others(Cancel(id)));
    s := TakenOut(cfg, s, id);
  }

  /** The client does the same to others. Its job has finished and its completion is behind a WORK_CANCEL; the slot passes
      to another client, which submits it; then the client handles the WORK_CANCEL and takes that job out of the queue. */
  lemma ClientCancelsOther(cfg: Config, cap: nat, numJobs: nat) returns (s: System)
    requires Setting(cfg, numJobs) && 0 < cfg.numSlots && 2 <= cap && cfg.cap.AtLeast(1)
    ensures Reaches(cfg, cap, numJobs, s) && !s.shared && s.phase.Cancelling? && Can(cfg, cap, s, CallPool)
    ensures Queued(s.pool, 0) && !Notifies(s.pool, 0) && Gone(cfg, s.pool, s.phase.id) == Hsm.Some(0)
  {
    s := InitiallyReady(cfg, cap, numJobs);
    s := Launch(cfg, cap, numJobs, s);
    ReachesNext(cfg, cap, numJobs, s, Post(WORK_CANCEL));
    s := Next(cfg, cap, s, Post(WORK_CANCEL));
    s := WorkerRuns(cfg, cap, numJobs, s, 0);
    s := WorkerEnds(cfg, cap, numJobs, s);
    s := PassesTo(cfg, cap, numJobs, s);
    s := CancelsIt(cfg, cap, numJobs, s);
  }

  /** A slot whose job has finished is given to another client, which submits it. */
  lemma PassesTo(cfg: Config, cap: nat, numJobs: nat, s: System) returns (t: System)
    requires Setting(cfg, numJobs) && 0 < cfg.numSlots && cfg.cap.AtLeast(1) && Reaches(cfg, cap, numJobs, s)
    requires s.phase == Resting && |s.pool.jobs| > 0 && s.pool.jobs[0].state == Completed && s.mine == {s.claim}
    requires s.claim < |s.pool.hist.claims|
    requires AllWaiting(s.pool) && s.pool.workSem == 0 && s.pool.core.queue == []
    ensures Reaches(cfg, cap, numJobs, t) && t == s.(pool := t.pool) && t.pool.stop == Live && Shape(cfg, t.pool)
    ensures |t.pool.core.queue| == 1 && t.pool.core.queue[0].job == 0 && !t.pool.core.headLinked && !Notifies(t.pool, 0)
  {
    ShapeReached(cfg, cap, numJobs, s);
    DepthReached(cfg, cap, numJobs, s);
    t := GivenAway(cfg, cap, numJobs, s);
    t := OtherSubmits(cfg, cap, numJobs, t);
    ShapeReached(cfg, cap, numJobs, t);
  }

  lemma CancelsIt(cfg: Config, cap: nat, numJobs: nat, s: System) returns (t: System)
    requires Setting(cfg, numJobs) && Reaches(cfg, cap, numJobs, s) && s.phase == Resting && !s.shared
    requires Busy(s) && s.view.job == Hsm.Some(0) && |s.mq| > 0 && s.mq[0] == Posted(WORK_CANCEL)
    requires Shape(cfg, s.pool) && s.pool.stop == Live && |s.pool.core.queue| == 1 && s.pool.core.queue[0].job == 0
    requires !s.pool.core.headLinked && !Notifies(s.pool, 0)
    ensures Reaches(cfg, cap, numJobs, t) && !t.shared && t.phase.Cancelling? && Can(cfg, cap, t, CallPool)
    ensures Queued(t.pool, 0) && !Notifies(t.pool, 0) && Gone(cfg, t.pool, t.phase.id) == Hsm.Some(0)
  {
    InvReached(cfg, cap, numJobs, s);
    CanReceive(cfg, cap, s);
    ReachesNext(cfg, cap, numJobs, s, Receive);
    t := Received(s);
    assert QueueIds(cfg, t.pool)[0] == t.phase.id;
    assert CancelIndex(cfg, t.pool, t.phase.id) == 0;
    AnswerInRange(cfg, s.pool, s.view, s.mq[0]);
    CanCancel(cfg, cap, t);
  }

  // ----- A shared slot

  /** The earlier user of slot 0 frees it after it has been handed to the client, and a third client is given it: two
      threads hold it now. */
  lemma SharedReachable(cfg: Config, cap: nat, numJobs: nat) returns (s: System)
    requires Setting(cfg, numJobs) && 0 < cfg.numSlots && 0 < cap && cfg.cap.AtLeast(1)
    ensures Reaches(cfg, cap, numJobs, s) && s.shared && s.phase == Initialising(0) && s.view == START && s.mq == []
    ensures Shape(cfg, s.pool) && AllWaiting(s.pool) && s.pool.workSem == 0 && s.pool.core.queue == []
    ensures s.claim == 1 && s.pool.hist.claims == [0, 0, 0] && 0 in s.pool.hist.owner
  {
    s := SomebodyBefore(cfg, cap, numJobs);
    s := Ask(cfg, cap, numJobs, s);
    ShapeReached(cfg, cap, numJobs, s);
    s := OlderFree(cfg, cap, numJobs, s);
    assert AllocIndex(cfg, s.pool) == 0;
    ReachesNext(cfg, cap, numJobs, s, Others(Alloc));
    s := Allocated(cfg, s);
    assert s.pool.hist.claims == [0, 0, 0];
  }

  /** The earlier user frees the slot. */
  lemma OlderFree(cfg: Config, cap: nat, numJobs: nat, s: System) returns (t: System)
    requires 0 < cfg.numSlots && Reaches(cfg, cap, numJobs, s) && Shape(cfg, s.pool) && !InFlight(s.pool, 0)
    requires 0 < |s.pool.hist.claims| && s.pool.hist.claims[0] == 0 && 0 !in s.mine
    ensures Reaches(cfg, cap, numJobs, t) && t == s.(pool := t.pool)
    ensures t.pool == s.pool.(jobs := t.pool.jobs, hist := s.pool.hist.(owner := t.pool.hist.owner))
    ensures t.pool.jobs == s.pool.jobs[0 := s.pool.jobs[0].(state := Completed)]
    ensures t.pool.hist.owner.Keys == s.pool.hist.owner.Keys
  {
    ReachesNext(cfg, cap, numJobs, s, Others(Free(0, 0)));
    t := s.(pool := FreeStep(cfg, s.pool, 0, 0));
  }

  /** What is lost then. The client has run its job in the shared slot and is back in `idle`; the other owner submits the
      slot, which still names the client: a job that will tell the client of its completion is in the queue while the client
      waits for nothing. */
  lemma SharedMisleads(cfg: Config, cap: nat, numJobs: nat) returns (s: System)
    requires Setting(cfg, numJobs) && 0 < cfg.numSlots && 0 < cap && cfg.cap.AtLeast(1)
    ensures Reaches(cfg, cap, numJobs, s) && s.phase == Resting && s.view.active.current == IDLE && QueuedFor(s.pool, 0)
  {
    s := SharedReachable(cfg, cap, numJobs);
    s := SharedSubmit(cfg, cap, numJobs, s);
    s := WorkerRuns(cfg, cap, numJobs, s, 0);
    s := SharedEnds(cfg, cap, numJobs, s);
    DepthReached(cfg, cap, numJobs, s);
    ReachesNext(cfg, cap, numJobs, s, Others(Submit(0, false)));
    s := s.(pool := SubmitStep(cfg, s.pool, 0, false));
    assert s.pool.core.queue[0].job == 0;
  }

  lemma SharedSubmit(cfg: Config, cap: nat, numJobs: nat, s: System) returns (t: System)
    requires Setting(cfg, numJobs) && 0 < cfg.numSlots && cfg.cap.AtLeast(1) && Reaches(cfg, cap, numJobs, s) && s.shared
    requires s.phase == Initialising(0) && s.view == START && s.mq == [] && Shape(cfg, s.pool) && AllWaiting(s.pool)
    requires s.pool.workSem == 0 && s.pool.core.queue == [] && 0 in s.pool.hist.owner
    ensures Reaches(cfg, cap, numJobs, t) && t.shared && t.phase == Resting && Busy(t) && AtRest(t.view) && t.mq == []
    ensures t.claim == s.claim && t.pool.hist.claims == s.pool.hist.claims && t.view.job == Hsm.Some(0)
    ensures AllWaiting(t.pool) && t.pool.workSem == 1 && |t.pool.core.queue| == 1 && t.pool.core.queue[0].job == 0
    ensures Notifies(t.pool, 0) && 0 in t.pool.hist.owner
  {
    DepthReached(cfg, cap, numJobs, s);
    ReachesNext(cfg, cap, numJobs, s, CallPool);
    InitChange(cfg, cap, s);
    t := CallMade(cfg, s);
    t := SharedAccepted(cfg, cap, numJobs, t);
  }

  lemma SharedAccepted(cfg: Config, cap: nat, numJobs: nat, s: System) returns (t: System)
    requires Setting(cfg, numJobs) && 0 < cfg.numSlots && cfg.cap.AtLeast(1) && Reaches(cfg, cap, numJobs, s) && s.shared
    requires s.phase == Submitting(0) && s.view == START && s.mq == [] && Shape(cfg, s.pool) && AllWaiting(s.pool)
    requires s.pool.workSem == 0 && s.pool.core.queue == [] && 0 in s.pool.hist.owner && s.pool.core.stats.queueDepth == 0
    ensures Reaches(cfg, cap, numJobs, t) && t.shared && t.phase == Resting && Busy(t) && AtRest(t.view) && t.mq == []
    ensures t.claim == s.claim && t.pool.hist.claims == s.pool.hist.claims && t.view.job == Hsm.Some(0)
    ensures AllWaiting(t.pool) && t.pool.workSem == 1 && |t.pool.core.queue| == 1 && t.pool.core.queue[0].job == 0
    ensures Notifies(t.pool, 0) && 0 in t.pool.hist.owner
  {
    ReachesNext(cfg, cap, numJobs, s, CallPool);
    SubmitChange(cfg, cap, s);
    t := CallMade(cfg, s);
  }

  /** The job ends, the client hears of it and frees the slot. */
  lemma SharedEnds(cfg: Config, cap: nat, numJobs: nat, s: System) returns (t: System)
    requires Setting(cfg, numJobs) && 0 < cfg.numSlots && 0 < cap && Reaches(cfg, cap, numJobs, s) && s.shared
    requires s.phase == Resting && Busy(s) && AtRest(s.view) && s.view.job == Hsm.Some(0) && s.mq == []
    requires s.claim < |s.pool.hist.claims| && s.pool.hist.claims[s.claim] == 0 && 0 in s.pool.hist.owner
    requires s.pool.core.queue == [] && s.pool.stop == Live && Notifies(s.pool, 0)
    requires 0 < |s.pool.workers| && s.pool.workers[0].Finishing? && s.pool.workers[0].entry.job == 0
    requires forall w :: 1 <= w < |s.pool.workers| ==> s.pool.workers[w] == Waiting
    ensures Reaches(cfg, cap, numJobs, t) && t.shared && t.phase == Resting && t.view.active.current == IDLE
    ensures Shape(cfg, t.pool) && AllWaiting(t.pool) && t.pool.core.queue == []
    ensures Notifies(t.pool, 0) && 0 in t.pool.hist.owner
  {
    ShapeReached(cfg, cap, numJobs, s);
    ReachesNext(cfg, cap, numJobs, s, Others(Finish(0)));
    t := Finished(cfg, cap, s, 0);
    ShapeReached(cfg, cap, numJobs, t);
    t := SharedCloses(cfg, cap, numJobs, t);
  }

  lemma SharedCloses(cfg: Config, cap: nat, numJobs: nat, s: System) returns (t: System)
    requires Setting(cfg, numJobs) && 0 < cfg.numSlots && Reaches(cfg, cap, numJobs, s) && s.shared
    requires s.phase == Resting && Busy(s) && AtRest(s.view) && s.view.job == Hsm.Some(0) && s.mq == [Completion(0)]
    requires s.claim < |s.pool.hist.claims| && s.pool.hist.claims[s.claim] == 0 && 0 in s.pool.hist.owner
    requires Shape(cfg, s.pool) && AllWaiting(s.pool) && s.pool.core.queue == [] && Notifies(s.pool, 0)
    ensures Reaches(cfg, cap, numJobs, t) && t.shared && t.phase == Resting && t.view.active.current == IDLE
    ensures Shape(cfg, t.pool) && AllWaiting(t.pool) && t.pool.core.queue == []
    ensures Notifies(t.pool, 0) && 0 in t.pool.hist.owner
  {
    ReachesNext(cfg, cap, numJobs, s, Receive);
    var u := Received(s);
    ReachesNext(cfg, cap, numJobs, u, CallPool);
    t := CallMade(cfg, u);
    FreeChange(cfg, cap, u);
  }
}
