/** Whether the client gets back to `idle`: when it still can, when it never will, and how soon everything comes to rest
    if nothing new is posted. */
module HsmReturn {
  import opened Counting
  import opened PoolCore
  import opened PoolProtocol
  import opened PoolInvariants
  import opened PoolTheorems
  import opened HsmClient
  import opened HsmPool
  import opened HsmResults
  import opened HsmRuns
  import Hsm

  // ----- The way back is closed

  /** The client waits for a completion that will never come: its job is lost, or it is still queued and the workers
      have been told to leave. */
  ghost predicate Doomed(s: System) {
    && Expecting(s) && !s.shared && s.view.job.Some?
    && (s.stranded || (s.pool.stop != Live && QueuedFor(s.pool, s.view.job.value)))
  }

  lemma StopStays(cfg: Config, p: State, a: Action)
    requires Enabled(cfg, p, a) && p.stop != Live
    ensures Step(cfg, p, a).stop != Live
  {
  }

  /** Once the pool is told to stop, a queued job of the client's stays in the queue or is cancelled. */
  lemma QueuedStays(cfg: Config, cap: nat, s: System, a: Action, j: nat)
    requires Joint(cfg, s) && !s.shared && s.pool.stop != Live && Can(cfg, cap, s, Others(a)) && QueuedFor(s.pool, j)
    ensures QueuedFor(Step(cfg, s.pool, a), j) || Next(cfg, cap, s, Others(a)).stranded
  {
    if a.Finish? {
      FinishFlight(cfg, s, a.w);
    } else if a.Cancel? {
      CancelFlight(cfg, s.pool, a.id);
    } else {
      OthersFlight(cfg, s, a);
    }
  }

  lemma DoomedOthers(cfg: Config, cap: nat, s: System, a: Action)
    requires Joint(cfg, s) && Doomed(s) && Can(cfg, cap, s, Others(a))
    ensures Doomed(Next(cfg, cap, s, Others(a)))
  {
    OthersChange(cfg, cap, s, a);
    BecomesShared(cfg, cap, s, Others(a));
    if !s.stranded {
      StopStays(cfg, s.pool, a);
      QueuedStays(cfg, cap, s, a, s.view.job.value);
    } else {
      StrandedStays(cfg, cap, s, Others(a));
    }
  }

  lemma StrandedStays(cfg: Config, cap: nat, s: System, m: Move)
    requires Can(cfg, cap, s, m) && s.stranded
    ensures Next(cfg, cap, s, m).stranded
  {
  }

  lemma DoomedReceive(cfg: Config, cap: nat, s: System)
    requires Joint(cfg, s) && Doomed(s) && Can(cfg, cap, s, Receive)
    ensures Doomed(Received(s))
  {
    if s.mq[0].Completion? {
      ReceiveIsExpected(s);
    }
  }

  lemma DoomedCall(cfg: Config, cap: nat, s: System)
    requires Joint(cfg, s) && Doomed(s) && Can(cfg, cap, s, CallPool)
    ensures Doomed(CallMade(cfg, s))
  {
    assert s.phase.Cancelling?;
    DoomedCancel(cfg, cap, s, CallMade(cfg, s));
  }

  lemma DoomedCancel(cfg: Config, cap: nat, s: System, t: System)
    requires Structure(cfg, s.pool) && Doomed(s) && s.phase.Cancelling? && Can(cfg, cap, s, CallPool) && t == CallMade(cfg, s)
    ensures Doomed(t)
  {
    CancelChange(cfg, cap, s);
    CancelFlight(cfg, s.pool, s.phase.id);
    if s.pool.stop != Live {
      StopStays(cfg, s.pool, Cancel(s.phase.id));
    }
  }

  lemma DoomedMove(cfg: Config, cap: nat, s: System, m: Move)
    requires Joint(cfg, s) && Doomed(s) && Can(cfg, cap, s, m)
    ensures Doomed(Next(cfg, cap, s, m))
  {
    match m
    case Others(a) => DoomedOthers(cfg, cap, s, a);
    case Post(_) =>
    case Receive => DoomedReceive(cfg, cap, s);
    case CallPool => DoomedCall(cfg, cap, s);
  }

  lemma {:induction false} DoomedStays(cfg: Config, cap: nat, s: System, moves: seq<Move>)
    requires Joint(cfg, s) && Doomed(s) && Runnable(cfg, cap, s, moves)
    ensures Doomed(RunTo(cfg, cap, s, moves))
    decreases |moves|
  {
    if moves != [] {
      DoomedMove(cfg, cap, s, moves[0]);
      InvMove(cfg, cap, s, moves[0]);
      DoomedStays(cfg, cap, Next(cfg, cap, s, moves[0]), moves[1..]);
    }
  }

  /** After the pool is told to stop: slot `j` is at the head of the queue with a stale `prev`, so that nobody can take it
      out. */
  predicate Blocked(p: State, j: nat) {
    p.stop != Live && p.core.queue != [] && p.core.queue[0].job == j && p.core.headLinked
  }

  lemma BlockedStays(cfg: Config, p: State, a: Action, j: nat)
    requires Blocked(p, j) && Enabled(cfg, p, a)
    ensures Blocked(Step(cfg, p, a), j)
  {
  }

  /** The client's completion is on the way, but the slot it will have to free is stuck in the queue for somebody else. */
  ghost predicate Stuck(s: System) {
    Busy(s) && !s.shared && s.view.job.Some? && Blocked(s.pool, s.view.job.value)
  }

  lemma StuckMove(cfg: Config, cap: nat, s: System, m: Move)
    requires Joint(cfg, s) && Stuck(s) && Can(cfg, cap, s, m)
    ensures Stuck(Next(cfg, cap, s, m))
  {
    match m
    case Others(a) =>
      OthersChange(cfg, cap, s, a);
      BecomesShared(cfg, cap, s, m);
      BlockedStays(cfg, s.pool, a, s.view.job.value);
    case Post(_) =>
    case Receive =>
    case CallPool =>
      assert Queued(s.pool, s.view.job.value);
      assert s.phase.Cancelling?;
      CancelChange(cfg, cap, s);
      BlockedStays(cfg, s.pool, Cancel(s.phase.id), s.view.job.value);
  }

  lemma {:induction false} StuckStays(cfg: Config, cap: nat, s: System, moves: seq<Move>)
    requires Joint(cfg, s) && Stuck(s) && Runnable(cfg, cap, s, moves)
    ensures Stuck(RunTo(cfg, cap, s, moves))
    decreases |moves|
  {
    if moves != [] {
      StuckMove(cfg, cap, s, moves[0]);
      InvMove(cfg, cap, s, moves[0]);
      StuckStays(cfg, cap, Next(cfg, cap, s, moves[0]), moves[1..]);
    }
  }

  /** Nothing will bring the client back to `idle`: its job is lost, or it is still queued when the pool is told to stop, or
      its slot is stuck in the queue for somebody else by then. */
  ghost predicate NoWayBack(s: System) {
    s.stranded
    || (s.pool.stop != Live && s.view.job.Some? &&
        (QueuedFor(s.pool, s.view.job.value) || Blocked(s.pool, s.view.job.value)))
  }

  /** Such a client stays in `processing` over every run. */
  lemma DoomedForEver(cfg: Config, cap: nat, numJobs: nat, s: System, moves: seq<Move>)
    requires Setting(cfg, numJobs) && Reaches(cfg, cap, numJobs, s) && !s.shared && Busy(s) && NoWayBack(s)
    requires Runnable(cfg, cap, s, moves)
    ensures Busy(RunTo(cfg, cap, s, moves))
  {
    InvReached(cfg, cap, numJobs, s);
    if Stuck(s) {
      StuckStays(cfg, cap, s, moves);
    } else {
      DoomedStays(cfg, cap, s, moves);
    }
  }

  /** The pool is told to stop while the client's job is queued: the job is not lost, and still nobody will run it. */
  lemma ShutdownStrands(cfg: Config, cap: nat, numJobs: nat) returns (s: System)
    requires Setting(cfg, numJobs) && 0 < cfg.numSlots && 0 < cap
    ensures Reaches(cfg, cap, numJobs, s) && Doomed(s) && !s.stranded && s.phase == Resting
  {
    s := InitiallyReady(cfg, cap, numJobs);
    s := Launch(cfg, cap, numJobs, s);
    ShapeReached(cfg, cap, numJobs, s);
    ReachesNext(cfg, cap, numJobs, s, Others(Shutdown));
    s := s.(pool := Step(cfg, s.pool, Shutdown));
  }

  // ----- A slot that gets stuck

  lemma JobsStay(cfg: Config, cap: nat, s: System, m: Move)
    requires Can(cfg, cap, s, m)
    ensures |Next(cfg, cap, s, m).pool.jobs| == |s.pool.jobs|
  {
    match m
    case Others(a) =>
      OthersChange(cfg, cap, s, a);
      OthersNotifyLess(cfg, s, a);
    case CallPool =>
      CallNotifies(cfg, cap, s);
      assert Next(cfg, cap, s, m).pool == Step(cfg, s.pool, NextCall(s));
    case _ =>
  }

  lemma {:induction false} JobsRun(cfg: Config, cap: nat, s: System, moves: seq<Move>)
    requires Runnable(cfg, cap, s, moves)
    ensures |RunTo(cfg, cap, s, moves).pool.jobs| == |s.pool.jobs|
    decreases |moves|
  {
    if moves != [] {
      JobsStay(cfg, cap, s, moves[0]);
      JobsRun(cfg, cap, Next(cfg, cap, s, moves[0]), moves[1..]);
    }
  }

  lemma JobsReached(cfg: Config, cap: nat, numJobs: nat, s: System)
    requires Reaches(cfg, cap, numJobs, s)
    ensures |s.pool.jobs| == numJobs
  {
    var init := HsmPool.Initial(cfg, numJobs);
    var moves :| Runnable(cfg, cap, init, moves) && RunTo(cfg, cap, init, moves) == s;
    JobsRun(cfg, cap, init, moves);
  }

  /** The client's job has finished and its slot has passed to another client, which submits it behind a third job; a worker
      takes that one, and the pool is told to stop. The slot is now at the head of the queue with a stale `prev`. */
  lemma ReuseStrands(cfg: Config, cap: nat, numJobs: nat) returns (s: System)
    requires Setting(cfg, numJobs) && 0 < cfg.numSlots < numJobs && 0 < cap && cfg.cap.AtLeast(1)
    requires 2 <= cfg.queueSize && !cfg.clearsPrev
    ensures Reaches(cfg, cap, numJobs, s) && Stuck(s) && !s.stranded && s.pool.stop != Stopped
  {
    s := PassedOn(cfg, cap, numJobs, 0);
    NotLost(cfg, cap, numJobs, s);
    JobsReached(cfg, cap, numJobs, s);
    DepthReached(cfg, cap, numJobs, s);
    s := TwoSubmit(cfg, cap, numJobs, s);
    s := FirstTaken(cfg, cap, numJobs, s);
    ReachesNext(cfg, cap, numJobs, s, Others(Shutdown));
    s := s.(pool := Step(cfg, s.pool, Shutdown));
  }

  lemma NotLost(cfg: Config, cap: nat, numJobs: nat, s: System)
    requires Setting(cfg, numJobs) && Reaches(cfg, cap, numJobs, s) && !s.shared && Busy(s) && s.mq == [Completion(0)]
    ensures !s.stranded
  {
    InvReached(cfg, cap, numJobs, s);
    TimesIn(s.mq, Completion(0));
  }

  lemma TwoSubmit(cfg: Config, cap: nat, numJobs: nat, s: System) returns (t: System)
    requires Setting(cfg, numJobs) && 0 < cfg.numSlots < |s.pool.jobs| && cfg.cap.AtLeast(1) && 2 <= cfg.queueSize
    requires Reaches(cfg, cap, numJobs, s) && Shape(cfg, s.pool) && Theirs(s, 0)
    requires AllWaiting(s.pool) && s.pool.core.queue == [] && s.pool.core.stats.queueDepth == 0
    ensures Reaches(cfg, cap, numJobs, t) && t == s.(pool := t.pool) && AllWaiting(t.pool) && 0 < t.pool.workSem
    ensures |t.pool.core.queue| == 2 && t.pool.core.queue[1].job == 0
  {
    t := OneSubmits(cfg, cap, numJobs, s, cfg.numSlots);
    t := OneSubmits(cfg, cap, numJobs, t, 0);
  }

  lemma OneSubmits(cfg: Config, cap: nat, numJobs: nat, s: System, j: nat) returns (t: System)
    requires cfg.cap.AtLeast(1) && Reaches(cfg, cap, numJobs, s) && Shape(cfg, s.pool) && AllWaiting(s.pool)
    requires j < |s.pool.jobs| && !Queued(s.pool, j) && (j < cfg.numSlots ==> Theirs(s, j)) && Theirs(s, 0)
    requires s.pool.core.stats.queueDepth == |s.pool.core.queue| < cfg.queueSize < U32
    ensures Reaches(cfg, cap, numJobs, t) && t == s.(pool := t.pool) && AllWaiting(t.pool) && 0 < t.pool.workSem
    ensures |t.pool.core.queue| == |s.pool.core.queue| + 1 && t.pool.core.queue[|s.pool.core.queue|].job == j
    ensures t.pool.core.stats.queueDepth == |t.pool.core.queue| && Shape(cfg, t.pool) && Theirs(t, 0)
    ensures t.pool.core.queue[..|s.pool.core.queue|] == s.pool.core.queue && |t.pool.jobs| == |s.pool.jobs|
  {
    ReachesNext(cfg, cap, numJobs, s, Others(Submit(j, false)));
    t := s.(pool := SubmitStep(cfg, s.pool, j, false));
  }

  lemma FirstTaken(cfg: Config, cap: nat, numJobs: nat, s: System) returns (t: System)
    requires Setting(cfg, numJobs) && Reaches(cfg, cap, numJobs, s) && AllWaiting(s.pool) && 0 < s.pool.workSem
    requires |s.pool.core.queue| == 2 && !cfg.clearsPrev
    ensures Reaches(cfg, cap, numJobs, t) && t == s.(pool := t.pool) && t.pool.stop == Live && Shape(cfg, t.pool)
    ensures t.pool.core.queue == s.pool.core.queue[1..] && t.pool.core.headLinked
  {
    ShapeReached(cfg, cap, numJobs, s);
    OthersReach(cfg, cap, numJobs, s, TakeToken(0));
    t := s.(pool := Step(cfg, s.pool, TakeToken(0)));
    OthersReach(cfg, cap, numJobs, t, Fetch(0));
    t := t.(pool := FetchStep(cfg, t.pool, 0));
  }

  // ----- The way back is open

  ghost predicate CanReturn(cfg: Config, cap: nat, s: System) {
    exists moves :: Runnable(cfg, cap, s, moves) && RunTo(cfg, cap, s, moves).view.active.current == IDLE
  }

  lemma Prepend(cfg: Config, cap: nat, s: System, m: Move)
    requires Can(cfg, cap, s, m) && CanReturn(cfg, cap, Next(cfg, cap, s, m))
    ensures CanReturn(cfg, cap, s)
  {
    var t := Next(cfg, cap, s, m);
    var moves :| Runnable(cfg, cap, t, moves) && RunTo(cfg, cap, t, moves).view.active.current == IDLE;
    assert ([m] + moves)[1..] == moves;
    assert Runnable(cfg, cap, s, [m] + moves);
  }

  /** The client waits for a job that is not lost. */
  ghost predicate Hopeful(cfg: Config, s: System) {
    Joint(cfg, s) && !s.shared && Expecting(s) && !s.stranded && s.pool.hist.draws < U32
  }

  /** Nobody else has the slot of the client's job in the pool. */
  ghost predicate SlotClear(s: System)
    requires s.view.job.Some?
  {
    !Queued(s.pool, s.view.job.value) && (Held(s.pool, s.view.job.value) ==> Kept(s))
  }

  /** A cancel of a job that has left the queue finds nothing, so it breaks nothing. */
  lemma LateCancel(cfg: Config, cap: nat, s: System)
    requires Hopeful(cfg, s) && s.phase.Cancelling? && !Queued(s.pool, s.view.job.value) && s.pool.stop != Stopped
    ensures Can(cfg, cap, s, CallPool)
    ensures CancelIndex(cfg, s.pool, s.phase.id) == |s.pool.core.queue|
  {
    FoundExactly(cfg, s.pool, s.phase.id, s.view.job.value);
    CanCancel(cfg, cap, s);
  }

  ghost function Steps(s: System): nat {
    2 * |s.mq| + One(s.phase.Cancelling?)
  }

  /** In `t` the same job is nearer to its end: it has been finished, or there is less to read, or less to execute. */
  ghost predicate Nearer(s: System, t: System) {
    var j := s.view.job;
    && t.view.job == j && j.Some?
    && (Held(t.pool, j.value) ==>
          && Held(s.pool, j.value) && Steps(t) <= Steps(s)
          && (Steps(t) == Steps(s) ==> Total(t.pool.workers, Effort) < Total(s.pool.workers, Effort)))
    && (!Held(t.pool, j.value) && !Held(s.pool, j.value) ==> Steps(t) < Steps(s))
  }

  lemma CancelDrains(cfg: Config, cap: nat, s: System)
    requires Hopeful(cfg, s) && s.phase.Cancelling? && !Queued(s.pool, s.view.job.value)
    requires Can(cfg, cap, s, CallPool) && CancelIndex(cfg, s.pool, s.phase.id) == |s.pool.core.queue|
    ensures var t := CallMade(cfg, s);
      Hopeful(cfg, t) && t.pool == s.pool && t.mq == s.mq && t.phase == Resting && t.view.job == s.view.job
  {
    InvMove(cfg, cap, s, CallPool);
    CancelChange(cfg, cap, s);
  }

  lemma PostedDrains(cfg: Config, cap: nat, s: System)
    requires Hopeful(cfg, s) && s.phase == Resting && s.mq != [] && s.mq[0].Posted?
    ensures Can(cfg, cap, s, Receive)
    ensures var t := Received(s);
      Hopeful(cfg, t) && t.pool == s.pool && t.mq == s.mq[1..] && t.view == s.view
  {
    CanReceive(cfg, cap, s);
    InvMove(cfg, cap, s, Receive);
  }

  /** The completion is received, the slot is freed, and the client is back in `idle`. */
  lemma CompletionReturns(cfg: Config, cap: nat, s: System)
    requires Hopeful(cfg, s) && s.phase == Resting && s.mq != [] && s.mq[0].Completion? && SlotClear(s)
    ensures CanReturn(cfg, cap, s)
  {
    CanReceive(cfg, cap, s);
    InvMove(cfg, cap, s, Receive);
    ReceiveIsExpected(s);
    ClosesFree(cfg, cap, Received(s));
    Prepend(cfg, cap, s, Receive);
  }

  /** A completion that has been read is settled: the slot is freed, and the client is back in `idle`. */
  lemma ClosesFree(cfg: Config, cap: nat, s: System)
    requires Joint(cfg, s) && !s.shared && s.phase.Closing? && !InFlight(s.pool, s.phase.done.job)
    ensures CanReturn(cfg, cap, s)
  {
    CanClose(cfg, cap, s);
    FreeChange(cfg, cap, s);
    var t := CallMade(cfg, s);
    assert Runnable(cfg, cap, t, []) && RunTo(cfg, cap, t, []) == t;
    Prepend(cfg, cap, s, CallPool);
  }

  /** With nothing left to read, the job is with a worker. */
  lemma Holder(cfg: Config, s: System) returns (w: nat)
    requires Hopeful(cfg, s) && s.mq == [] && !Queued(s.pool, s.view.job.value)
    ensures w < |s.pool.workers| && s.pool.workers[w].Active() && s.pool.workers[w].entry.job == s.view.job.value
  {
    assert Held(s.pool, s.view.job.value);
    w :| 0 <= w < |s.pool.workers| && s.pool.workers[w].Active() && s.pool.workers[w].entry.job == s.view.job.value;
  }

  lemma WorkKeeps(cfg: Config, cap: nat, s: System, a: Action)
    requires Hopeful(cfg, s) && WorkerAction(a) && Enabled(cfg, s.pool, a)
    ensures Can(cfg, cap, s, Others(a))
    ensures !Next(cfg, cap, s, Others(a)).stranded ==> Hopeful(cfg, Next(cfg, cap, s, Others(a)))
    ensures Next(cfg, cap, s, Others(a)).pool.stop == s.pool.stop
    ensures Kept(Next(cfg, cap, s, Others(a))) <==> Kept(s)
  {
    InvMove(cfg, cap, s, Others(a));
    OthersChange(cfg, cap, s, a);
    OthersKeepKept(cfg, s, a);
    BecomesShared(cfg, cap, s, Others(a));
    DrawsStay(cfg, s.pool, a);
  }

  lemma DrawsStay(cfg: Config, p: State, a: Action)
    requires WorkerAction(a) && Enabled(cfg, p, a)
    ensures Step(cfg, p, a).hist.draws == p.hist.draws && Step(cfg, p, a).stop == p.stop
  {
  }

  lemma ExecuteDrains(cfg: Config, cap: nat, s: System, w: nat)
    requires Hopeful(cfg, s) && Enabled(cfg, s.pool, Execute(w, 0))
    ensures Can(cfg, cap, s, Others(Execute(w, 0)))
    ensures var t := Next(cfg, cap, s, Others(Execute(w, 0)));
      Hopeful(cfg, t) && t == s.(pool := Step(cfg, s.pool, Execute(w, 0))) && (Kept(t) <==> Kept(s))
  {
    WorkKeeps(cfg, cap, s, Execute(w, 0));
  }

  lemma ExecuteMoves(cfg: Config, p: State, w: nat)
    requires Enabled(cfg, p, Execute(w, 0))
    ensures var q := Step(cfg, p, Execute(w, 0));
      SameFlight(p, q) && q.stop == p.stop && Total(q.workers, Effort) < Total(p.workers, Effort)
  {
    FlightSame(cfg, p, Execute(w, 0));
    TotalUpdate(p.workers, Effort, w, Step(cfg, p, Execute(w, 0)).workers[w]);
  }

  lemma FinishDrains(cfg: Config, cap: nat, s: System, w: nat)
    requires 0 < cap && Hopeful(cfg, s) && s.mq == [] && Enabled(cfg, s.pool, Finish(w))
    requires s.pool.workers[w].entry.job == s.view.job.value && !Queued(s.pool, s.view.job.value)
    ensures Can(cfg, cap, s, Others(Finish(w)))
    ensures var t := Next(cfg, cap, s, Others(Finish(w)));
      && Hopeful(cfg, t) && t.phase == s.phase && t.view == s.view && t.pool.stop == s.pool.stop
      && !InFlight(t.pool, s.view.job.value)
  {
    WorkKeeps(cfg, cap, s, Finish(w));
    FlightFinish(cfg, s.pool, w);
  }

  /** What the worker that holds the job does next. */
  lemma WorkDrains(cfg: Config, cap: nat, s: System) returns (a: Action)
    requires 0 < cap && Hopeful(cfg, s) && SlotClear(s) && s.mq == []
    ensures Can(cfg, cap, s, Others(a)) && Held(s.pool, s.view.job.value)
    ensures var t := Next(cfg, cap, s, Others(a));
      && Hopeful(cfg, t) && t.view == s.view && t.phase == s.phase && t.pool.stop == s.pool.stop
      && SlotClear(t)
      && (Held(t.pool, s.view.job.value) ==>
            t.mq == s.mq && Total(t.pool.workers, Effort) < Total(s.pool.workers, Effort))
  {
    var w := Holder(cfg, s);
    if s.pool.workers[w].Executing? {
      a := Execute(w, 0);
      ExecuteDrains(cfg, cap, s, w);
      ExecuteMoves(cfg, s.pool, w);
    } else {
      a := Finish(w);
      FinishDrains(cfg, cap, s, w);
    }
  }

  /** The client's next move, or its worker's. */
  lemma DrainStep(cfg: Config, cap: nat, s: System) returns (m: Move)
    requires 0 < cap && Hopeful(cfg, s) && SlotClear(s) && s.pool.stop != Stopped
    requires s.phase == Resting && s.mq != [] ==> s.mq[0].Posted?
    ensures Can(cfg, cap, s, m)
    ensures var t := Next(cfg, cap, s, m);
      Hopeful(cfg, t) && t.view.job == s.view.job && SlotClear(t) && t.pool.stop == s.pool.stop && Nearer(s, t)
  {
    if s.phase.Cancelling? {
      m := CallPool;
      LateCancel(cfg, cap, s);
      CancelDrains(cfg, cap, s);
    } else if s.mq == [] {
      var a := WorkDrains(cfg, cap, s);
      m := Others(a);
    } else {
      m := Receive;
      PostedDrains(cfg, cap, s);
    }
  }

  /** The client works off what it has been sent, and lets its worker finish. */
  lemma {:induction false} Drains(cfg: Config, cap: nat, s: System)
    requires 0 < cap && Hopeful(cfg, s) && SlotClear(s) && s.pool.stop != Stopped
    ensures CanReturn(cfg, cap, s)
    decreases One(Held(s.pool, s.view.job.value)), Steps(s), Total(s.pool.workers, Effort)
  {
    if s.phase == Resting && s.mq != [] && s.mq[0].Completion? {
      CompletionReturns(cfg, cap, s);
    } else {
      var m := DrainStep(cfg, cap, s);
      Drains(cfg, cap, Next(cfg, cap, s, m));
      Prepend(cfg, cap, s, m);
    }
  }

  /** Before the pool is told to stop, the workers get to the client's job. */
  lemma {:induction false} GetsServed(cfg: Config, cap: nat, s: System)
    requires 0 < cap && cfg.cap.AtLeast(cfg.queueSize) && Hopeful(cfg, s) && s.pool.stop == Live
    requires QueuedFor(s.pool, s.view.job.value)
    ensures CanReturn(cfg, cap, s)
    decreases WorkLeft(s.pool)
  {
    var a := SomeWorkerMoves(cfg, s.pool);
    ServedStep(cfg, cap, s, a);
    WorkerActionWorks(cfg, s.pool, a);
    var t := Next(cfg, cap, s, Others(a));
    if QueuedFor(t.pool, t.view.job.value) {
      GetsServed(cfg, cap, t);
    } else {
      Drains(cfg, cap, t);
    }
    Prepend(cfg, cap, s, Others(a));
  }

  lemma ServedStep(cfg: Config, cap: nat, s: System, a: Action)
    requires Hopeful(cfg, s) && QueuedFor(s.pool, s.view.job.value) && WorkerAction(a) && Enabled(cfg, s.pool, a)
    ensures Can(cfg, cap, s, Others(a))
    ensures var t := Next(cfg, cap, s, Others(a));
      && Hopeful(cfg, t) && t.pool == Step(cfg, s.pool, a) && t.pool.stop == s.pool.stop && t.view == s.view
      && (QueuedFor(t.pool, t.view.job.value) || SlotClear(t))
  {
    WorkKeeps(cfg, cap, s, a);
    OthersChange(cfg, cap, s, a);
    ServedFlight(cfg, s, a);
  }

  /** A queued job of the client's stays queued until a worker takes it. */
  lemma ServedFlight(cfg: Config, s: System, a: Action)
    requires Hopeful(cfg, s) && QueuedFor(s.pool, s.view.job.value) && WorkerAction(a) && Enabled(cfg, s.pool, a)
    ensures a.Finish? ==> !Notifies(s.pool, s.pool.workers[a.w].entry.job)
    ensures Kept(s)
    ensures var q, j := Step(cfg, s.pool, a), s.view.job.value; QueuedFor(q, j) || !Queued(q, j)
  {
    if a.Finish? {
      FinishIsExpected(cfg, s, a.w);
      FinishFlight(cfg, s, a.w);
    } else if a.Fetch? && Moves(cfg, s.pool, a) {
      FetchFlight(cfg, s, a.w);
      FlightFetch(cfg, s.pool, a.w);
    } else {
      OthersFlight(cfg, s, a);
    }
  }

  /** The client's job has been finished and its completion is on the way or being handled. */
  ghost predicate Delivered(cfg: Config, s: System) {
    && Joint(cfg, s) && !s.shared && Busy(s) && !s.stranded
    && !QueuedFor(s.pool, s.view.job.value) && !HeldFor(s.pool, s.view.job.value)
  }

  /** When the slot is not in the pool any more, nothing stands in the way, whoever has it by now. */
  lemma Concludes(cfg: Config, cap: nat, s: System)
    requires 0 < cap && Delivered(cfg, s) && s.pool.stop != Stopped && s.pool.hist.draws < U32
    requires !InFlight(s.pool, s.view.job.value)
    ensures CanReturn(cfg, cap, s)
  {
    if s.phase.Closing? {
      ClosesFree(cfg, cap, s);
    } else {
      Drains(cfg, cap, s);
    }
  }

  /** A worker that runs somebody else's job in the client's slot finishes it. */
  lemma {:induction false} OtherGetsDone(cfg: Config, cap: nat, s: System)
    requires 0 < cap && Delivered(cfg, s) && s.pool.stop != Stopped && s.pool.hist.draws < U32
    requires !Queued(s.pool, s.view.job.value)
    ensures CanReturn(cfg, cap, s)
    decreases Total(s.pool.workers, Effort)
  {
    var j := s.view.job.value;
    if w :| 0 <= w < |s.pool.workers| && s.pool.workers[w].Active() && s.pool.workers[w].entry.job == j {
      var a := if s.pool.workers[w].Executing? then Execute(w, 0) else Finish(w);
      DeliveredStep(cfg, cap, s, a);
      LessEffort(cfg, s.pool, a, j);
      DrawsStay(cfg, s.pool, a);
      OtherGetsDone(cfg, cap, Next(cfg, cap, s, Others(a)));
      Prepend(cfg, cap, s, Others(a));
    } else {
      Concludes(cfg, cap, s);
    }
  }

  lemma LessEffort(cfg: Config, p: State, a: Action, j: nat)
    requires Enabled(cfg, p, a) && (a.Execute? || a.Finish?) && !Queued(p, j)
    ensures var q := Step(cfg, p, a); Total(q.workers, Effort) < Total(p.workers, Effort) && !Queued(q, j)
  {
    TotalUpdate(p.workers, Effort, a.w, Step(cfg, p, a).workers[a.w]);
  }

  /** After the pool is told to stop, somebody cancels the other job in the client's slot, unless it is stuck. */
  lemma OtherGetsCancelled(cfg: Config, cap: nat, s: System)
    requires 0 < cap && Delivered(cfg, s) && s.pool.stop != Live && s.pool.stop != Stopped && s.pool.hist.draws < U32
    requires Queued(s.pool, s.view.job.value) && !Blocked(s.pool, s.view.job.value)
    ensures CanReturn(cfg, cap, s)
  {
    var j := s.view.job.value;
    var id := s.pool.jobs[j].id;
    OtherFound(cfg, s.pool, j);
    InvMove(cfg, cap, s, Others(Cancel(id)));
    var t := TakenOut(cfg, s, id);
    CancelFlight(cfg, s.pool, id);
    FlightCancel(cfg, s.pool, id);
    IdsStay(cfg, s.pool, Cancel(id));
    OtherGetsDone(cfg, cap, t);
    Prepend(cfg, cap, s, Others(Cancel(id)));
  }

  lemma OtherFound(cfg: Config, p: State, j: nat)
    requires Inv(cfg, p) && p.hist.draws < U32 && p.stop != Live && p.stop != Stopped
    requires j < |p.jobs| && Queued(p, j) && !Blocked(p, j)
    ensures Enabled(cfg, p, Cancel(p.jobs[j].id)) && Gone(cfg, p, p.jobs[j].id) == Hsm.Some(j)
  {
    FoundExactly(cfg, p, p.jobs[j].id, j);
  }

  /** Before the pool is told to stop, the workers empty it; then the client reads its completion. */
  lemma {:induction false} GetsRead(cfg: Config, cap: nat, s: System)
    requires 0 < cap && Delivered(cfg, s) && s.pool.stop == Live && cfg.cap.AtLeast(cfg.queueSize)
    requires s.pool.hist.draws < U32
    ensures CanReturn(cfg, cap, s)
    decreases WorkLeft(s.pool)
  {
    if s.pool.core.queue != [] || 0 < Total(s.pool.workers, IsActive) {
      var a := SomeWorkerMoves(cfg, s.pool);
      DeliveredStep(cfg, cap, s, a);
      WorkerActionWorks(cfg, s.pool, a);
      DrawsStay(cfg, s.pool, a);
      GetsRead(cfg, cap, Next(cfg, cap, s, Others(a)));
      Prepend(cfg, cap, s, Others(a));
    } else {
      NoneActive(s.pool);
      Concludes(cfg, cap, s);
    }
  }

  lemma NoneActive(p: State)
    requires p.core.queue == [] && Total(p.workers, IsActive) == 0
    ensures forall j: nat :: !InFlight(p, j)
  {
    forall j: nat ensures !Held(p, j) {
      if w :| 0 <= w < |p.workers| && p.workers[w].Active() && p.workers[w].entry.job == j {
        TotalUpdate(p.workers, IsActive, w, Waiting);
      }
    }
  }

  lemma DeliveredFlight(cfg: Config, s: System, a: Action)
    requires Delivered(cfg, s) && WorkerAction(a) && Enabled(cfg, s.pool, a)
    ensures var q, j := Step(cfg, s.pool, a), s.view.job.value; !QueuedFor(q, j) && !HeldFor(q, j)
    ensures a.Finish? ==> !Notifies(s.pool, s.pool.workers[a.w].entry.job)
  {
    if a.Finish? {
      FinishIsExpected(cfg, s, a.w);
      FinishFlight(cfg, s, a.w);
    } else if a.Fetch? && Moves(cfg, s.pool, a) {
      FetchFlight(cfg, s, a.w);
    } else {
      OthersFlight(cfg, s, a);
    }
  }

  lemma DeliveredStep(cfg: Config, cap: nat, s: System, a: Action)
    requires Delivered(cfg, s) && WorkerAction(a) && Enabled(cfg, s.pool, a)
    ensures Can(cfg, cap, s, Others(a))
    ensures var t := Next(cfg, cap, s, Others(a));
      Delivered(cfg, t) && t.pool == Step(cfg, s.pool, a) && t.pool.stop == s.pool.stop
  {
    InvMove(cfg, cap, s, Others(a));
    DeliveredFlight(cfg, s, a);
    assert Next(cfg, cap, s, Others(a)) == s.(pool := Step(cfg, s.pool, a));
  }

  /** When the client gets back to `idle`. In every reachable state in which the client is in `processing`, some run leads
      back if and only if its job is not lost and, once the pool is told to stop, neither its job is still queued nor its
      slot stuck in the queue for somebody else. */
  lemma ReturnsExactly(cfg: Config, cap: nat, numJobs: nat, s: System)
    requires Setting(cfg, numJobs) && Reaches(cfg, cap, numJobs, s) && Busy(s) && !s.shared
    requires 0 < cap && cfg.cap.AtLeast(cfg.queueSize) && s.pool.stop != Stopped && s.pool.hist.draws < U32
    ensures CanReturn(cfg, cap, s) <==> !NoWayBack(s)
  {
    InvReached(cfg, cap, numJobs, s);
    if NoWayBack(s) {
      forall moves | Runnable(cfg, cap, s, moves) ensures RunTo(cfg, cap, s, moves).view.active.current != IDLE {
        DoomedForEver(cfg, cap, numJobs, s, moves);
      }
    } else {
      ReturnsFrom(cfg, cap, s);
    }
  }

  lemma ReturnsFrom(cfg: Config, cap: nat, s: System)
    requires Joint(cfg, s) && Busy(s) && !s.shared && !NoWayBack(s)
    requires 0 < cap && cfg.cap.AtLeast(cfg.queueSize) && s.pool.stop != Stopped && s.pool.hist.draws < U32
    ensures CanReturn(cfg, cap, s)
  {
    var j := s.view.job.value;
    if QueuedFor(s.pool, j) {
      GetsServed(cfg, cap, s);
    } else if HeldFor(s.pool, j) {
      HeldIsClear(cfg, s);
      Drains(cfg, cap, s);
    } else if s.pool.stop == Live {
      GetsRead(cfg, cap, s);
    } else if Queued(s.pool, j) {
      OtherGetsCancelled(cfg, cap, s);
    } else {
      OtherGetsDone(cfg, cap, s);
    }
  }

  lemma HeldIsClear(cfg: Config, s: System)
    requires Joint(cfg, s) && Busy(s) && !s.shared && HeldFor(s.pool, s.view.job.value)
    ensures Expecting(s) && SlotClear(s)
  {
  }

  // ----- How soon everything comes to rest

  /** What happens by itself: a worker acts, the client takes its next event or makes its next pool call. */
  predicate ByItself(m: Move) {
    (m.Others? && WorkerAction(m.a)) || m.Receive? || m.CallPool?
  }

  function WorkerToil(pc: Pc): nat {
    match pc
    case Waiting => 0
    case HasToken => 1
    case Executing(_) => 4
    case Finishing(_, _) => 3
    case Exited => 0
  }

  function EventToil(m: Msg): nat {
    if m.Posted? then 10 else 2
  }

  function PhaseToil(phase: Phase): nat {
    match phase
    case Resting => 0
    case Allocating => 9
    case Initialising(_) => 8
    case Submitting(_) => 7
    case Releasing(_) => 1
    case Closing(_) => 1
    case Cancelling(_) => 1
  }

  ghost function PoolToil(p: State): nat {
    2 * p.workSem + 4 * |p.core.queue| + Total(p.workers, WorkerToil)
  }

  ghost function Toil(s: System): nat {
    PoolToil(s.pool) + Total(s.mq, EventToil) + PhaseToil(s.phase)
  }

  lemma WorkerToils(cfg: Config, p: State, a: Action)
    requires Enabled(cfg, p, a) && WorkerAction(a)
    ensures PoolToil(Step(cfg, p, a)) + (if a.Finish? then 3 else 1) <= PoolToil(p)
  {
    TotalUpdate(p.workers, WorkerToil, a.w, Step(cfg, p, a).workers[a.w]);
  }

  lemma ClientToils(cfg: Config, cap: nat, s: System)
    requires Can(cfg, cap, s, CallPool)
    ensures Toil(CallMade(cfg, s)) < Toil(s)
  {
    CallToils(cfg, s.pool, NextCall(s));
  }

  lemma CallToils(cfg: Config, p: State, a: Action)
    requires Enabled(cfg, p, a) && (a.Alloc? || a.InitJob? || a.Submit? || a.Free? || a.Cancel?)
    ensures PoolToil(Step(cfg, p, a)) <= PoolToil(p) + if a.Submit? && Accepts(cfg, p) then 6 else 0
  {
  }

  lemma {:induction false} TotalHead<T>(xs: seq<T>, f: T -> nat)
    requires xs != []
    ensures Total(xs, f) == f(xs[0]) + Total(xs[1..], f)
  {
    var n := |xs| - 1;
    if n > 0 {
      TotalHead(xs[..n], f);
      assert xs[..n][1..] == xs[1..][..n - 1];
    }
  }

  lemma ToilStep(cfg: Config, cap: nat, s: System, m: Move)
    requires Can(cfg, cap, s, m) && ByItself(m)
    ensures Toil(Next(cfg, cap, s, m)) < Toil(s)
  {
    match m
    case Others(a) => OthersToil(cfg, cap, s, a);
    case Receive => TotalHead(s.mq, EventToil);
    case CallPool => ClientToils(cfg, cap, s);
  }

  lemma OthersToil(cfg: Config, cap: nat, s: System, a: Action)
    requires Can(cfg, cap, s, Others(a)) && WorkerAction(a)
    ensures Toil(Next(cfg, cap, s, Others(a))) < Toil(s)
  {
    WorkerToils(cfg, s.pool, a);
    if a.Finish? {
      var j := s.pool.workers[a.w].entry.job;
      assert (s.mq + [Completion(j)])[..|s.mq|] == s.mq;
    }
  }

  /** Nothing can happen by itself any more. */
  ghost predicate AtRestForGood(cfg: Config, cap: nat, s: System) {
    forall m :: ByItself(m) ==> !Can(cfg, cap, s, m)
  }

  lemma RestIsIdleOrLost(cfg: Config, cap: nat, s: System)
    requires Joint(cfg, s) && !s.shared && s.pool.stop == Live && cfg.cap.AtLeast(cfg.queueSize)
    requires AtRestForGood(cfg, cap, s)
    ensures s.phase == Resting && s.mq == [] && s.pool.core.queue == []
    ensures Busy(s) ==> s.stranded
  {
    NobodyActive(cfg, cap, s);
    RestingForGood(cfg, cap, s);
    if Busy(s) {
      assert !InFlight(s.pool, s.view.job.value);
    }
  }

  lemma RestingForGood(cfg: Config, cap: nat, s: System)
    requires Joint(cfg, s) && !s.shared && s.pool.stop == Live && AtRestForGood(cfg, cap, s)
    requires s.pool.core.queue == [] && forall j: nat :: !InFlight(s.pool, j)
    ensures s.phase == Resting && s.mq == []
  {
    assert ByItself(CallPool) && !Can(cfg, cap, s, CallPool);
    assert ByItself(Receive) && !Can(cfg, cap, s, Receive);
    match s.phase
    case Resting => if s.mq != [] { CanReceive(cfg, cap, s); }
    case Allocating =>
    case Closing(_) => CanClose(cfg, cap, s);
    case Cancelling(_) => CanCancel(cfg, cap, s);
    case _ => CanPrepare(cfg, cap, s);
  }

  lemma NobodyActive(cfg: Config, cap: nat, s: System)
    requires Joint(cfg, s) && s.pool.stop == Live && cfg.cap.AtLeast(cfg.queueSize)
    requires AtRestForGood(cfg, cap, s)
    ensures s.pool.core.queue == [] && forall j: nat :: !InFlight(s.pool, j)
  {
    if s.pool.core.queue != [] || 0 < Total(s.pool.workers, IsActive) {
      var a := SomeWorkerMoves(cfg, s.pool);
      assert Can(cfg, cap, s, Others(a)) && ByItself(Others(a));
      assert false;
    }
    NoneActive(s.pool);
  }

  /** Left to themselves, the workers and the client come to rest after at most `Toil` moves, whatever order they move in;
      and when they cannot move any more on a pool that is not told to stop, the client is in `idle`, with every event
      handled, or its job is lost. */
  lemma ComesToRest(cfg: Config, cap: nat, numJobs: nat, s: System, moves: seq<Move>)
    requires Setting(cfg, numJobs) && Reaches(cfg, cap, numJobs, s)
    requires Runnable(cfg, cap, s, moves) && forall m <- moves :: ByItself(m)
    ensures |moves| <= Toil(s)
    ensures var t := RunTo(cfg, cap, s, moves);
      AtRestForGood(cfg, cap, t) && t.pool.stop == Live && cfg.cap.AtLeast(cfg.queueSize) && !t.shared ==>
        t.phase == Resting && t.mq == [] && (t.view.active.current == IDLE || t.stranded)
  {
    InvReached(cfg, cap, numJobs, s);
    InvRun(cfg, cap, s, moves);
    ToilRun(cfg, cap, s, moves);
    var t := RunTo(cfg, cap, s, moves);
    if AtRestForGood(cfg, cap, t) && t.pool.stop == Live && cfg.cap.AtLeast(cfg.queueSize) && !t.shared {
      RestIsIdleOrLost(cfg, cap, t);
    }
  }

  lemma {:induction false} ToilRun(cfg: Config, cap: nat, s: System, moves: seq<Move>)
    requires Runnable(cfg, cap, s, moves) && forall m <- moves :: ByItself(m)
    ensures |moves| <= Toil(s)
    decreases |moves|
  {
    if moves != [] {
      ToilStep(cfg, cap, s, moves[0]);
      ToilRun(cfg, cap, Next(cfg, cap, s, moves[0]), moves[1..]);
    }
  }
}
