/** What the worker pool promises in every reachable state and over every run. */
module PoolTheorems {
  import opened Counting
  import opened PoolCore
  import opened PoolProtocol
  import opened PoolInvariants

  /** A pool size the code can be configured to, over enough job objects to hold the static slots. */
  predicate Setting(cfg: Config, numJobs: nat) {
    Sized(cfg) && cfg.numSlots <= numJobs
  }

  lemma InvInitial(cfg: Config, numJobs: nat)
    requires Setting(cfg, numJobs)
    ensures Inv(cfg, Initial(cfg, numJobs))
  {
    var s := Initial(cfg, numJobs);
    assert Structure(cfg, s);
    assert Fates(s) by {
      assert Entries(s.hist.started) == [];
      assert forall e :: OneFate(s, e);
    }
    assert Endings(s) by {
      assert Runs(s.hist.finished) == [];
      assert forall r :: OneEnding(s, r);
    }
    assert Balanced(s) by {
      TotalZero(s.workers, IsActive);
    }
  }

  lemma {:induction false} InvExec(cfg: Config, s: State, acts: seq<Action>)
    requires Inv(cfg, s) && Executable(cfg, s, acts)
    ensures Inv(cfg, Exec(cfg, s, acts))
    decreases |acts|
  {
    if acts != [] {
      InvStep(cfg, s, acts[0]);
      InvExec(cfg, Step(cfg, s, acts[0]), acts[1..]);
    }
  }

  lemma InvReachable(cfg: Config, numJobs: nat, s: State)
    requires Setting(cfg, numJobs) && Reachable(cfg, numJobs, s)
    ensures Inv(cfg, s)
  {
    var init := Initial(cfg, numJobs);
    var acts :| Executable(cfg, init, acts) && Exec(cfg, init, acts) == s;
    InvInitial(cfg, numJobs);
    InvExec(cfg, init, acts);
  }

  lemma ReachableStep(cfg: Config, numJobs: nat, s: State, a: Action)
    requires Reachable(cfg, numJobs, s) && Enabled(cfg, s, a)
    ensures Reachable(cfg, numJobs, Step(cfg, s, a))
  {
    var init := Initial(cfg, numJobs);
    var acts :| Executable(cfg, init, acts) && Exec(cfg, init, acts) == s;
    ExecSnoc(cfg, init, acts, a);
  }

  // ----- Fates, order, statistics

  /** Exactly-once fate. Every accepted submission is, at any moment, exactly one of: queued, cancelled, started
      by exactly one worker. A start ends at most once, by the worker that made it, and otherwise is still running. */
  lemma ExactlyOnce(cfg: Config, numJobs: nat, s: State, e: Entry)
    requires Setting(cfg, numJobs) && Reachable(cfg, numJobs, s) && e in s.hist.submitted
    ensures Times(Entries(s.hist.started), e) + Times(s.core.queue, e) + Times(s.hist.cancelled, e) == 1
    ensures forall r :: Times(Runs(s.hist.finished), r) + (if IsRunning(s, r) then 1 else 0) == Times(s.hist.started, r)
  {
    InvReachable(cfg, numJobs, s);
    assert OneFate(s, e);
    TimesNumbered(s.hist.submitted, e);
    forall r ensures Times(Runs(s.hist.finished), r) + (if IsRunning(s, r) then 1 else 0) == Times(s.hist.started, r) {
      assert OneEnding(s, r);
    }
  }

  lemma {:induction false} TimesNumbered(es: seq<Entry>, e: Entry)
    requires forall i :: 0 <= i < |es| ==> es[i].ticket == i
    ensures Times(es, e) == if e in es then 1 else 0
  {
    if es != [] {
      var front, last := es[..|es| - 1], es[|es| - 1];
      TimesNumbered(front, e);
      assert es == front + [last];
    }
  }

  /** What is recorded of a run is what its function returned: nobody touches the result before the worker reads it
      back under the lock, and the job ends as COMPLETED or ERROR by its sign. */
  lemma OutcomeIsWhatWasReturned(cfg: Config, numJobs: nat, s: State, w: nat)
    requires Setting(cfg, numJobs) && Reachable(cfg, numJobs, s) && Enabled(cfg, s, Finish(w))
    ensures var t, e, r := Step(cfg, s, Finish(w)), s.workers[w].entry, s.workers[w].returned;
      && t.hist.finished == s.hist.finished + [Outcome(Run(w, e), r)]
      && t.jobs[e.job].state == (if r < 0 then Error else Completed) && t.jobs[e.job].result == r
  {
    InvReachable(cfg, numJobs, s);
  }

  /** First in, first out, for any number of workers: the jobs started so far, in the order of their starts, followed
      by the queue, are the accepted submissions in order with the cancelled ones deleted. */
  lemma StartOrder(cfg: Config, numJobs: nat, s: State)
    requires Setting(cfg, numJobs) && Reachable(cfg, numJobs, s)
    ensures Entries(s.hist.started) + s.core.queue == Without(s.hist.submitted, s.hist.cancelled)
    ensures Increasing(Entries(s.hist.started) + s.core.queue)
  {
    InvReachable(cfg, numJobs, s);
    WithoutIncreasing(s.hist.submitted, s.hist.cancelled);
  }

  /** The six statistics add up modulo 2^32; the two gauges are exact and bounded. */
  lemma StatisticsConserved(cfg: Config, numJobs: nat, s: State)
    requires Setting(cfg, numJobs) && Reachable(cfg, numJobs, s)
    ensures var st := s.core.stats;
      && st.submitted
         == Low32(st.completed + st.errors + st.cancelled + st.queueDepth + st.activeWorkers)
      && st.queueDepth == |s.core.queue| <= cfg.queueSize
      && st.activeWorkers == Total(s.workers, IsActive) <= cfg.numWorkers <= MAX_WORKERS
  {
    InvReachable(cfg, numJobs, s);
    TotalAtMost(s.workers, IsActive);
    var h := s.hist;
    Low32Sum(|h.finished| - Failures(h.finished), Failures(h.finished), |h.cancelled|,
             |s.core.queue| + Total(s.workers, IsActive));
  }

  /** Waiting is a counting barrier, whatever job each wait names and whatever the semaphore does at its maximum: once
      as many waits have succeeded as jobs were ever accepted, every one of them has run to its end. */
  lemma WaitBarrier(cfg: Config, numJobs: nat, s: State)
    requires Setting(cfg, numJobs) && Reachable(cfg, numJobs, s)
    ensures s.completeSem + s.hist.waits <= |s.hist.finished| <= |s.hist.submitted|
    ensures cfg.cap.Unbounded? ==> s.completeSem + s.hist.waits == |s.hist.finished|
    ensures |s.hist.submitted| <= s.hist.waits ==>
      s.core.queue == [] && s.hist.cancelled == [] && |s.hist.finished| == |s.hist.submitted|
      && forall w :: 0 <= w < |s.workers| ==> !s.workers[w].Active()
  {
    InvReachable(cfg, numJobs, s);
    if w :| 0 <= w < |s.workers| && s.workers[w].Active() {
      TotalUpdate(s.workers, IsActive, w, Waiting);
    }
  }

  // ----- No lost work

  /** Jobs are waiting, but every worker sleeps on an empty semaphore. */
  ghost predicate Lost(s: State) {
    && s.stop == Live && s.core.queue != [] && s.workSem == 0
    && forall w :: 0 <= w < |s.workers| ==> s.workers[w] == Waiting
  }

  predicate WorkerAction(a: Action) {
    a.TakeToken? || a.Fetch? || a.Execute? || a.Finish?
  }

  lemma NoLostWork(cfg: Config, numJobs: nat, s: State)
    requires Setting(cfg, numJobs) && Reachable(cfg, numJobs, s) && cfg.cap.AtLeast(cfg.queueSize)
    ensures !Lost(s)
    ensures s.stop == Live && s.core.queue != [] ==> exists a :: WorkerAction(a) && Enabled(cfg, s, a)
  {
    InvReachable(cfg, numJobs, s);
    if s.stop == Live && s.core.queue != [] {
      var a := SomeWorkerMoves(cfg, s);
      if Lost(s) {
        TotalZero(s.workers, IsHolder);
      }
    }
  }

  lemma SomeWorkerMoves(cfg: Config, s: State) returns (a: Action)
    requires Inv(cfg, s) && cfg.cap.AtLeast(cfg.queueSize) && s.stop == Live
    requires s.core.queue != [] || 0 < Total(s.workers, IsActive)
    ensures WorkerAction(a) && Enabled(cfg, s, a)
  {
    if w :| 0 <= w < |s.workers| && s.workers[w] == HasToken {
      a := Fetch(w);
    } else if w :| 0 <= w < |s.workers| && s.workers[w].Executing? {
      a := Execute(w, 0);
    } else if w :| 0 <= w < |s.workers| && s.workers[w].Finishing? {
      a := Finish(w);
    } else {
      TotalZero(s.workers, IsHolder);
      TotalZero(s.workers, IsActive);
      assert s.workers[0] == Waiting;
      a := TakeToken(0);
    }
  }

  function Effort(pc: Pc): nat {
    match pc
    case Waiting => 0
    case HasToken => 1
    case Executing(_) => 2
    case Finishing(_, _) => 1
    case Exited => 0
  }

  ghost function WorkLeft(s: State): nat {
    2 * s.workSem + 2 * |s.core.queue| + Total(s.workers, Effort)
  }

  lemma WorkerActionWorks(cfg: Config, s: State, a: Action)
    requires s.stop == Live && WorkerAction(a) && Enabled(cfg, s, a)
    ensures Step(cfg, s, a).stop == Live && WorkLeft(Step(cfg, s, a)) < WorkLeft(s)
  {
    TotalUpdate(s.workers, Effort, a.w, Step(cfg, s, a).workers[a.w]);
  }

  /** The queue drains: left alone, the workers stop after at most `WorkLeft` actions, whatever order they act in; and
      when they cannot act any more, every accepted job that was not cancelled has run to its end. */
  lemma QueueDrains(cfg: Config, numJobs: nat, s: State, acts: seq<Action>)
    requires Setting(cfg, numJobs) && Reachable(cfg, numJobs, s) && s.stop == Live
    requires cfg.cap.AtLeast(cfg.queueSize)
    requires Executable(cfg, s, acts) && forall a <- acts :: WorkerAction(a)
    ensures |acts| <= WorkLeft(s)
    ensures var t := Exec(cfg, s, acts);
      (forall a :: WorkerAction(a) ==> !Enabled(cfg, t, a)) ==>
        t.core.queue == [] && |t.hist.finished| + |t.hist.cancelled| == |t.hist.submitted|
  {
    InvReachable(cfg, numJobs, s);
    DrainFrom(cfg, s, acts);
    InvExec(cfg, s, acts);
  }

  lemma {:induction false} DrainFrom(cfg: Config, s: State, acts: seq<Action>)
    requires Inv(cfg, s) && s.stop == Live && cfg.cap.AtLeast(cfg.queueSize)
    requires Executable(cfg, s, acts) && forall a <- acts :: WorkerAction(a)
    ensures |acts| <= WorkLeft(s)
    ensures var t := Exec(cfg, s, acts);
      t.stop == Live && ((forall a :: WorkerAction(a) ==> !Enabled(cfg, t, a)) ==>
        t.core.queue == [] && |t.hist.finished| == |t.hist.started|)
    decreases |acts|
  {
    if acts == [] {
      if forall a :: WorkerAction(a) ==> !Enabled(cfg, s, a) {
        if s.core.queue != [] || 0 < Total(s.workers, IsActive) {
          var a := SomeWorkerMoves(cfg, s);
          assert false;
        }
      }
    } else {
      InvStep(cfg, s, acts[0]);
      WorkerActionWorks(cfg, s, acts[0]);
      DrainFrom(cfg, Step(cfg, s, acts[0]), acts[1..]);
    }
  }

  // ----- No lost work: the bound on the semaphore is needed

  ghost predicate AllWaiting(s: State) {
    s.stop == Live && forall w :: 0 <= w < |s.workers| ==> s.workers[w] == Waiting
  }

  /** The tokens left by `k` posts to an untouched semaphore. */
  function Tokens(cap: Cap, k: nat): nat {
    if cap.Saturating? && cap.max < k then cap.max else k
  }

  lemma {:induction false} SubmitMany(cfg: Config, numJobs: nat, k: nat) returns (s: State)
    requires Setting(cfg, numJobs) && k <= cfg.queueSize && k <= numJobs
    ensures Reachable(cfg, numJobs, s) && AllWaiting(s) && |s.core.queue| == k && |s.jobs| == numJobs
    ensures forall i :: 0 <= i < k ==> s.core.queue[i].job == i
    ensures s.workSem == Tokens(cfg.cap, k) && s.completeSem == 0 && s.hist.waits == 0
    ensures s.hist.submitted == s.core.queue && s.hist.cancelled == [] && s.hist.finished == []
  {
    if k == 0 {
      s := Initial(cfg, numJobs);
      assert Executable(cfg, s, []) && Exec(cfg, s, []) == s;
    } else {
      var t := SubmitMany(cfg, numJobs, k - 1);
      InvReachable(cfg, numJobs, t);
      assert !InFlight(t, k - 1);
      var a := Submit(k - 1, false);
      ReachableStep(cfg, numJobs, t, a);
      s := Step(cfg, t, a);
    }
  }

  /** One worker takes a token, runs the head of the queue and goes back to sleep. */
  lemma RunOne(cfg: Config, numJobs: nat, s: State) returns (t: State)
    requires Setting(cfg, numJobs) && Reachable(cfg, numJobs, s) && AllWaiting(s)
    requires 0 < s.workSem && s.core.queue != []
    ensures Reachable(cfg, numJobs, t) && AllWaiting(t)
    ensures t.workSem == s.workSem - 1 && t.core.queue == s.core.queue[1..]
    ensures t.completeSem == cfg.cap.Post(s.completeSem) && |t.jobs| == |s.jobs|
    ensures t.hist.waits == s.hist.waits && t.hist.submitted == s.hist.submitted
  {
    InvReachable(cfg, numJobs, s);
    t := FetchOne(cfg, numJobs, s);
    t := EndOne(cfg, numJobs, t);
  }

  lemma EndOne(cfg: Config, numJobs: nat, s: State) returns (t: State)
    requires Reachable(cfg, numJobs, s) && Shape(cfg, s) && s.stop == Live && 0 < |s.workers|
    requires s.workers[0].Executing? && forall w :: 1 <= w < |s.workers| ==> s.workers[w] == Waiting
    ensures Reachable(cfg, numJobs, t) && AllWaiting(t)
    ensures t.workSem == s.workSem && t.core.queue == s.core.queue
    ensures t.completeSem == cfg.cap.Post(s.completeSem) && |t.jobs| == |s.jobs|
    ensures t.hist.waits == s.hist.waits && t.hist.submitted == s.hist.submitted
  {
    ReachableStep(cfg, numJobs, s, Execute(0, 0));
    var u := Step(cfg, s, Execute(0, 0));
    ReachableStep(cfg, numJobs, u, Finish(0));
    t := Step(cfg, u, Finish(0));
  }

  lemma FetchOne(cfg: Config, numJobs: nat, s: State) returns (t: State)
    requires Reachable(cfg, numJobs, s) && Inv(cfg, s) && AllWaiting(s) && 0 < s.workSem && s.core.queue != []
    ensures Reachable(cfg, numJobs, t) && Shape(cfg, t)
    ensures t.workSem == s.workSem - 1 && t.core.queue == s.core.queue[1..] && t.stop == Live
    ensures t.completeSem == s.completeSem && |t.jobs| == |s.jobs|
    ensures t.hist.waits == s.hist.waits && t.hist.submitted == s.hist.submitted && t.hist.claims == s.hist.claims
    ensures t.hist.cancelled == s.hist.cancelled && t.hist.finished == s.hist.finished
    ensures t.core.headLinked == (|t.core.queue| > 0 && !cfg.clearsPrev)
    ensures t.workers == s.workers[0 := Executing(s.core.queue[0])]
  {
    ReachableStep(cfg, numJobs, s, TakeToken(0));
    var s1 := Step(cfg, s, TakeToken(0));
    ReachableStep(cfg, numJobs, s1, Fetch(0));
    t := Step(cfg, s1, Fetch(0));
  }

  lemma {:induction false} RunAll(cfg: Config, numJobs: nat, s: State) returns (t: State)
    requires Setting(cfg, numJobs) && Reachable(cfg, numJobs, s) && AllWaiting(s) && s.workSem < |s.core.queue|
    ensures Reachable(cfg, numJobs, t) && AllWaiting(t) && t.workSem == 0 && t.core.queue != []
    decreases s.workSem
  {
    t := s;
    if 0 < s.workSem {
      t := RunOne(cfg, numJobs, s);
      t := RunAll(cfg, numJobs, t);
    }
  }

  /** Work can be lost exactly when the work semaphore saturates below the queue size. */
  lemma WorkLostExactlyWhenCapTooSmall(cfg: Config, numJobs: nat)
    requires Setting(cfg, numJobs) && cfg.queueSize <= numJobs
    ensures (exists s :: Reachable(cfg, numJobs, s) && Lost(s)) <==> !cfg.cap.AtLeast(cfg.queueSize)
  {
    if cfg.cap.AtLeast(cfg.queueSize) {
      forall s | Reachable(cfg, numJobs, s) ensures !Lost(s) {
        NoLostWork(cfg, numJobs, s);
      }
    } else {
      var s := SubmitMany(cfg, numJobs, cfg.cap.max + 1);
      var t := RunAll(cfg, numJobs, s);
      assert Lost(t);
    }
  }

  // ----- A wait does not wait for the job it names

  /** On every pool that can hold two jobs, a blocking wait for a job can succeed while that job is still queued:
      submit A, submit B, let a worker run A, then wait for B. */
  lemma WaitIgnoresItsJob(cfg: Config, numJobs: nat) returns (s: State)
    requires Setting(cfg, numJobs) && 2 <= cfg.queueSize && 2 <= numJobs && cfg.cap.AtLeast(1)
    ensures Reachable(cfg, numJobs, s) && Enabled(cfg, s, Wait(1)) && Queued(s, 1)
  {
    var t := SubmitMany(cfg, numJobs, 2);
    s := RunOne(cfg, numJobs, t);
    InvReachable(cfg, numJobs, s);
    assert s.core.queue[0].job == 1;
  }

  /** The empty, idle pool after `n` submissions and `k` successful waits. */
  ghost predicate EmptyAfter(cfg: Config, numJobs: nat, s: State, n: nat, k: nat) {
    && Reachable(cfg, numJobs, s) && AllWaiting(s) && s.core.queue == [] && s.workSem == 0
    && |s.jobs| == numJobs && |s.hist.submitted| == n && s.hist.waits == k
  }

  /** Job 0 is submitted once more. */
  lemma SubmitAgain(cfg: Config, numJobs: nat, s: State, n: nat, k: nat) returns (t: State)
    requires Setting(cfg, numJobs) && 1 <= numJobs && cfg.cap.AtLeast(1) && EmptyAfter(cfg, numJobs, s, n, k)
    ensures Reachable(cfg, numJobs, t) && AllWaiting(t) && |t.jobs| == numJobs
    ensures |t.core.queue| == 1 && t.core.queue[0].job == 0 && t.workSem == 1 && t.completeSem == s.completeSem
    ensures |t.hist.submitted| == n + 1 && t.hist.waits == k
  {
    InvReachable(cfg, numJobs, s);
    ReachableStep(cfg, numJobs, s, Submit(0, false));
    t := Step(cfg, s, Submit(0, false));
  }

  /** Job 0 is submitted `n` times, each time run to its end; the first `k` times a wait follows. */
  lemma {:induction false} RunMany(cfg: Config, numJobs: nat, n: nat, k: nat) returns (s: State)
    requires Setting(cfg, numJobs) && 1 <= numJobs && cfg.cap.AtLeast(1) && k <= n
    ensures EmptyAfter(cfg, numJobs, s, n, k) && (k < n ==> 0 < s.completeSem)
    decreases n
  {
    if n == 0 {
      s := SubmitMany(cfg, numJobs, 0);
    } else {
      s := RunMany(cfg, numJobs, n - 1, if k < n then k else k - 1);
      s := SubmitAgain(cfg, numJobs, s, n - 1, s.hist.waits);
      s := RunOne(cfg, numJobs, s);
      if k == n {
        InvReachable(cfg, numJobs, s);
        ReachableStep(cfg, numJobs, s, Wait(0));
        s := Step(cfg, s, Wait(0));
      }
    }
  }

  ghost predicate AllFinished(s: State) {
    s.core.queue == [] && |s.hist.finished| == |s.hist.submitted|
  }

  /** Waiting, exactly. A client that counts `n` accepted submissions and `k` successful waits knows that every job has
      finished if and only if `n <= k`: below that, on every pool, a job can still be in the queue, whichever jobs the
      waits named. */
  lemma WaitsSufficeExactly(cfg: Config, numJobs: nat, n: nat, k: nat)
    requires Setting(cfg, numJobs) && 1 <= numJobs && cfg.cap.AtLeast(1)
    ensures (forall s :: Reachable(cfg, numJobs, s) && |s.hist.submitted| == n && s.hist.waits == k ==> AllFinished(s))
            <==> n <= k
  {
    if n <= k {
      forall s | Reachable(cfg, numJobs, s) && |s.hist.submitted| == n && s.hist.waits == k ensures AllFinished(s) {
        WaitBarrier(cfg, numJobs, s);
      }
    } else {
      var s := RunMany(cfg, numJobs, n - 1, k);
      s := SubmitAgain(cfg, numJobs, s, n - 1, k);
      assert !AllFinished(s);
    }
  }

  // ----- Lost work stays lost until somebody submits again

  /** From a state with lost work, over every run without a submission and without a stop, no job starts. */
  lemma {:induction false} LostUntilSubmit(cfg: Config, s: State, acts: seq<Action>)
    requires AllWaiting(s) && s.workSem == 0 && Executable(cfg, s, acts)
    requires forall a <- acts :: !a.Submit? && !a.Shutdown?
    ensures var t := Exec(cfg, s, acts); AllWaiting(t) && t.workSem == 0 && t.hist.started == s.hist.started
    decreases |acts|
  {
    if acts != [] {
      AsleepStep(cfg, s, acts[0]);
      LostUntilSubmit(cfg, Step(cfg, s, acts[0]), acts[1..]);
    }
  }

  lemma AsleepStep(cfg: Config, s: State, a: Action)
    requires AllWaiting(s) && s.workSem == 0 && Enabled(cfg, s, a) && !a.Submit? && !a.Shutdown?
    ensures var t := Step(cfg, s, a); AllWaiting(t) && t.workSem == 0 && t.hist.started == s.hist.started
  {
  }

  // ----- With one worker, waits vouch for the oldest jobs

  /** The accepted submissions that were not cancelled, in order. */
  ghost function Due(s: State): seq<Entry> {
    Without(s.hist.submitted, s.hist.cancelled)
  }

  ghost predicate HasFinished(s: State, e: Entry) {
    e in Entries(Runs(s.hist.finished))
  }

  /** As many of the oldest due submissions have finished as waits have succeeded. */
  ghost predicate WaitsVouch(s: State) {
    s.hist.waits <= |Due(s)| && forall i :: 0 <= i < s.hist.waits ==> HasFinished(s, Due(s)[i])
  }

  /** A single worker finishes jobs in the order in which it starts them. */
  ghost predicate EndsInOrder(s: State) {
    |s.workers| == 1 &&
    Entries(s.hist.started) == Entries(Runs(s.hist.finished)) + if s.workers[0].Active() then [s.workers[0].entry] else []
  }

  lemma EndsInOrderStep(cfg: Config, s: State, a: Action)
    requires EndsInOrder(s) && Enabled(cfg, s, a)
    ensures EndsInOrder(Step(cfg, s, a))
  {
    var t := Step(cfg, s, a);
    if a.Fetch? && s.stop == Live && s.core.queue != [] {
      assert Entries(t.hist.started) == Entries(s.hist.started) + [s.core.queue[0]];
    } else if a.Finish? {
      assert Runs(t.hist.finished) == Runs(s.hist.finished) + [Run(0, s.workers[0].entry)];
      assert Entries(Runs(t.hist.finished)) == Entries(Runs(s.hist.finished)) + [s.workers[0].entry];
    } else {
      assert t.hist.started == s.hist.started && t.hist.finished == s.hist.finished;
    }
  }

  lemma {:induction false} EndsInOrderExec(cfg: Config, s: State, acts: seq<Action>)
    requires EndsInOrder(s) && Executable(cfg, s, acts)
    ensures EndsInOrder(Exec(cfg, s, acts))
    decreases |acts|
  {
    if acts != [] {
      EndsInOrderStep(cfg, s, acts[0]);
      EndsInOrderExec(cfg, Step(cfg, s, acts[0]), acts[1..]);
    }
  }

  lemma OneWorkerVouches(cfg: Config, numJobs: nat, s: State)
    requires Setting(cfg, numJobs) && cfg.numWorkers == 1 && Reachable(cfg, numJobs, s)
    ensures WaitsVouch(s)
  {
    var init := Initial(cfg, numJobs);
    var acts :| Executable(cfg, init, acts) && Exec(cfg, init, acts) == s;
    assert Entries(init.hist.started) == [] == Entries(Runs(init.hist.finished));
    EndsInOrderExec(cfg, init, acts);
    InvReachable(cfg, numJobs, s);
    var done := Entries(Runs(s.hist.finished));
    assert s.hist.waits <= |done|;
    StartOrder(cfg, numJobs, s);
    forall i | 0 <= i < s.hist.waits ensures HasFinished(s, Due(s)[i]) {
      assert Due(s)[i] == done[i];
    }
  }

  /** The first job is with worker 0, which executes it; everything else is quiet. */
  ghost predicate FirstRuns(cfg: Config, numJobs: nat, s: State, e: Entry) {
    && Reachable(cfg, numJobs, s) && Shape(cfg, s) && s.stop == Live && |s.jobs| == numJobs
    && 2 <= |s.workers| && s.workers[0] == Executing(e) && (forall w :: 1 <= w < |s.workers| ==> s.workers[w] == Waiting)
    && s.hist.submitted == [e] && s.hist.cancelled == [] && s.hist.finished == [] && s.hist.waits == 0
    && e == Entry(0, 0) && s.core.queue == [] && s.workSem == 0
  }

  lemma FirstStarts(cfg: Config, numJobs: nat) returns (s: State, e: Entry)
    requires Setting(cfg, numJobs) && 2 <= cfg.numWorkers && 2 <= numJobs && cfg.cap.AtLeast(1)
    ensures FirstRuns(cfg, numJobs, s, e)
  {
    s := SubmitMany(cfg, numJobs, 1);
    InvReachable(cfg, numJobs, s);
    e := s.core.queue[0];
    s := FetchOne(cfg, numJobs, s);
  }

  lemma SecondStarts(cfg: Config, numJobs: nat, s: State, e: Entry) returns (t: State)
    requires Setting(cfg, numJobs) && 2 <= numJobs && cfg.cap.AtLeast(1) && FirstRuns(cfg, numJobs, s, e)
    ensures Reachable(cfg, numJobs, t) && Shape(cfg, t) && 2 <= |t.workers| && t.workers[1] == HasToken && t.stop == Live
    ensures t.core.queue == [Entry(1, 1)] && t.hist.submitted == [e, Entry(1, 1)]
    ensures t.hist.cancelled == [] && t.hist.finished == [] && t.hist.waits == 0
  {
    InvReachable(cfg, numJobs, s);
    ReachableStep(cfg, numJobs, s, Submit(1, false));
    t := Step(cfg, s, Submit(1, false));
    ReachableStep(cfg, numJobs, t, TakeToken(1));
    t := Step(cfg, t, TakeToken(1));
  }

  lemma SecondEnds(cfg: Config, numJobs: nat, s: State) returns (t: State)
    requires Setting(cfg, numJobs) && cfg.cap.AtLeast(1) && Reachable(cfg, numJobs, s) && Shape(cfg, s) && s.stop == Live
    requires 2 <= |s.workers| && s.workers[1] == HasToken && s.core.queue == [Entry(1, 1)]
    requires s.hist.cancelled == [] && s.hist.finished == [] && s.hist.waits == 0
    ensures Reachable(cfg, numJobs, t) && t.hist.submitted == s.hist.submitted && t.hist.cancelled == []
    ensures |t.hist.finished| == 1 && t.hist.finished[0].run.entry == Entry(1, 1) && t.hist.waits == 1
  {
    ReachableStep(cfg, numJobs, s, Fetch(1));
    t := FetchStep(cfg, s, 1);
    ReachableStep(cfg, numJobs, t, Execute(1, 0));
    t := Step(cfg, t, Execute(1, 0));
    ReachableStep(cfg, numJobs, t, Finish(1));
    t := FinishStep(cfg, t, 1);
    t := WaitOnce(cfg, numJobs, t);
  }

  lemma WaitOnce(cfg: Config, numJobs: nat, s: State) returns (t: State)
    requires Reachable(cfg, numJobs, s) && Shape(cfg, s) && s.stop == Live && 0 < s.completeSem
    ensures Reachable(cfg, numJobs, t) && t == s.(completeSem := s.completeSem - 1, hist := s.hist.(waits := s.hist.waits + 1))
  {
    ReachableStep(cfg, numJobs, s, Wait(0));
    t := Step(cfg, s, Wait(0));
  }

  /** What a wait says about particular jobs. After `k` successful waits the `k` oldest submissions that were not cancelled
      have finished, in every reachable state, if and only if the pool has one worker: with two, the second job can
      overtake the first. */
  lemma WaitsVouchExactly(cfg: Config, numJobs: nat)
    requires Setting(cfg, numJobs) && 2 <= numJobs && cfg.cap.AtLeast(1)
    ensures (forall s :: Reachable(cfg, numJobs, s) ==> WaitsVouch(s)) <==> cfg.numWorkers == 1
  {
    if cfg.numWorkers == 1 {
      forall s | Reachable(cfg, numJobs, s) ensures WaitsVouch(s) {
        OneWorkerVouches(cfg, numJobs, s);
      }
    } else {
      var s, e := FirstStarts(cfg, numJobs);
      s := SecondStarts(cfg, numJobs, s, e);
      s := SecondEnds(cfg, numJobs, s);
      WithoutNone(s.hist.submitted, []);
      assert Due(s)[0] == Entry(0, 0) && !HasFinished(s, Due(s)[0]);
    }
  }
}
