/** Stopping the pool: no job starts any more, and the join loop always gets through. */
module PoolShutdown {
  import opened Counting
  import opened PoolCore
  import opened PoolProtocol
  import opened PoolInvariants
  import opened PoolTheorems

  /** The actions of the workers and of the thread that stops the pool. */
  predicate Progress(a: Action) {
    WorkerAction(a) || a.StopPost? || a.Join?
  }

  /** How many actions a worker still takes before it has left. */
  function ToExit(pc: Pc): nat {
    match pc
    case Exited => 0
    case HasToken => 1
    case Waiting => 2
    case Finishing(_, _) => 3
    case Executing(_) => 4
  }

  function ToJoin(cfg: Config, stop: StopPc): int {
    match stop
    case Live => 2 * cfg.numWorkers + 3
    case Posting(left) => left + cfg.numWorkers + 2
    case Joining(next) => cfg.numWorkers + 1 - next
    case Stopped => 0
  }

  ghost function ShutdownLeft(cfg: Config, s: State): int {
    Total(s.workers, ToExit) + ToJoin(cfg, s.stop)
  }

  ghost function ProgressCount(acts: seq<Action>): nat {
    if acts == [] then 0 else (if Progress(acts[0]) then 1 else 0) + ProgressCount(acts[1..])
  }

  lemma ShutdownWork(cfg: Config, s: State, a: Action)
    requires s.stop != Live && WorkerAction(a) && Enabled(cfg, s, a)
    ensures var t := Step(cfg, s, a);
      && t.stop == s.stop && t.hist.started == s.hist.started
      && Total(t.workers, ToExit) + 1 == Total(s.workers, ToExit)
  {
    TotalUpdate(s.workers, ToExit, a.w, Step(cfg, s, a).workers[a.w]);
  }

  lemma ShutdownStep(cfg: Config, s: State, a: Action)
    requires s.stop != Live && ExitsInOrder(s) && Enabled(cfg, s, a)
    ensures var t := Step(cfg, s, a);
      && t.stop != Live && t.hist.started == s.hist.started
      && ShutdownLeft(cfg, t) + (if Progress(a) then 1 else 0) == ShutdownLeft(cfg, s)
  {
    if WorkerAction(a) {
      ShutdownWork(cfg, s, a);
    }
  }

  lemma ShutdownMoves(cfg: Config, s: State) returns (a: Action)
    requires Inv(cfg, s) && cfg.cap.AtLeast(cfg.numWorkers) && s.stop != Live && s.stop != Stopped
    ensures Progress(a) && Enabled(cfg, s, a)
  {
    if s.stop.Posting? {
      a := StopPost;
    } else if s.stop.next == |s.workers| || s.workers[s.stop.next] == Exited {
      a := Join;
    } else {
      var w := s.stop.next;
      match s.workers[w] {
        case HasToken => a := Fetch(w);
        case Executing(_) => a := Execute(w, 0);
        case Finishing(_, _) => a := Finish(w);
        case Waiting =>
          TotalUpdate(s.workers, NeedsToken, w, Exited);
          a := TakeToken(w);
      }
    }
  }

  /** From the moment the shutdown flag is set, over every run: no job starts; every action of a worker or of the
      stopping thread brings the end one action closer; and until the end is reached one of them can act. */
  lemma ShutdownCompletes(cfg: Config, numJobs: nat, s: State, acts: seq<Action>)
    requires Setting(cfg, numJobs) && Reachable(cfg, numJobs, s) && s.stop != Live && Executable(cfg, s, acts)
    ensures var t := Exec(cfg, s, acts);
      && t.hist.started == s.hist.started
      && ProgressCount(acts) + ShutdownLeft(cfg, t) == ShutdownLeft(cfg, s) && 0 <= ShutdownLeft(cfg, t)
      && (cfg.cap.AtLeast(cfg.numWorkers) && t.stop != Stopped ==> exists a :: Progress(a) && Enabled(cfg, t, a))
      && (t.stop == Stopped ==> forall w :: 0 <= w < |t.workers| ==> t.workers[w] == Exited)
  {
    InvReachable(cfg, numJobs, s);
    ShutdownExec(cfg, s, acts);
    InvExec(cfg, s, acts);
    var t := Exec(cfg, s, acts);
    if cfg.cap.AtLeast(cfg.numWorkers) && t.stop != Stopped {
      var a := ShutdownMoves(cfg, t);
    }
  }

  lemma {:induction false} ShutdownExec(cfg: Config, s: State, acts: seq<Action>)
    requires s.stop != Live && ExitsInOrder(s) && Executable(cfg, s, acts)
    ensures var t := Exec(cfg, s, acts);
      && t.stop != Live && t.hist.started == s.hist.started
      && ProgressCount(acts) + ShutdownLeft(cfg, t) == ShutdownLeft(cfg, s)
    decreases |acts|
  {
    if acts != [] {
      ShutdownStep(cfg, s, acts[0]);
      ExitsInOrderStep(cfg, s, acts[0]);
      ShutdownExec(cfg, Step(cfg, s, acts[0]), acts[1..]);
    }
  }

  // ----- The bound on the semaphore is needed

  /** The join loop waits for a worker that sleeps on an empty semaphore. */
  ghost predicate Hung(cfg: Config, s: State) {
    s.stop != Live && s.stop != Stopped && forall a :: Progress(a) ==> !Enabled(cfg, s, a)
  }

  lemma {:induction false} PostMany(cfg: Config, numJobs: nat, k: nat) returns (s: State)
    requires Setting(cfg, numJobs) && cfg.cap.Saturating? && k <= cfg.numWorkers
    ensures Reachable(cfg, numJobs, s) && Shape(cfg, s) && s.stop == Posting(cfg.numWorkers - k)
    ensures forall w :: 0 <= w < |s.workers| ==> s.workers[w] == Waiting
    ensures s.workSem == if k < cfg.cap.max then k else cfg.cap.max
  {
    if k == 0 {
      var init := Initial(cfg, numJobs);
      assert Executable(cfg, init, []) && Exec(cfg, init, []) == init;
      ReachableStep(cfg, numJobs, init, Shutdown);
      s := Step(cfg, init, Shutdown);
    } else {
      var t := PostMany(cfg, numJobs, k - 1);
      ReachableStep(cfg, numJobs, t, StopPost);
      s := Step(cfg, t, StopPost);
    }
  }

  lemma {:induction false} ExitMany(cfg: Config, numJobs: nat, k: nat) returns (s: State)
    requires Setting(cfg, numJobs) && cfg.cap.Saturating? && k <= cfg.cap.max < cfg.numWorkers
    ensures Reachable(cfg, numJobs, s) && Shape(cfg, s) && s.stop == Joining(k) && s.workSem == cfg.cap.max - k
    ensures forall w :: 0 <= w < |s.workers| ==> s.workers[w] == if w < k then Exited else Waiting
  {
    if k == 0 {
      var t := PostMany(cfg, numJobs, cfg.numWorkers);
      ReachableStep(cfg, numJobs, t, StopPost);
      s := Step(cfg, t, StopPost);
    } else {
      var t := ExitMany(cfg, numJobs, k - 1);
      s := ExitOne(cfg, numJobs, t, k - 1);
    }
  }

  lemma ExitOne(cfg: Config, numJobs: nat, s: State, w: nat) returns (t: State)
    requires Reachable(cfg, numJobs, s) && Shape(cfg, s) && s.stop == Joining(w) && 0 < s.workSem
    requires w < |s.workers| && s.workers[w] == Waiting
    ensures Reachable(cfg, numJobs, t) && Shape(cfg, t) && t.stop == Joining(w + 1) && t.workSem == s.workSem - 1
    ensures t.workers == s.workers[w := Exited]
  {
    ReachableStep(cfg, numJobs, s, TakeToken(w));
    var s1 := Step(cfg, s, TakeToken(w));
    ReachableStep(cfg, numJobs, s1, Fetch(w));
    var s2 := Step(cfg, s1, Fetch(w));
    ReachableStep(cfg, numJobs, s2, Join);
    t := Step(cfg, s2, Join);
  }

  /** Stopping can hang exactly when the work semaphore saturates below the number of workers. */
  lemma HangsExactlyWhenCapTooSmall(cfg: Config, numJobs: nat)
    requires Setting(cfg, numJobs)
    ensures (exists s :: Reachable(cfg, numJobs, s) && Hung(cfg, s)) <==> !cfg.cap.AtLeast(cfg.numWorkers)
  {
    if cfg.cap.AtLeast(cfg.numWorkers) {
      forall s | Reachable(cfg, numJobs, s) ensures !Hung(cfg, s) {
        InvReachable(cfg, numJobs, s);
        if s.stop != Live && s.stop != Stopped {
          var a := ShutdownMoves(cfg, s);
        }
      }
    } else {
      var s := ExitMany(cfg, numJobs, cfg.cap.max);
      assert Hung(cfg, s);
    }
  }

  lemma HungStep(cfg: Config, s: State, a: Action)
    requires Hung(cfg, s) && Enabled(cfg, s, a) && !a.Submit?
    ensures Hung(cfg, Step(cfg, s, a))
  {
    var t := Step(cfg, s, a);
    assert !Progress(a);
    assert t.workers == s.workers && t.workSem == s.workSem && t.stop == s.stop;
    forall b | Progress(b) ensures !Enabled(cfg, t, b) {
      assert !Enabled(cfg, s, b);
    }
  }

  /** Until somebody submits another job, which posts a token, the join loop stays hung over every run. */
  lemma {:induction false} HungUntilSubmit(cfg: Config, s: State, acts: seq<Action>)
    requires Hung(cfg, s) && Executable(cfg, s, acts) && forall a <- acts :: !a.Submit?
    ensures Hung(cfg, Exec(cfg, s, acts))
    decreases |acts|
  {
    if acts != [] {
      HungStep(cfg, s, acts[0]);
      HungUntilSubmit(cfg, Step(cfg, s, acts[0]), acts[1..]);
    }
  }
}
