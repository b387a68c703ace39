/** What the client of the example can rely on, in every state that it, the pool and all other users can reach. */
module HsmResults {
  import opened PoolCore
  import opened PoolProtocol
  import opened PoolInvariants
  import opened PoolTheorems
  import opened PoolClients
  import opened HsmClient
  import opened HsmPool
  import Hsm

  // ----- Where the client's job is

  /** End to end, over every interleaving of the client, the workers and all other users of the pool, as long as no slot
      was shared: when the client rests it is in `idle` or in `processing`. In `processing` its job is in exactly one of
      four places: in the queue, with a worker, in a completion event, or lost. In `idle` no job of its own is anywhere. */
  lemma ClientAndPoolAgree(cfg: Config, cap: nat, numJobs: nat, s: System)
    requires Setting(cfg, numJobs) && Reaches(cfg, cap, numJobs, s) && s.phase == Resting && !s.shared
    ensures s.view.active.current == IDLE || s.view.active.current == PROCESSING
    ensures s.view.active.current == PROCESSING ==>
      && s.view.job.Some? && s.view.job.value < cfg.numSlots
      && One(QueuedFor(s.pool, s.view.job.value)) + One(HeldFor(s.pool, s.view.job.value))
         + Times(s.mq, Completion(s.view.job.value)) + One(s.stranded) == 1
    ensures s.view.active.current == IDLE ==> !s.stranded
    ensures forall j: nat :: !(s.view.active.current == PROCESSING && s.view.job == Hsm.Some(j)) ==>
      !(InFlight(s.pool, j) && Notifies(s.pool, j)) && Times(s.mq, Completion(j)) == 0
  {
    InvReached(cfg, cap, numJobs, s);
    forall j: nat | !(s.view.active.current == PROCESSING && s.view.job == Hsm.Some(j))
      ensures !(InFlight(s.pool, j) && Notifies(s.pool, j)) && Times(s.mq, Completion(j)) == 0
    {
      assert !QueuedFor(s.pool, j) && !HeldFor(s.pool, j);
    }
  }

  lemma BecomesShared(cfg: Config, cap: nat, s: System, m: Move)
    requires Can(cfg, cap, s, m) && !s.shared
    ensures Next(cfg, cap, s, m).shared ==>
      m == Others(Alloc) || (m == CallPool && s.phase == Allocating)
    ensures m == Others(Alloc) ==>
      (Next(cfg, cap, s, m).shared <==>
       AllocIndex(cfg, s.pool) < cfg.numSlots && s.phase.Preparing() && s.phase.slot == AllocIndex(cfg, s.pool))
    ensures m == CallPool && s.phase == Allocating ==>
      (Next(cfg, cap, s, m).shared <==>
       AllocIndex(cfg, s.pool) < cfg.numSlots && HasLiveClaim(s.pool, AllocIndex(cfg, s.pool)))
  {
  }

  /** The client comes to share a slot in two ways only, and both need a claim that a free meant for an older one has
      undercut: somebody is given the slot that the client prepares, or the client is given a slot that somebody
      prepares. */
  lemma SharedOnlyByUndercut(cfg: Config, cap: nat, numJobs: nat, s: System, m: Move)
    requires Setting(cfg, numJobs) && Reaches(cfg, cap, numJobs, s) && Can(cfg, cap, s, m) && !s.shared
    ensures Shape(cfg, s.pool)
    ensures var k := AllocIndex(cfg, s.pool);
      Next(cfg, cap, s, m).shared <==>
        && k < cfg.numSlots && HasLiveClaim(s.pool, k) && s.pool.hist.owner[k].undercut
        && ((m == Others(Alloc) && s.phase.Preparing() && s.phase.slot == k) || (m == CallPool && s.phase == Allocating))
  {
    InvReached(cfg, cap, numJobs, s);
    BecomesShared(cfg, cap, s, m);
    var k := AllocIndex(cfg, s.pool);
    if k < cfg.numSlots {
      FreeNotInFlight(cfg, s.pool, k);
    }
  }

  // ----- The result

  /** While the client waits for its job or handles its completion, the slot passes to somebody else exactly when an
      allocation of theirs returns it; and none does so while the job is queued or running. */
  lemma KeptUntilAllocated(cfg: Config, cap: nat, numJobs: nat, s: System, m: Move)
    requires Setting(cfg, numJobs) && Reaches(cfg, cap, numJobs, s) && Can(cfg, cap, s, m) && !s.shared
    requires Busy(s) && Busy(Next(cfg, cap, s, m)) && Kept(s)
    ensures !Kept(Next(cfg, cap, s, m)) <==>
      m == Others(Alloc) && Enabled(cfg, s.pool, Alloc) && AllocIndex(cfg, s.pool) == s.view.job.value
    ensures !Kept(Next(cfg, cap, s, m)) ==> !InFlight(s.pool, s.view.job.value)
  {
    InvReached(cfg, cap, numJobs, s);
    match m
    case Others(a) => KeptByOthers(cfg, cap, s, a);
    case Post(_) =>
    case Receive =>
    case CallPool => KeptByCall(cfg, cap, s);
  }

  lemma KeptByOthers(cfg: Config, cap: nat, s: System, a: Action)
    requires Structure(cfg, s.pool) && InRange(cfg, s.view, s.phase) && Can(cfg, cap, s, Others(a))
    requires Kept(s) && Claims(s, s.view.job.value)
    ensures var lost := a.Alloc? && AllocIndex(cfg, s.pool) == s.view.job.value;
      (Kept(Next(cfg, cap, s, Others(a))) <==> !lost) && (lost ==> !InFlight(s.pool, s.view.job.value))
  {
    OthersKeepKept(cfg, s, a);
    OthersChange(cfg, cap, s, a);
    if a.Alloc? && AllocIndex(cfg, s.pool) == s.view.job.value {
      FreeNotInFlight(cfg, s.pool, s.view.job.value);
    }
  }

  lemma KeptByCall(cfg: Config, cap: nat, s: System)
    requires Can(cfg, cap, s, CallPool) && Busy(s) && Kept(s) && Busy(CallMade(cfg, s))
    ensures Kept(CallMade(cfg, s))
  {
    assert s.phase.Closing? || s.phase.Cancelling?;
    if s.phase.Closing? {
      FreeChange(cfg, cap, s);
    } else {
      CancelChange(cfg, cap, s);
    }
  }

  /** The result the client reads from a completion is what the function of its last finished job returned, so it counts
      the job as completed or failed by the right sign, provided that no allocation has returned the slot since. */
  lemma ResultReachesClient(cfg: Config, cap: nat, numJobs: nat, s: System)
    requires Setting(cfg, numJobs) && Reaches(cfg, cap, numJobs, s) && !s.shared && s.phase.Closing? && Kept(s)
    ensures s.phase.done == Done(s.view.job.value, s.verdict)
    ensures Can(cfg, cap, s, CallPool) ==>
      var v, u := s.view, Next(cfg, cap, s, CallPool).view;
      && u.active.current == IDLE && u.job.None?
      && u.errors == (if s.verdict < 0 then Inc32(v.errors) else v.errors)
      && u.completed == (if s.verdict < 0 then v.completed else Inc32(v.completed))
  {
    InvReached(cfg, cap, numJobs, s);
  }

  // ----- Lost jobs

  /** The client's job is lost in three ways: its completion finds the client's message queue full; the client cancels it
      while it is queued, which posts nothing; or somebody else does. */
  lemma LostByFullQueueOrCancel(cfg: Config, cap: nat, numJobs: nat, s: System, m: Move)
    requires Setting(cfg, numJobs) && Reaches(cfg, cap, numJobs, s) && Can(cfg, cap, s, m)
    requires !s.shared && !s.stranded
    ensures Next(cfg, cap, s, m).stranded <==>
      && Busy(s) && Kept(s)
      && (|| (m.Others? && m.a.Finish? && cap <= |s.mq| && s.view.job == Hsm.Some(s.pool.workers[m.a.w].entry.job))
          || (m.CallPool? && s.phase.Cancelling? && s.view.job == Gone(cfg, s.pool, s.phase.id))
          || (m.Others? && m.a.Cancel? && s.view.job == Gone(cfg, s.pool, m.a.id)))
  {
    InvReached(cfg, cap, numJobs, s);
    if m.Others? && m.a.Finish? {
      FinishIsExpected(cfg, s, m.a.w);
    } else if m.CallPool? && s.phase.Cancelling? {
      CancelChange(cfg, cap, s);
      HitExactly(cfg, s, s.phase.id);
    } else if m.Others? && m.a.Cancel? {
      HitExactly(cfg, s, m.a.id);
    }
  }

  lemma HitExactly(cfg: Config, s: System, id: nat)
    requires Joint(cfg, s) && !s.shared && Enabled(cfg, s.pool, Cancel(id))
    ensures Hits(cfg, s.pool, id) <==> Busy(s) && Kept(s) && s.view.job == Gone(cfg, s.pool, id)
  {
    if Hits(cfg, s.pool, id) {
      HitIsExpected(cfg, s, id);
    }
  }

  // ----- Ids

  /** Before the id counter wraps, a client that remembers the id its job had when it submitted it can tell whether the slot
      has been handed out again: the slot still has that id exactly as long as it has not. */
  lemma SameIdExactlyWhenKept(cfg: Config, cap: nat, numJobs: nat, s: System)
    requires Setting(cfg, numJobs) && Reaches(cfg, cap, numJobs, s) && !s.shared && Busy(s) && s.pool.hist.draws < U32
    ensures s.view.job.Some? && s.view.job.value < |s.pool.jobs|
    ensures s.pool.jobs[s.view.job.value].id == s.jobId <==> Kept(s)
  {
    InvReached(cfg, cap, numJobs, s);
  }

  /** WORK_CANCEL reads the id of the client's job from the slot: it is the id of the job that the client submitted exactly
      as long as the slot has not been handed out again. */
  lemma CancelReadsId(cfg: Config, cap: nat, numJobs: nat, s: System)
    requires Setting(cfg, numJobs) && Reaches(cfg, cap, numJobs, s) && !s.shared && s.pool.hist.draws < U32
    requires Can(cfg, cap, s, Receive) && Next(cfg, cap, s, Receive).phase.Cancelling?
    ensures Next(cfg, cap, s, Receive).phase.id == s.jobId <==> Kept(s)
  {
    SameIdExactlyWhenKept(cfg, cap, numJobs, s);
  }

  /** What the client's own cancel does, before the id counter wraps. It takes a job out of the queue if and only if the
      slot of its job is queued under the id it has read; and that job is somebody else's if and only if the id is not
      the one its own job was submitted with. */
  lemma OwnCancelExactly(cfg: Config, cap: nat, numJobs: nat, s: System)
    requires Setting(cfg, numJobs) && Reaches(cfg, cap, numJobs, s) && !s.shared && s.pool.hist.draws < U32
    requires s.phase.Cancelling? && Can(cfg, cap, s, CallPool)
    ensures s.view.job.Some? && s.view.job.value < |s.pool.jobs|
    ensures var j, gone := s.view.job.value, Gone(cfg, s.pool, s.phase.id);
      && (gone.Some? <==> Queued(s.pool, j) && s.pool.jobs[j].id == s.phase.id)
      && (gone.Some? ==> gone == s.view.job && (Notifies(s.pool, j) <==> s.phase.id == s.jobId))
  {
    InvReached(cfg, cap, numJobs, s);
    var j := s.view.job.value;
    FoundExactly(cfg, s.pool, s.phase.id, j);
    if Queued(s.pool, j) && Notifies(s.pool, j) {
      assert QueuedFor(s.pool, j);
    }
  }

  lemma FoundExactly(cfg: Config, p: State, id: nat, j: nat)
    requires Shape(cfg, p) && IdsUnique(p) && p.hist.draws < U32 && Aims(p, id, j) && j < |p.jobs|
    ensures Gone(cfg, p, id).Some? <==> Queued(p, j) && p.jobs[j].id == id
    ensures Gone(cfg, p, id).Some? ==> Gone(cfg, p, id) == Hsm.Some(j)
  {
    var c := CancelIndex(cfg, p, id);
    if c < |p.core.queue| {
      assert p.core.queue[c] in p.core.queue;
      assert p.jobs[p.core.queue[c].job].id == id;
    } else if i :| 0 <= i < |p.core.queue| && p.core.queue[i].job == j {
      assert QueueIds(cfg, p)[i] == p.jobs[j].id;
    }
  }

  // ----- What the client can do next

  lemma CanReceive(cfg: Config, cap: nat, s: System)
    requires Joint(cfg, s) && s.phase == Resting && s.mq != []
    ensures Can(cfg, cap, s, Receive)
  {
    assert s.mq[0] in s.mq;
  }

  /** The pool is still there for the call, the cancel does not hit the head with the stale `prev`, and the slot to be
      freed is not in the queue or running for somebody else by now. */
  ghost predicate CallPossible(cfg: Config, s: System)
    requires Shape(cfg, s.pool)
  {
    match s.phase
    case Resting => false
    case Submitting(_) => s.pool.stop != Stopped
    case Closing(d) => !InFlight(s.pool, d.job)
    case Cancelling(id) =>
      && s.pool.stop != Stopped
      && (CancelIndex(cfg, s.pool, id) != 0 || s.pool.core.queue == [] || !s.pool.core.headLinked)
    case _ => true
  }

  lemma CanPrepare(cfg: Config, cap: nat, s: System)
    requires Joint(cfg, s) && !s.shared && s.phase.Preparing()
    ensures Can(cfg, cap, s, CallPool) <==> CallPossible(cfg, s)
  {
    if InFlight(s.pool, s.phase.slot) {
      InFlightNotLive(cfg, s.pool, s.phase.slot);
    }
  }

  lemma CanClose(cfg: Config, cap: nat, s: System)
    requires Joint(cfg, s) && !s.shared && s.phase.Closing?
    ensures Can(cfg, cap, s, CallPool) <==> CallPossible(cfg, s)
    ensures Kept(s) ==> CallPossible(cfg, s)
  {
    assert !QueuedFor(s.pool, s.phase.done.job) && !HeldFor(s.pool, s.phase.done.job);
  }

  lemma CanCancel(cfg: Config, cap: nat, s: System)
    requires InRange(cfg, s.view, s.phase) && Shape(cfg, s.pool) && s.phase.Cancelling?
    ensures Can(cfg, cap, s, CallPool) <==> CallPossible(cfg, s)
  {
  }

  /** The client is never blocked inside the model for a reason of its own: it can take the next event whenever there is
      one, and it can make its pool call exactly when that is possible; to free a slot that is still its own always is. */
  lemma ClientCanMove(cfg: Config, cap: nat, numJobs: nat, s: System)
    requires Setting(cfg, numJobs) && Reaches(cfg, cap, numJobs, s) && !s.shared
    ensures s.phase == Resting && s.mq != [] ==> Can(cfg, cap, s, Receive)
    ensures Shape(cfg, s.pool) && (Can(cfg, cap, s, CallPool) <==> CallPossible(cfg, s))
    ensures s.phase.Closing? && Kept(s) ==> CallPossible(cfg, s)
  {
    InvReached(cfg, cap, numJobs, s);
    if s.phase == Resting && s.mq != [] {
      CanReceive(cfg, cap, s);
    }
    CanCall(cfg, cap, s);
    if s.phase.Closing? {
      CanClose(cfg, cap, s);
    }
  }

  lemma CanCall(cfg: Config, cap: nat, s: System)
    requires Joint(cfg, s) && !s.shared
    ensures Shape(cfg, s.pool) && (Can(cfg, cap, s, CallPool) <==> CallPossible(cfg, s))
  {
    match s.phase
    case Resting =>
    case Allocating => CanAllocate(cfg, cap, s);
    case Closing(_) => CanClose(cfg, cap, s);
    case Cancelling(_) => CanCancel(cfg, cap, s);
    case _ => CanPrepare(cfg, cap, s);
  }

  lemma CanAllocate(cfg: Config, cap: nat, s: System)
    requires InRange(cfg, s.view, s.phase) && Shape(cfg, s.pool) && s.phase.Allocating?
    ensures Can(cfg, cap, s, CallPool) && CallPossible(cfg, s)
  {
  }
}
