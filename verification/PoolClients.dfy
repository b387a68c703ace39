/** What clients of the pool can rely on: job states, static slots, job ids, and what a fixed dequeue would give. */
module PoolClients {
  import opened PoolCore
  import opened PoolProtocol
  import opened PoolInvariants
  import opened PoolTheorems

  /** The client calls that rewrite the record of job `j`. */
  predicate Rewrites(cfg: Config, s: State, a: Action, j: nat)
    requires Shape(cfg, s)
  {
    || (a.Submit? && a.job == j)
    || (a.InitJob? && a.job == j)
    || (a.Free? && a.job == j)
    || (a == Alloc && AllocIndex(cfg, s) == j)
  }

  /** A legal move of job `j` while its client leaves it alone: PENDING to RUNNING when a worker takes it from the
      queue, PENDING to CANCELLED out of the queue, RUNNING to COMPLETED or ERROR by the sign of its result. */
  ghost predicate LegalMove(s: State, t: State, j: nat)
    requires j < |s.jobs| && j < |t.jobs|
  {
    var x, y := s.jobs[j], t.jobs[j];
    || (x.state == Pending && y.state == Running && Queued(s, j) && Held(t, j))
    || (x.state == Pending && y.state == Cancelled && Queued(s, j) && !InFlight(t, j))
    || (x.state == Running && y.state == (if x.result < 0 then Error else Completed) && Held(s, j) && !InFlight(t, j))
  }

  /** Between two client calls on a job its state makes legal moves only, and its id stays. */
  lemma JobStatesMove(cfg: Config, numJobs: nat, s: State, a: Action, j: nat)
    requires Setting(cfg, numJobs) && Reachable(cfg, numJobs, s) && Enabled(cfg, s, a)
    requires j < |s.jobs| && !Rewrites(cfg, s, a, j)
    ensures var t := Step(cfg, s, a);
      && |t.jobs| == |s.jobs| && t.jobs[j].id == s.jobs[j].id
      && (t.jobs[j].state == s.jobs[j].state || LegalMove(s, t, j))
  {
    InvReachable(cfg, numJobs, s);
    if a.Fetch? {
      FetchMoves(cfg, s, a.w, j);
    } else if a.Cancel? {
      CancelMoves(cfg, s, a.id, j);
    }
  }

  lemma FetchMoves(cfg: Config, s: State, w: nat, j: nat)
    requires Structure(cfg, s) && Enabled(cfg, s, Fetch(w)) && j < |s.jobs|
    ensures var t := FetchStep(cfg, s, w);
      |t.jobs| == |s.jobs| && t.jobs[j].id == s.jobs[j].id && (t.jobs[j].state == s.jobs[j].state || LegalMove(s, t, j))
  {
    if s.stop == Live && s.core.queue != [] {
      assert FetchStep(cfg, s, w).workers[w].Active();
    }
  }

  lemma CancelMoves(cfg: Config, s: State, id: nat, j: nat)
    requires Structure(cfg, s) && Enabled(cfg, s, Cancel(id)) && j < |s.jobs|
    ensures var t := CancelStep(cfg, s, id);
      |t.jobs| == |s.jobs| && t.jobs[j].id == s.jobs[j].id && (t.jobs[j].state == s.jobs[j].state || LegalMove(s, t, j))
  {
  }

  // ----- Static slots and the claims on them

  predicate HasLiveClaim(s: State, j: nat) {
    j in s.hist.owner && s.hist.owner[j].live
  }

  /** The records say where a job is. An allocation never returns a slot that is queued or running, and a slot that is
      handed out and not yet submitted only if a free meant for an older claim has hit it; it fails exactly when every
      slot is PENDING, RUNNING or ERROR. */
  lemma SlotsSafe(cfg: Config, numJobs: nat, s: State)
    requires Setting(cfg, numJobs) && Reachable(cfg, numJobs, s)
    ensures forall j: nat :: Queued(s, j) ==> j < |s.jobs| && s.jobs[j].state == Pending
    ensures forall j: nat :: Held(s, j) ==> j < |s.jobs| && s.jobs[j].state == Running
    ensures Shape(cfg, s)
    ensures var k := AllocIndex(cfg, s);
      && (k < cfg.numSlots ==> !InFlight(s, k) && (HasLiveClaim(s, k) ==> s.hist.owner[k].undercut))
      && (k == cfg.numSlots <==> forall i :: 0 <= i < cfg.numSlots ==> s.jobs[i].state in {Pending, Running, Error})
      && Step(cfg, s, Alloc).jobs == if k < cfg.numSlots then s.jobs[k := Claimed(s.counter)] else s.jobs
  {
    InvReachable(cfg, numJobs, s);
    var k := AllocIndex(cfg, s);
    if k < cfg.numSlots {
      FreeNotInFlight(cfg, s, k);
    }
  }

  /** `n` allocations in a row. */
  function Allocs(n: nat): seq<Action> {
    seq(n, _ => Alloc)
  }

  /** The next allocation, or one after some others, returns slot `j`. */
  ghost predicate CanBeHandedOut(cfg: Config, s: State, j: nat) {
    exists n: nat :: HandedOutAfter(cfg, s, j, n)
  }

  ghost predicate HandedOutAfter(cfg: Config, s: State, j: nat, n: nat) {
    Executable(cfg, s, Allocs(n)) && Shape(cfg, Exec(cfg, s, Allocs(n))) && AllocIndex(cfg, Exec(cfg, s, Allocs(n))) == j
  }

  lemma {:induction false} FreeIsHandedOut(cfg: Config, s: State, j: nat) returns (n: nat)
    requires Structure(cfg, s) && j < cfg.numSlots && IsFree(s.jobs[j].state)
    ensures HandedOutAfter(cfg, s, j, n)
    decreases j - AllocIndex(cfg, s)
  {
    var k := AllocIndex(cfg, s);
    if k == j {
      n := 0;
    } else {
      assert k < j;
      var t := Step(cfg, s, Alloc);
      StructureStep(cfg, s, Alloc);
      assert AllocIndex(cfg, t) > k;
      n := FreeIsHandedOut(cfg, t, j);
      n := n + 1;
      assert Allocs(n)[1..] == Allocs(n - 1);
    }
  }

  lemma {:induction false} TakenIsKept(cfg: Config, s: State, j: nat, n: nat)
    requires Structure(cfg, s) && j < cfg.numSlots && !IsFree(s.jobs[j].state)
    ensures !HandedOutAfter(cfg, s, j, n)
    decreases n
  {
    if n > 0 {
      assert Allocs(n)[1..] == Allocs(n - 1);
      StructureStep(cfg, s, Alloc);
      TakenIsKept(cfg, Step(cfg, s, Alloc), j, n - 1);
    }
  }

  /** From `s` to the end of the run, claim `c` is the latest on slot `j`, and live. */
  ghost predicate StaysClaimed(cfg: Config, s: State, acts: seq<Action>, j: nat, c: nat)
    requires Executable(cfg, s, acts)
    decreases |acts|
  {
    && HasLiveClaim(s, j) && s.hist.owner[j].claim == c
    && (acts != [] ==> StaysClaimed(cfg, Step(cfg, s, acts[0]), acts[1..], j, c))
  }

  /** The run releases an older claim on slot `j` and does not initialise the slot afterwards. */
  ghost predicate ReleasesOlder(acts: seq<Action>, j: nat, c: nat) {
    acts != [] &&
    ((acts[0].Free? && acts[0].job == j && acts[0].claim < c && InitJob(j) !in acts[1..])
     || ReleasesOlder(acts[1..], j, c))
  }

  lemma {:induction false} UndercutByOlder(cfg: Config, s: State, acts: seq<Action>, j: nat, c: nat)
    requires Structure(cfg, s) && Executable(cfg, s, acts) && StaysClaimed(cfg, s, acts, j, c)
    ensures var t := Exec(cfg, s, acts);
      && Structure(cfg, t) && HasLiveClaim(t, j)
      && (t.hist.owner[j].undercut <==>
          ReleasesOlder(acts, j, c) || (s.hist.owner[j].undercut && InitJob(j) !in acts))
    decreases |acts|
  {
    if acts != [] {
      var a, s', rest := acts[0], Step(cfg, s, acts[0]), acts[1..];
      StructureStep(cfg, s, a);
      UndercutStep(cfg, s, a, j, c);
      UndercutByOlder(cfg, s', rest, j, c);
      assert InitJob(j) in acts <==> a == InitJob(j) || InitJob(j) in rest by {
        assert acts == [a] + rest;
      }
    }
  }

  lemma UndercutStep(cfg: Config, s: State, a: Action, j: nat, c: nat)
    requires Structure(cfg, s) && Enabled(cfg, s, a)
    requires HasLiveClaim(s, j) && s.hist.owner[j].claim == c
    requires HasLiveClaim(Step(cfg, s, a), j) && Step(cfg, s, a).hist.owner[j].claim == c
    ensures Step(cfg, s, a).hist.owner[j].undercut <==>
      (a.Free? && a.job == j && a.claim < c) || (s.hist.owner[j].undercut && a != InitJob(j))
  {
    if a.Submit? {
      UndercutSubmit(cfg, s, a.job, a.toHsm, j);
    } else if a.Free? {
      UndercutFree(cfg, s, a.job, a.claim, j);
    }
  }

  lemma UndercutFree(cfg: Config, s: State, k: nat, c: nat, j: nat)
    requires Structure(cfg, s) && Enabled(cfg, s, Free(k, c)) && HasLiveClaim(s, j)
    ensures var t := FreeStep(cfg, s, k, c); HasLiveClaim(t, j) ==>
      (t.hist.owner[j].undercut <==> s.hist.owner[j].undercut || (k == j && c < s.hist.owner[j].claim))
  {
    assert LatestClaim(s, j);
    assert s.hist.claims[s.hist.owner[j].claim] < cfg.numSlots;
  }

  lemma UndercutSubmit(cfg: Config, s: State, k: nat, toHsm: bool, j: nat)
    requires Enabled(cfg, s, Submit(k, toHsm)) && HasLiveClaim(s, j)
    ensures var t := SubmitStep(cfg, s, k, toHsm); HasLiveClaim(t, j) ==> t.hist.owner[j] == s.hist.owner[j]
  {
  }

  /** A slot under a live claim can be handed out to somebody else if and only if the claim is undercut. */
  lemma LiveHandedOutExactly(cfg: Config, s: State, j: nat)
    requires Structure(cfg, s) && HasLiveClaim(s, j)
    ensures CanBeHandedOut(cfg, s, j) <==> s.hist.owner[j].undercut
  {
    assert LiveMatches(s, j) && LatestClaim(s, j);
    assert s.hist.claims[s.hist.owner[j].claim] < cfg.numSlots;
    if s.hist.owner[j].undercut {
      var n := FreeIsHandedOut(cfg, s, j);
    } else {
      forall n: nat ensures !HandedOutAfter(cfg, s, j, n) {
        TakenIsKept(cfg, s, j, n);
      }
    }
  }

  /** When a slot gets two owners. A client is given slot `j` under claim `c` and, over any run of the pool and all other
      clients, neither submits nor releases it. Then an allocation can return the slot to somebody else if and only if
      the run contains a free that releases an older claim than `c`, with no initialisation of the slot after it. */
  lemma HandedOutTwiceExactly(cfg: Config, numJobs: nat, s: State, acts: seq<Action>, j: nat, c: nat)
    requires Setting(cfg, numJobs) && Reachable(cfg, numJobs, s)
    requires Enabled(cfg, s, Alloc) && AllocIndex(cfg, s) == j < cfg.numSlots && |s.hist.claims| == c
    requires Executable(cfg, Step(cfg, s, Alloc), acts) && StaysClaimed(cfg, Step(cfg, s, Alloc), acts, j, c)
    ensures CanBeHandedOut(cfg, Exec(cfg, Step(cfg, s, Alloc), acts), j) <==> ReleasesOlder(acts, j, c)
  {
    InvReachable(cfg, numJobs, s);
    StructureStep(cfg, s, Alloc);
    UndercutByOlder(cfg, Step(cfg, s, Alloc), acts, j, c);
    LiveHandedOutExactly(cfg, Exec(cfg, Step(cfg, s, Alloc), acts), j);
  }

  /** Client A is given slot 0, and its job has run to its end and returned `r`; A has not looked at it yet. */
  lemma FirstJobDone(cfg: Config, numJobs: nat, r: int) returns (s: State)
    requires Setting(cfg, numJobs) && 1 <= cfg.numSlots && cfg.cap.AtLeast(1) && 0 <= r
    ensures Reachable(cfg, numJobs, s) && Shape(cfg, s) && s.stop == Live && s.core.queue == []
    ensures s.core.stats.queueDepth == 0 && !InFlight(s, 0) && s.hist.claims == [0]
    ensures s.jobs[0].state == Completed && s.jobs[0].result == r
  {
    s := FirstJobQueued(cfg, numJobs);
    InvReachable(cfg, numJobs, s);
    s := FetchOne(cfg, numJobs, s);
    s := EndWith(cfg, numJobs, s, r);
    InvReachable(cfg, numJobs, s);
    FreeNotInFlight(cfg, s, 0);
  }

  lemma FirstJobQueued(cfg: Config, numJobs: nat) returns (s: State)
    requires Setting(cfg, numJobs) && 1 <= cfg.numSlots && cfg.cap.AtLeast(1)
    ensures Reachable(cfg, numJobs, s) && AllWaiting(s) && s.workSem == 1 && s.hist.claims == [0]
    ensures |s.core.queue| == 1 && s.core.queue[0].job == 0
  {
    var init := Initial(cfg, numJobs);
    assert Executable(cfg, init, []) && Exec(cfg, init, []) == init;
    assert AllocIndex(cfg, init) == 0;
    ReachableStep(cfg, numJobs, init, Alloc);
    s := Step(cfg, init, Alloc);
    ReachableStep(cfg, numJobs, s, Submit(0, true));
    s := Step(cfg, s, Submit(0, true));
  }

  lemma EndWith(cfg: Config, numJobs: nat, s: State, r: int) returns (t: State)
    requires Reachable(cfg, numJobs, s) && Shape(cfg, s) && s.stop == Live && 0 < |s.workers|
    requires s.workers[0].Executing? && s.workers[0].entry.job == 0
    ensures Reachable(cfg, numJobs, t) && t.stop == Live && t.core.queue == s.core.queue && t.hist.claims == s.hist.claims
    ensures 0 < |t.jobs| && t.jobs[0].result == r && t.jobs[0].state == if r < 0 then Error else Completed
  {
    ReachableStep(cfg, numJobs, s, Execute(0, r));
    t := Step(cfg, s, Execute(0, r));
    ReachableStep(cfg, numJobs, t, Finish(0));
    t := Step(cfg, t, Finish(0));
  }

  /** The slots are not safe between clients that each play by the rules, on every pool with a static slot. A's job in
      slot 0 has finished with `r` and waits to be read. An allocation hands the slot to B, and A's result reads 0.
      When A frees the slot, as it should, the next allocation returns it again, over the head of B. If B has
      submitted it by then, A's free hits a queued job. */
  lemma TwoOwners(cfg: Config, numJobs: nat, r: int) returns (a: State, b: State, c: State)
    requires Setting(cfg, numJobs) && 1 <= cfg.numSlots && cfg.cap.AtLeast(1) && 0 <= r
    ensures Reachable(cfg, numJobs, a) && 0 < |a.jobs| && a.jobs[0].result == r && a.hist.claims == [0]
    ensures Reachable(cfg, numJobs, b) && Shape(cfg, b) && b.jobs[0].result == 0 && b.hist.claims == [0, 0]
    ensures Enabled(cfg, a, Alloc) && Step(cfg, a, Alloc) == b && Enabled(cfg, b, Free(0, 0))
    ensures var freed := Step(cfg, b, Free(0, 0));
      HasLiveClaim(freed, 0) && freed.hist.owner[0].claim == 1 && Shape(cfg, freed) && AllocIndex(cfg, freed) == 0
    ensures Enabled(cfg, b, Submit(0, true)) && Step(cfg, b, Submit(0, true)) == c
    ensures Reachable(cfg, numJobs, c) && Queued(c, 0) && !Enabled(cfg, c, Free(0, 0))
  {
    a := FirstJobDone(cfg, numJobs, r);
    assert AllocIndex(cfg, a) == 0;
    ReachableStep(cfg, numJobs, a, Alloc);
    b := Step(cfg, a, Alloc);
    assert b.hist.claims == [0, 0];
    assert !InFlight(b, 0);
    ReachableStep(cfg, numJobs, b, Submit(0, true));
    c := Step(cfg, b, Submit(0, true));
    assert c.core.queue[0].job == 0;
  }

  /** No action of the run is a client call on job `j`. Allocations are allowed: they choose the slot themselves. */
  predicate Untouched(acts: seq<Action>, j: nat) {
    forall a <- acts :: (a.Submit? || a.InitJob? || a.Free?) ==> a.job != j
  }

  /** A failed job keeps its record, whatever else the pool and other clients do, until its owner frees,
      re-initialises or resubmits it: a slot in state ERROR is never handed out again on its own. */
  lemma FailedJobKept(cfg: Config, numJobs: nat, s: State, acts: seq<Action>, j: nat)
    requires Setting(cfg, numJobs) && Reachable(cfg, numJobs, s) && Executable(cfg, s, acts) && Untouched(acts, j)
    requires j < |s.jobs| && s.jobs[j].state == Error
    ensures var t := Exec(cfg, s, acts); j < |t.jobs| && t.jobs[j] == s.jobs[j]
  {
    InvReachable(cfg, numJobs, s);
    FailedJobKeptExec(cfg, s, acts, j);
  }

  lemma {:induction false} FailedJobKeptExec(cfg: Config, s: State, acts: seq<Action>, j: nat)
    requires Inv(cfg, s) && Executable(cfg, s, acts) && Untouched(acts, j)
    requires j < |s.jobs| && s.jobs[j].state == Error
    ensures var t := Exec(cfg, s, acts); j < |t.jobs| && t.jobs[j] == s.jobs[j]
    decreases |acts|
  {
    if acts != [] {
      var a := acts[0];
      assert Untouched([a], j) && Untouched(acts[1..], j);
      FailedJobKeptStep(cfg, s, a, j);
      InvStep(cfg, s, a);
      FailedJobKeptExec(cfg, Step(cfg, s, a), acts[1..], j);
    }
  }

  lemma FailedJobKeptStep(cfg: Config, s: State, a: Action, j: nat)
    requires Inv(cfg, s) && Enabled(cfg, s, a) && Untouched([a], j)
    requires j < |s.jobs| && s.jobs[j].state == Error
    ensures var t := Step(cfg, s, a); j < |t.jobs| && t.jobs[j] == s.jobs[j]
  {
    assert a in [a];
    FreeNotInFlight(cfg, s, j);
    if a.Fetch? || a.Cancel? {
      OutsideUntouched(cfg, s, a, j);
    }
  }

  lemma OutsideUntouched(cfg: Config, s: State, a: Action, j: nat)
    requires Enabled(cfg, s, a) && (a.Fetch? || a.Cancel?) && j < |s.jobs| && !Queued(s, j)
    ensures var t := Step(cfg, s, a); j < |t.jobs| && t.jobs[j] == s.jobs[j]
  {
  }

  // ----- Identifiers

  /** Until the id counter wraps, a queued job is the only one with its id, so a cancel removes that job and no other. */
  lemma CancelHitsItsJob(cfg: Config, numJobs: nat, s: State, k: nat)
    requires Setting(cfg, numJobs) && Reachable(cfg, numJobs, s) && s.hist.draws < U32 && k < |s.core.queue|
    ensures Shape(cfg, s)
    ensures var id := s.jobs[s.core.queue[k].job].id; id != 0 && CancelIndex(cfg, s, id) == k
  {
    InvReachable(cfg, numJobs, s);
    var id := s.jobs[s.core.queue[k].job].id;
    var m := CancelIndex(cfg, s, id);
    assert s.core.queue[k] in s.core.queue;
    assert QueueIds(cfg, s)[k] == id;
    assert m < |s.core.queue| ==> s.jobs[s.core.queue[m].job].id == id;
  }

  /** `id` can only be found on job `j`, and `j` is not queued. */
  ghost predicate Spent(s: State, id: nat, j: nat) {
    && 0 < id <= s.hist.draws && !Queued(s, j)
    && forall i :: 0 <= i < |s.jobs| && i != j ==> s.jobs[i].id != id
  }

  lemma SpentSubmit(cfg: Config, s: State, a: Action, id: nat, j: nat)
    requires IdsUnique(s) && Spent(s, id, j) && Enabled(cfg, s, a) && Step(cfg, s, a).hist.draws < U32
    requires a.Submit? && a.job != j
    ensures Spent(Step(cfg, s, a), id, j)
  {
  }

  lemma SpentSame(s: State, t: State, id: nat, j: nat)
    requires Spent(s, id, j) && t.hist.draws == s.hist.draws && |t.jobs| == |s.jobs|
    requires forall i :: 0 <= i < |s.jobs| ==> t.jobs[i].id == s.jobs[i].id
    requires forall e <- t.core.queue :: e in s.core.queue
    ensures Spent(t, id, j)
  {
    forall i | 0 <= i < |t.core.queue| ensures t.core.queue[i].job != j {
      assert t.core.queue[i] in s.core.queue;
    }
  }

  lemma SpentStep(cfg: Config, s: State, a: Action, id: nat, j: nat)
    requires IdsUnique(s) && Spent(s, id, j) && Enabled(cfg, s, a) && Step(cfg, s, a).hist.draws < U32
    requires a.Submit? ==> a.job != j
    ensures Spent(Step(cfg, s, a), id, j)
  {
    if a.Submit? {
      SpentSubmit(cfg, s, a, id, j);
    } else if a.Alloc? || a.InitJob? {
      assert Step(cfg, s, a).core == s.core;
    } else {
      IdsStay(cfg, s, a);
      SpentSame(s, Step(cfg, s, a), id, j);
    }
  }

  lemma {:induction false} SpentExec(cfg: Config, s: State, acts: seq<Action>, id: nat, j: nat)
    requires Inv(cfg, s) && Spent(s, id, j) && Executable(cfg, s, acts)
    requires Exec(cfg, s, acts).hist.draws < U32 && forall a <- acts :: a.Submit? ==> a.job != j
    ensures var t := Exec(cfg, s, acts); Inv(cfg, t) && Spent(t, id, j)
    decreases |acts|
  {
    if acts != [] {
      var t := Step(cfg, s, acts[0]);
      DrawsGrow(cfg, t, acts[1..]);
      SpentStep(cfg, s, acts[0], id, j);
      InvStep(cfg, s, acts[0]);
      SpentExec(cfg, t, acts[1..], id, j);
    }
  }

  lemma {:induction false} DrawsGrow(cfg: Config, s: State, acts: seq<Action>)
    requires Executable(cfg, s, acts)
    ensures s.hist.draws <= Exec(cfg, s, acts).hist.draws
    decreases |acts|
  {
    if acts != [] {
      DrawsGrow(cfg, Step(cfg, s, acts[0]), acts[1..]);
    }
  }

  /** After a cancel that found its job, a second cancel of the same id finds nothing, however long after the first
      and whatever happened in between, unless that job was resubmitted or the id counter has wrapped. */
  lemma SecondCancelFails(cfg: Config, numJobs: nat, s: State, id: nat, acts: seq<Action>)
    requires Setting(cfg, numJobs) && Reachable(cfg, numJobs, s)
    requires Enabled(cfg, s, Cancel(id)) && CancelIndex(cfg, s, id) < |s.core.queue|
    requires var t := Step(cfg, s, Cancel(id));
      && Executable(cfg, t, acts) && Exec(cfg, t, acts).hist.draws < U32
      && forall a <- acts :: a.Submit? ==> a.job != s.core.queue[CancelIndex(cfg, s, id)].job
    ensures var u := Exec(cfg, Step(cfg, s, Cancel(id)), acts);
      Shape(cfg, u) && CancelIndex(cfg, u, id) == |u.core.queue|
  {
    var t, j := Step(cfg, s, Cancel(id)), s.core.queue[CancelIndex(cfg, s, id)].job;
    DrawsGrow(cfg, t, acts);
    InvReachable(cfg, numJobs, s);
    CancelSpends(cfg, s, id);
    InvStep(cfg, s, Cancel(id));
    SpentExec(cfg, t, acts, id, j);
    SpentNotFound(cfg, Exec(cfg, t, acts), id, j);
  }

  lemma SpentNotFound(cfg: Config, s: State, id: nat, j: nat)
    requires Shape(cfg, s) && Spent(s, id, j)
    ensures CancelIndex(cfg, s, id) == |s.core.queue|
  {
  }

  lemma CancelSpends(cfg: Config, s: State, id: nat)
    requires Inv(cfg, s) && s.hist.draws < U32
    requires Enabled(cfg, s, Cancel(id)) && CancelIndex(cfg, s, id) < |s.core.queue|
    ensures Spent(Step(cfg, s, Cancel(id)), id, s.core.queue[CancelIndex(cfg, s, id)].job)
  {
    var k, q := CancelIndex(cfg, s, id), s.core.queue;
    assert q[k] in q && s.jobs[q[k].job].id == id;
  }

  // ----- What clearing `prev` would buy

  /** As the code stands, submitting two jobs and letting a worker take the first leads to a head that cannot be
      cancelled safely, on every pool that can hold two jobs. */
  lemma UnsafeHeadReachable(cfg: Config, numJobs: nat) returns (s: State)
    requires Setting(cfg, numJobs) && !cfg.clearsPrev && 2 <= cfg.queueSize && 2 <= numJobs && cfg.cap.AtLeast(1)
    ensures Reachable(cfg, numJobs, s) && Shape(cfg, s) && s.stop == Live && |s.core.queue| == 1
    ensures !Enabled(cfg, s, Cancel(s.jobs[s.core.queue[0].job].id))
  {
    var t := SubmitMany(cfg, numJobs, 2);
    InvReachable(cfg, numJobs, t);
    s := FetchOne(cfg, numJobs, t);
    assert QueueIds(cfg, s)[0] == s.jobs[s.core.queue[0].job].id;
  }

  /** If a dequeue cleared the new head's `prev`, every cancel would be safe in every reachable state. */
  lemma ClearingPrevFreesCancel(cfg: Config, numJobs: nat, s: State, id: nat)
    requires Setting(cfg, numJobs) && cfg.clearsPrev && Reachable(cfg, numJobs, s) && s.stop != Stopped
    ensures Enabled(cfg, s, Cancel(id))
  {
    InvReachable(cfg, numJobs, s);
  }
}
