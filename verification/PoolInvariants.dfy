/** What every action of the worker pool keeps, and hence what holds in every reachable state. */
module PoolInvariants {
  import opened Counting
  import opened PoolCore
  import opened PoolProtocol

  function IsHolder(pc: Pc): nat { if pc == HasToken then 1 else 0 }

  /** Workers that shutdown still has to hand a token. */
  function NeedsToken(pc: Pc): nat { if pc == HasToken || pc == Exited then 0 else 1 }

  // ----- Queue, workers and job records agree

  /** No job object is in the pool twice. */
  ghost predicate JobsDistinct(s: State) {
    && (forall i, j :: 0 <= i < j < |s.core.queue| ==> s.core.queue[i].job != s.core.queue[j].job)
    && (forall v, w :: 0 <= v < w < |s.workers| && s.workers[v].Active() && s.workers[w].Active() ==>
          s.workers[v].entry.job != s.workers[w].entry.job)
    && (forall i, w :: 0 <= i < |s.core.queue| && 0 <= w < |s.workers| && s.workers[w].Active() ==>
          s.core.queue[i].job != s.workers[w].entry.job)
  }

  ghost predicate RecordsMatch(s: State) {
    && (forall i :: 0 <= i < |s.core.queue| && s.core.queue[i].job < |s.jobs| ==>
          s.jobs[s.core.queue[i].job].state == Pending)
    && (forall w :: 0 <= w < |s.workers| && s.workers[w].Active() && s.workers[w].entry.job < |s.jobs| ==>
          s.jobs[s.workers[w].entry.job].state == Running)
    && (forall w :: 0 <= w < |s.workers| && s.workers[w].Finishing? && s.workers[w].entry.job < |s.jobs| ==>
          s.jobs[s.workers[w].entry.job].result == s.workers[w].returned)
  }

  /** The owner of a slot holds the latest claim made on it. A live claim's slot is not queued, and it is PENDING unless
      the claim has been undercut; then it is COMPLETED. */
  ghost predicate ClaimsMatch(cfg: Config, s: State) {
    && (forall c :: 0 <= c < |s.hist.claims| ==> s.hist.claims[c] < cfg.numSlots && s.hist.claims[c] in s.hist.owner)
    && (forall j <- s.hist.owner :: LatestClaim(s, j))
    && (forall j <- s.hist.owner :: s.hist.owner[j].live ==> LiveMatches(s, j))
  }

  ghost predicate LatestClaim(s: State, j: nat) {
    && j in s.hist.owner && s.hist.owner[j].claim < |s.hist.claims| && s.hist.claims[s.hist.owner[j].claim] == j
    && (forall c :: s.hist.owner[j].claim < c < |s.hist.claims| ==> s.hist.claims[c] != j)
    && (s.hist.owner[j].undercut ==> s.hist.owner[j].live)
  }

  ghost predicate LiveMatches(s: State, j: nat) {
    && j in s.hist.owner && j < |s.jobs| && !Queued(s, j)
    && s.jobs[j].state == if s.hist.owner[j].undercut then Completed else Pending
  }

  ghost predicate QueueBounded(cfg: Config, s: State) {
    s.core.stats.queueDepth == |s.core.queue| <= cfg.queueSize
  }

  ghost predicate Structure(cfg: Config, s: State) {
    && Sized(cfg) && Shape(cfg, s) && QueueBounded(cfg, s)
    && JobsDistinct(s) && RecordsMatch(s) && ClaimsMatch(cfg, s)
  }

  /** An action that makes, ends or undercuts no claim, and changes no record and queues no job under a live one. */
  lemma ClaimsKept(cfg: Config, s: State, t: State)
    requires ClaimsMatch(cfg, s) && t.hist.claims == s.hist.claims && t.hist.owner == s.hist.owner
    requires |t.jobs| == |s.jobs| && forall e <- t.core.queue :: e in s.core.queue
    requires forall j <- s.hist.owner :: s.hist.owner[j].live ==> j < |s.jobs| && t.jobs[j].state == s.jobs[j].state
    ensures ClaimsMatch(cfg, t)
  {
    assert forall j <- s.hist.owner :: LatestClaim(s, j) ==> LatestClaim(t, j);
    forall j <- t.hist.owner | t.hist.owner[j].live ensures LiveMatches(t, j) {
      assert LiveMatches(s, j);
      forall i | 0 <= i < |t.core.queue| ensures t.core.queue[i].job != j {
        assert t.core.queue[i] in s.core.queue;
      }
    }
  }

  /** A job that is queued or running is under no live claim. */
  lemma InFlightNotLive(cfg: Config, s: State, j: nat)
    requires Structure(cfg, s) && InFlight(s, j)
    ensures j in s.hist.owner ==> !s.hist.owner[j].live
  {
  }

  lemma StructureTakeToken(cfg: Config, s: State, w: nat)
    requires Structure(cfg, s) && Enabled(cfg, s, TakeToken(w))
    ensures Structure(cfg, Step(cfg, s, TakeToken(w)))
  {
    ClaimsKept(cfg, s, Step(cfg, s, TakeToken(w)));
  }

  lemma StructureExecute(cfg: Config, s: State, w: nat, r: int)
    requires Structure(cfg, s) && Enabled(cfg, s, Execute(w, r))
    ensures Structure(cfg, Step(cfg, s, Execute(w, r)))
  {
    ClaimsKept(cfg, s, Step(cfg, s, Execute(w, r)));
  }

  lemma StructureFinish(cfg: Config, s: State, w: nat)
    requires Structure(cfg, s) && Enabled(cfg, s, Finish(w))
    ensures Structure(cfg, FinishStep(cfg, s, w))
  {
    InFlightNotLive(cfg, s, s.workers[w].entry.job);
    ClaimsKept(cfg, s, FinishStep(cfg, s, w));
  }

  lemma ClaimsFetch(cfg: Config, s: State, w: nat)
    requires Structure(cfg, s) && Enabled(cfg, s, Fetch(w))
    ensures ClaimsMatch(cfg, FetchStep(cfg, s, w))
  {
    if s.stop == Live && s.core.queue != [] {
      assert Queued(s, s.core.queue[0].job);
      InFlightNotLive(cfg, s, s.core.queue[0].job);
    }
    ClaimsKept(cfg, s, FetchStep(cfg, s, w));
  }

  lemma ClaimsCancel(cfg: Config, s: State, id: nat)
    requires Structure(cfg, s) && Enabled(cfg, s, Cancel(id)) && CancelIndex(cfg, s, id) < |s.core.queue|
    ensures ClaimsMatch(cfg, CancelStep(cfg, s, id))
  {
    var k := CancelIndex(cfg, s, id);
    assert Queued(s, s.core.queue[k].job);
    InFlightNotLive(cfg, s, s.core.queue[k].job);
    ClaimsKept(cfg, s, CancelStep(cfg, s, id));
  }

  /** An action on the record and the claim of one slot. */
  lemma ClaimsAt(cfg: Config, s: State, t: State, j: nat)
    requires ClaimsMatch(cfg, s) && t.hist.claims == s.hist.claims && |t.jobs| == |s.jobs| && t.core.queue == s.core.queue
    requires t.hist.owner.Keys == s.hist.owner.Keys
    requires forall k <- s.hist.owner :: k != j ==> t.hist.owner[k] == s.hist.owner[k]
    requires forall k :: 0 <= k < |s.jobs| && k != j ==> t.jobs[k] == s.jobs[k]
    requires j in s.hist.owner ==> LatestClaim(t, j) && (t.hist.owner[j].live ==> LiveMatches(t, j))
    ensures ClaimsMatch(cfg, t)
  {
    forall k <- t.hist.owner ensures LatestClaim(t, k) && (t.hist.owner[k].live ==> LiveMatches(t, k)) {
      assert LatestClaim(s, k) && (s.hist.owner[k].live ==> LiveMatches(s, k));
      assert Queued(t, k) <==> Queued(s, k);
    }
  }

  lemma ClaimsReset(cfg: Config, s: State, j: nat)
    requires Structure(cfg, s) && j < |s.jobs| && !InFlight(s, j)
    ensures ClaimsMatch(cfg, Reset(s, j))
  {
    var t := Reset(s, j);
    if j in s.hist.owner {
      assert LatestClaim(s, j);
      assert LatestClaim(t, j) && LiveMatches(t, j);
    }
    ClaimsAt(cfg, s, t, j);
  }

  lemma ClaimsFree(cfg: Config, s: State, j: nat, c: nat)
    requires Structure(cfg, s) && Enabled(cfg, s, Free(j, c))
    ensures ClaimsMatch(cfg, FreeStep(cfg, s, j, c))
  {
    var t := FreeStep(cfg, s, j, c);
    if j in s.hist.owner {
      assert LatestClaim(s, j);
      FreedClaim(cfg, s, j, c);
    }
    ClaimsAt(cfg, s, t, j);
  }

  lemma FreedClaim(cfg: Config, s: State, j: nat, c: nat)
    requires ClaimsMatch(cfg, s) && Enabled(cfg, s, Free(j, c)) && LatestClaim(s, j)
    ensures var t := FreeStep(cfg, s, j, c); LatestClaim(t, j) && (t.hist.owner[j].live ==> LiveMatches(t, j))
  {
    assert s.hist.claims[s.hist.owner[j].claim] < cfg.numSlots;
    assert s.hist.owner[j].live ==> LiveMatches(s, j);
  }

  lemma ClaimsClaim(cfg: Config, s: State, j: nat)
    requires Structure(cfg, s) && j < cfg.numSlots && !InFlight(s, j)
    ensures ClaimsMatch(cfg, Claim(s, j))
  {
    var t := Claim(s, j);
    forall k <- t.hist.owner ensures LatestClaim(t, k) && (t.hist.owner[k].live ==> LiveMatches(t, k)) {
      if k != j {
        assert LatestClaim(s, k) && (s.hist.owner[k].live ==> LiveMatches(s, k));
      }
      assert Queued(t, k) <==> Queued(s, k);
    }
  }

  lemma ClaimsSubmit(cfg: Config, s: State, j: nat, toHsm: bool)
    requires Structure(cfg, s) && Enabled(cfg, s, Submit(j, toHsm))
    ensures ClaimsMatch(cfg, SubmitStep(cfg, s, j, toHsm))
  {
    var t := SubmitStep(cfg, s, j, toHsm);
    if !Accepts(cfg, s) {
      ClaimsKept(cfg, s, t);
    } else {
      forall k <- t.hist.owner ensures LatestClaim(t, k) && (t.hist.owner[k].live ==> LiveMatches(t, k)) {
        assert LatestClaim(s, k) && (s.hist.owner[k].live ==> LiveMatches(s, k));
      }
    }
  }

  lemma DistinctFetch(cfg: Config, s: State, w: nat)
    requires Structure(cfg, s) && Enabled(cfg, s, Fetch(w))
    ensures var t := FetchStep(cfg, s, w); Shape(cfg, t) && QueueBounded(cfg, t) && JobsDistinct(t)
  {
  }

  lemma RecordsFetch(cfg: Config, s: State, w: nat)
    requires Structure(cfg, s) && Enabled(cfg, s, Fetch(w))
    ensures RecordsMatch(FetchStep(cfg, s, w))
  {
  }

  lemma DistinctSubmit(cfg: Config, s: State, j: nat, toHsm: bool)
    requires Structure(cfg, s) && Enabled(cfg, s, Submit(j, toHsm))
    ensures var t := SubmitStep(cfg, s, j, toHsm); Shape(cfg, t) && QueueBounded(cfg, t) && JobsDistinct(t)
  {
  }

  lemma RecordsSubmit(cfg: Config, s: State, j: nat, toHsm: bool)
    requires Structure(cfg, s) && Enabled(cfg, s, Submit(j, toHsm))
    ensures RecordsMatch(SubmitStep(cfg, s, j, toHsm))
  {
  }

  /** The elements that stay when the `k`-th is taken out. */
  lemma Cut<T>(q: seq<T>, k: nat)
    requires k < |q|
    ensures var kept := q[..k] + q[k + 1..];
      |kept| == |q| - 1 && forall i :: 0 <= i < |kept| ==> kept[i] == q[if i < k then i else i + 1]
  {
  }

  lemma DistinctCancel(cfg: Config, s: State, id: nat)
    requires Structure(cfg, s) && Enabled(cfg, s, Cancel(id)) && CancelIndex(cfg, s, id) < |s.core.queue|
    ensures var t := CancelStep(cfg, s, id); Shape(cfg, t) && QueueBounded(cfg, t) && JobsDistinct(t)
  {
    CutDistinct(s.core.queue, CancelIndex(cfg, s, id));
  }

  lemma CutDistinct(q: seq<Entry>, k: nat)
    requires k < |q| && forall i, j :: 0 <= i < j < |q| ==> q[i].job != q[j].job
    ensures var kept := q[..k] + q[k + 1..];
      && (forall i, j :: 0 <= i < j < |kept| ==> kept[i].job != kept[j].job)
      && (forall i :: 0 <= i < |kept| ==> kept[i] in q)
  {
    Cut(q, k);
  }

  lemma RecordsCancel(cfg: Config, s: State, id: nat)
    requires Structure(cfg, s) && Enabled(cfg, s, Cancel(id)) && CancelIndex(cfg, s, id) < |s.core.queue|
    ensures RecordsMatch(CancelStep(cfg, s, id))
  {
    Cut(s.core.queue, CancelIndex(cfg, s, id));
  }

  /** Zeroing a job that is not in the pool, or freeing it. */
  lemma OutsideThePool(cfg: Config, s: State, t: State, j: nat)
    requires Structure(cfg, s) && j < |s.jobs| && !InFlight(s, j)
    requires t.core == s.core && t.workers == s.workers && |t.jobs| == |s.jobs|
    requires forall k :: 0 <= k < |s.jobs| && k != j ==> t.jobs[k] == s.jobs[k]
    requires ClaimsMatch(cfg, t)
    ensures Structure(cfg, t)
  {
  }

  lemma StructureAlloc(cfg: Config, s: State)
    requires Structure(cfg, s)
    ensures Structure(cfg, Step(cfg, s, Alloc))
  {
    var k := AllocIndex(cfg, s);
    if k < cfg.numSlots {
      FreeNotInFlight(cfg, s, k);
      ClaimsClaim(cfg, s, k);
      OutsideThePool(cfg, s, Claim(s, k), k);
    }
  }

  /** A job whose record is neither PENDING nor RUNNING is not in the pool, and a live claim on it is undercut. */
  lemma FreeNotInFlight(cfg: Config, s: State, j: nat)
    requires Structure(cfg, s) && j < |s.jobs| && s.jobs[j].state !in {Pending, Running}
    ensures !InFlight(s, j) && (j in s.hist.owner && s.hist.owner[j].live ==> s.hist.owner[j].undercut)
  {
    if j in s.hist.owner && s.hist.owner[j].live {
      assert LiveMatches(s, j);
    }
  }

  lemma StructureStep(cfg: Config, s: State, a: Action)
    requires Structure(cfg, s) && Enabled(cfg, s, a)
    ensures Structure(cfg, Step(cfg, s, a))
  {
    match a {
      case TakeToken(w) => StructureTakeToken(cfg, s, w);
      case Fetch(w) => StructureFetch(cfg, s, w);
      case Execute(w, r) => StructureExecute(cfg, s, w, r);
      case Finish(w) => StructureFinish(cfg, s, w);
      case Submit(j, toHsm) => StructureSubmit(cfg, s, j, toHsm);
      case Cancel(id) => StructureCancel(cfg, s, id);
      case Alloc => StructureAlloc(cfg, s);
      case InitJob(j) => StructureReset(cfg, s, j);
      case Free(j, c) => StructureFree(cfg, s, j, c);
      case _ => StructureRest(cfg, s, Step(cfg, s, a));
    }
  }

  lemma StructureFetch(cfg: Config, s: State, w: nat)
    requires Structure(cfg, s) && Enabled(cfg, s, Fetch(w))
    ensures Structure(cfg, FetchStep(cfg, s, w))
  {
    DistinctFetch(cfg, s, w);
    RecordsFetch(cfg, s, w);
    ClaimsFetch(cfg, s, w);
  }

  lemma StructureSubmit(cfg: Config, s: State, j: nat, toHsm: bool)
    requires Structure(cfg, s) && Enabled(cfg, s, Submit(j, toHsm))
    ensures Structure(cfg, SubmitStep(cfg, s, j, toHsm))
  {
    DistinctSubmit(cfg, s, j, toHsm);
    RecordsSubmit(cfg, s, j, toHsm);
    ClaimsSubmit(cfg, s, j, toHsm);
  }

  lemma StructureReset(cfg: Config, s: State, j: nat)
    requires Structure(cfg, s) && j < |s.jobs| && !InFlight(s, j)
    ensures Structure(cfg, Reset(s, j))
  {
    ClaimsReset(cfg, s, j);
    OutsideThePool(cfg, s, Reset(s, j), j);
  }

  lemma StructureFree(cfg: Config, s: State, j: nat, c: nat)
    requires Structure(cfg, s) && Enabled(cfg, s, Free(j, c))
    ensures Structure(cfg, FreeStep(cfg, s, j, c))
  {
    ClaimsFree(cfg, s, j, c);
    OutsideThePool(cfg, s, FreeStep(cfg, s, j, c), j);
  }

  lemma StructureCancel(cfg: Config, s: State, id: nat)
    requires Structure(cfg, s) && Enabled(cfg, s, Cancel(id))
    ensures Structure(cfg, CancelStep(cfg, s, id))
  {
    if CancelIndex(cfg, s, id) < |s.core.queue| {
      DistinctCancel(cfg, s, id);
      RecordsCancel(cfg, s, id);
      ClaimsCancel(cfg, s, id);
    }
  }

  /** Whatever happens to the semaphores and to the stopping thread. */
  lemma StructureRest(cfg: Config, s: State, t: State)
    requires Structure(cfg, s) && t.core == s.core && t.jobs == s.jobs && t.workers == s.workers
    requires t.hist.claims == s.hist.claims && t.hist.owner == s.hist.owner
    ensures Structure(cfg, t)
  {
    ClaimsKept(cfg, s, t);
  }

  // ----- Every accepted submission has exactly one fate

  ghost function Entries(runs: seq<Run>): (es: seq<Entry>)
    ensures |es| == |runs| && forall i :: 0 <= i < |runs| ==> es[i] == runs[i].entry
  {
    seq(|runs|, i requires 0 <= i < |runs| => runs[i].entry)
  }

  ghost function Runs(outcomes: seq<Outcome>): (rs: seq<Run>)
    ensures |rs| == |outcomes| && forall i :: 0 <= i < |outcomes| ==> rs[i] == outcomes[i].run
  {
    seq(|outcomes|, i requires 0 <= i < |outcomes| => outcomes[i].run)
  }

  /** Submissions are numbered in order, and each is queued, cancelled or started, exactly once. */
  ghost predicate Fates(s: State) {
    && (forall i :: 0 <= i < |s.hist.submitted| ==> s.hist.submitted[i].ticket == i)
    && (forall e :: OneFate(s, e))
  }

  ghost predicate OneFate(s: State, e: Entry) {
    Times(s.hist.submitted, e)
    == Times(Entries(s.hist.started), e) + Times(s.core.queue, e) + Times(s.hist.cancelled, e)
  }

  /** How often `x` occurs in `xs`. */
  ghost function Times<T>(xs: seq<T>, x: T): nat {
    if xs == [] then 0 else Times(xs[..|xs| - 1], x) + if xs[|xs| - 1] == x then 1 else 0
  }

  lemma {:induction false} TimesIn<T>(xs: seq<T>, x: T)
    ensures x in xs <==> 0 < Times(xs, x)
  {
    if xs != [] {
      TimesIn(xs[..|xs| - 1], x);
      assert xs == xs[..|xs| - 1] + [xs[|xs| - 1]];
    }
  }

  lemma TimesOne<T>(xs: seq<T>, y: T, x: T)
    ensures Times(xs + [y], x) == Times(xs, x) + if x == y then 1 else 0
  {
    assert (xs + [y])[..|xs|] == xs;
  }

  /** Taking out the `k`-th element takes out one occurrence. */
  lemma {:induction false} TimesCut<T>(xs: seq<T>, k: nat, x: T)
    requires k < |xs|
    ensures Times(xs, x) == Times(xs[..k] + xs[k + 1..], x) + if x == xs[k] then 1 else 0
  {
    var n := |xs| - 1;
    var front, kept := xs[..n], xs[..k] + xs[k + 1..];
    if k == n {
      assert kept == front;
    } else {
      assert kept == (front[..k] + front[k + 1..]) + [xs[n]];
      TimesOne(front[..k] + front[k + 1..], xs[n], x);
      TimesCut(front, k, x);
    }
  }

  lemma TimesHead<T>(xs: seq<T>, x: T)
    requires xs != []
    ensures Times(xs, x) == Times(xs[1..], x) + if x == xs[0] then 1 else 0
  {
    TimesCut(xs, 0, x);
    assert xs[..0] + xs[1..] == xs[1..];
  }

  ghost predicate IsRunning(s: State, r: Run) {
    r.worker < |s.workers| && s.workers[r.worker].Active() && s.workers[r.worker].entry == r.entry
  }

  /** Each start is either still held by its worker or was finished by that same worker, exactly once. */
  ghost predicate Endings(s: State) {
    forall r :: OneEnding(s, r)
  }

  ghost predicate OneEnding(s: State, r: Run) {
    Times(s.hist.started, r) == Times(Runs(s.hist.finished), r) + if IsRunning(s, r) then 1 else 0
  }

  lemma FatesFetch(cfg: Config, s: State, w: nat)
    requires Fates(s) && Enabled(cfg, s, Fetch(w)) && s.stop == Live && s.core.queue != []
    ensures Fates(FetchStep(cfg, s, w))
  {
    var q, t := s.core.queue, FetchStep(cfg, s, w);
    assert Entries(t.hist.started) == Entries(s.hist.started) + [q[0]];
    forall e ensures OneFate(t, e) {
      assert OneFate(s, e);
      TimesHead(q, e);
      TimesOne(Entries(s.hist.started), q[0], e);
    }
  }

  lemma FatesSubmit(cfg: Config, s: State, j: nat, toHsm: bool)
    requires Fates(s) && Enabled(cfg, s, Submit(j, toHsm)) && Accepts(cfg, s)
    ensures Fates(SubmitStep(cfg, s, j, toHsm))
  {
    var e' := Entry(|s.hist.submitted|, j);
    var t := SubmitStep(cfg, s, j, toHsm);
    forall e ensures OneFate(t, e) {
      assert OneFate(s, e);
      TimesOne(s.core.queue, e', e);
      TimesOne(s.hist.submitted, e', e);
    }
  }

  lemma FatesCancel(cfg: Config, s: State, id: nat)
    requires Fates(s) && Enabled(cfg, s, Cancel(id)) && CancelIndex(cfg, s, id) < |s.core.queue|
    ensures Fates(CancelStep(cfg, s, id))
  {
    var k, t := CancelIndex(cfg, s, id), CancelStep(cfg, s, id);
    forall e ensures OneFate(t, e) {
      assert OneFate(s, e);
      TimesCut(s.core.queue, k, e);
      TimesOne(s.hist.cancelled, s.core.queue[k], e);
    }
  }

  lemma FatesSame(s: State, t: State)
    requires Fates(s) && t.core.queue == s.core.queue && t.hist.submitted == s.hist.submitted
    requires t.hist.started == s.hist.started && t.hist.cancelled == s.hist.cancelled
    ensures Fates(t)
  {
    forall e ensures OneFate(t, e) {
      assert OneFate(s, e);
    }
  }

  lemma FatesStep(cfg: Config, s: State, a: Action)
    requires Fates(s) && Enabled(cfg, s, a)
    ensures Fates(Step(cfg, s, a))
  {
    if a.Fetch? && s.stop == Live && s.core.queue != [] {
      FatesFetch(cfg, s, a.w);
    } else if a.Submit? && Accepts(cfg, s) {
      FatesSubmit(cfg, s, a.job, a.toHsm);
    } else if a.Cancel? && CancelIndex(cfg, s, a.id) < |s.core.queue| {
      FatesCancel(cfg, s, a.id);
    } else {
      FatesSame(s, Step(cfg, s, a));
    }
  }

  lemma EndingsFetch(cfg: Config, s: State, w: nat)
    requires Endings(s) && Enabled(cfg, s, Fetch(w))
    ensures Endings(FetchStep(cfg, s, w))
  {
    var t := FetchStep(cfg, s, w);
    forall r ensures OneEnding(t, r) {
      assert OneEnding(s, r);
      if s.stop == Live && s.core.queue != [] {
        TimesOne(s.hist.started, Run(w, s.core.queue[0]), r);
      }
      assert r.worker != w ==> (IsRunning(t, r) <==> IsRunning(s, r));
    }
  }

  lemma EndingsFinish(cfg: Config, s: State, w: nat)
    requires Endings(s) && Enabled(cfg, s, Finish(w))
    ensures Endings(FinishStep(cfg, s, w))
  {
    var t := FinishStep(cfg, s, w);
    var run := Run(w, s.workers[w].entry);
    assert Runs(t.hist.finished) == Runs(s.hist.finished) + [run];
    forall r ensures OneEnding(t, r) {
      assert OneEnding(s, r);
      TimesOne(Runs(s.hist.finished), run, r);
      assert r.worker != w ==> (IsRunning(t, r) <==> IsRunning(s, r));
    }
  }

  /** Nobody starts or finishes a job. */
  lemma EndingsSame(s: State, t: State)
    requires Endings(s) && t.hist.started == s.hist.started && t.hist.finished == s.hist.finished
    requires forall r :: IsRunning(t, r) <==> IsRunning(s, r)
    ensures Endings(t)
  {
    forall r ensures OneEnding(t, r) {
      assert OneEnding(s, r);
    }
  }

  lemma EndingsStep(cfg: Config, s: State, a: Action)
    requires Endings(s) && Enabled(cfg, s, a)
    ensures Endings(Step(cfg, s, a))
  {
    match a {
      case Fetch(w) => EndingsFetch(cfg, s, w);
      case Finish(w) => EndingsFinish(cfg, s, w);
      case _ => EndingsSame(s, Step(cfg, s, a));
    }
  }

  // ----- Jobs start in the order of their submission

  /** `es` without the entries of `gone`. */
  ghost function Without(es: seq<Entry>, gone: seq<Entry>): seq<Entry> {
    if es == [] then []
    else
      var last := es[|es| - 1];
      Without(es[..|es| - 1], gone) + if last in gone then [] else [last]
  }

  ghost predicate Increasing(es: seq<Entry>) {
    forall i, j :: 0 <= i < j < |es| ==> es[i].ticket < es[j].ticket
  }

  lemma {:induction false} WithoutIncreasing(es: seq<Entry>, gone: seq<Entry>)
    requires Increasing(es)
    ensures Increasing(Without(es, gone))
    ensures forall e :: e in Without(es, gone) <==> e in es && e !in gone
  {
    if es != [] {
      var front, last := es[..|es| - 1], es[|es| - 1];
      WithoutIncreasing(front, gone);
      assert es == front + [last];
      assert forall e <- front :: e.ticket < last.ticket;
    }
  }

  lemma {:induction false} WithoutMore(es: seq<Entry>, gone: seq<Entry>, e: Entry)
    ensures Without(es, gone + [e]) == Without(Without(es, gone), [e])
  {
    if es != [] {
      var front, last := es[..|es| - 1], es[|es| - 1];
      WithoutMore(front, gone, e);
      var kept := Without(front, gone);
      if last in gone {
        assert kept + [] == kept;
      } else {
        assert (kept + [last])[..|kept|] == kept;
      }
    }
  }

  lemma {:induction false} WithoutOne(es: seq<Entry>, k: nat)
    requires Increasing(es) && k < |es|
    ensures Without(es, [es[k]]) == es[..k] + es[k + 1..]
  {
    var n := |es| - 1;
    if k == n {
      WithoutNone(es[..n], [es[n]]);
    } else {
      WithoutOne(es[..n], k);
      assert es[k + 1..] == es[..n][k + 1..] + [es[n]];
    }
  }

  lemma {:induction false} WithoutNone(es: seq<Entry>, gone: seq<Entry>)
    requires forall e <- es :: e !in gone
    ensures Without(es, gone) == es
  {
    if es != [] {
      WithoutNone(es[..|es| - 1], gone);
    }
  }

  ghost predicate Fifo(s: State) {
    Entries(s.hist.started) + s.core.queue == Without(s.hist.submitted, s.hist.cancelled)
  }

  lemma FifoSubmit(cfg: Config, s: State, j: nat, toHsm: bool)
    requires Fates(s) && Fifo(s) && Enabled(cfg, s, Submit(j, toHsm)) && Accepts(cfg, s)
    ensures Fifo(SubmitStep(cfg, s, j, toHsm))
  {
    var e := Entry(|s.hist.submitted|, j);
    NewTicket(s, e);
    FifoAppend(s.hist.submitted, s.hist.cancelled, Entries(s.hist.started), s.core.queue, e);
  }

  /** The next ticket has not been cancelled. */
  lemma NewTicket(s: State, e: Entry)
    requires Fates(s) && e.ticket == |s.hist.submitted|
    ensures e !in s.hist.cancelled
  {
    assert OneFate(s, e);
    TimesIn(s.hist.submitted, e);
    TimesIn(s.hist.cancelled, e);
  }

  lemma FifoAppend(submitted: seq<Entry>, cancelled: seq<Entry>, started: seq<Entry>, q: seq<Entry>, e: Entry)
    requires started + q == Without(submitted, cancelled) && e !in cancelled
    ensures started + (q + [e]) == Without(submitted + [e], cancelled)
  {
    assert (submitted + [e])[..|submitted|] == submitted;
    assert started + (q + [e]) == (started + q) + [e];
  }

  lemma FifoCancel(cfg: Config, s: State, id: nat)
    requires Fates(s) && Fifo(s) && Enabled(cfg, s, Cancel(id)) && CancelIndex(cfg, s, id) < |s.core.queue|
    ensures Fifo(CancelStep(cfg, s, id))
  {
    var k := CancelIndex(cfg, s, id);
    FifoCut(s.hist.submitted, s.hist.cancelled, Entries(s.hist.started), s.core.queue, k);
  }

  lemma FifoCut(submitted: seq<Entry>, cancelled: seq<Entry>, started: seq<Entry>, q: seq<Entry>, k: nat)
    requires Increasing(submitted) && k < |q| && started + q == Without(submitted, cancelled)
    ensures started + (q[..k] + q[k + 1..]) == Without(submitted, cancelled + [q[k]])
  {
    WithoutIncreasing(submitted, cancelled);
    WithoutMore(submitted, cancelled, q[k]);
    WithoutOneLater(started, q, k);
  }

  lemma WithoutOneLater(xs: seq<Entry>, ys: seq<Entry>, k: nat)
    requires Increasing(xs + ys) && k < |ys|
    ensures Without(xs + ys, [ys[k]]) == xs + (ys[..k] + ys[k + 1..])
  {
    WithoutOne(xs + ys, |xs| + k);
    CutLater(xs, ys, k);
  }

  lemma CutLater<T>(xs: seq<T>, ys: seq<T>, k: nat)
    requires k < |ys|
    ensures (xs + ys)[..|xs| + k] + (xs + ys)[|xs| + k + 1..] == xs + (ys[..k] + ys[k + 1..])
  {
  }

  lemma FifoStep(cfg: Config, s: State, a: Action)
    requires Fates(s) && Fifo(s) && Enabled(cfg, s, a)
    ensures Fifo(Step(cfg, s, a))
  {
    match a {
      case Fetch(w) =>
        if s.stop == Live && s.core.queue != [] {
          var t := Step(cfg, s, a);
          assert Entries(t.hist.started) == Entries(s.hist.started) + [s.core.queue[0]];
        }
      case Submit(j, toHsm) => if Accepts(cfg, s) { FifoSubmit(cfg, s, j, toHsm); }
      case Cancel(id) => if CancelIndex(cfg, s, id) < |s.core.queue| { FifoCancel(cfg, s, id); }
      case _ =>
    }
  }

  // ----- The statistics count what happened, modulo 2^32

  function IsActive(pc: Pc): nat { if pc.Active() then 1 else 0 }

  ghost function Failures(outcomes: seq<Outcome>): (n: nat)
    ensures n <= |outcomes|
  {
    if outcomes == [] then 0
    else Failures(outcomes[..|outcomes| - 1]) + if outcomes[|outcomes| - 1].result < 0 then 1 else 0
  }

  lemma FailuresOne(outcomes: seq<Outcome>, o: Outcome)
    ensures Failures(outcomes + [o]) == Failures(outcomes) + if o.result < 0 then 1 else 0
  {
    assert (outcomes + [o])[..|outcomes|] == outcomes;
  }

  /** The counters after so many submissions, cancellations, failures and successes. */
  ghost predicate Tally(st: Stats, submitted: nat, cancelled: nat, failed: nat, succeeded: nat) {
    && st.submitted == Low32(submitted) && st.cancelled == Low32(cancelled)
    && st.errors == Low32(failed) && st.completed == Low32(succeeded)
  }

  ghost predicate Tallied(s: State) {
    var h, failed := s.hist, Failures(s.hist.finished);
    Tally(s.core.stats, |h.submitted|, |h.cancelled|, failed, |h.finished| - failed)
  }

  ghost predicate Balanced(s: State) {
    var h := s.hist;
    && s.core.stats.activeWorkers == Total(s.workers, IsActive)
    && |h.submitted| == |h.started| + |s.core.queue| + |h.cancelled|
    && |h.started| == |h.finished| + Total(s.workers, IsActive)
  }

  lemma TallyEnd(c: Core<Entry>, submitted: nat, cancelled: nat, failed: nat, succeeded: nat, result: int)
    requires Tally(c.stats, submitted, cancelled, failed, succeeded)
    ensures Tally(Complete(c, result).stats, submitted, cancelled,
                  if result < 0 then failed + 1 else failed, if result < 0 then succeeded else succeeded + 1)
  {
    Low32Inc(failed);
    Low32Inc(succeeded);
  }

  lemma TalliedFinish(cfg: Config, s: State, w: nat)
    requires Tallied(s) && Enabled(cfg, s, Finish(w))
    ensures Tallied(FinishStep(cfg, s, w))
  {
    var h, r := s.hist, s.jobs[s.workers[w].entry.job].result;
    var failed := Failures(h.finished);
    FailuresOne(h.finished, Outcome(Run(w, s.workers[w].entry), r));
    TallyEnd(s.core, |h.submitted|, |h.cancelled|, failed, |h.finished| - failed, r);
  }

  lemma TalliedStep(cfg: Config, s: State, a: Action)
    requires Tallied(s) && Enabled(cfg, s, a)
    ensures Tallied(Step(cfg, s, a))
  {
    if a.Submit? {
      Low32Inc(|s.hist.submitted|);
    } else if a.Cancel? {
      Low32Inc(|s.hist.cancelled|);
    } else if a.Finish? {
      TalliedFinish(cfg, s, a.w);
    } else {
      assert Step(cfg, s, a).hist.finished == s.hist.finished;
    }
  }

  lemma BalancedWorker(cfg: Config, s: State, a: Action)
    requires Sized(cfg) && Balanced(s) && Enabled(cfg, s, a) && (a.TakeToken? || a.Execute?)
    ensures Balanced(Step(cfg, s, a))
  {
    TotalUpdate(s.workers, IsActive, a.w, Step(cfg, s, a).workers[a.w]);
  }

  lemma BalancedFetch(cfg: Config, s: State, w: nat)
    requires Sized(cfg) && Balanced(s) && Enabled(cfg, s, Fetch(w))
    ensures Balanced(FetchStep(cfg, s, w))
  {
    TotalAtMost(s.workers, IsActive);
    TotalUpdate(s.workers, IsActive, w, FetchStep(cfg, s, w).workers[w]);
  }

  lemma BalancedFinish(cfg: Config, s: State, w: nat)
    requires Sized(cfg) && Balanced(s) && Enabled(cfg, s, Finish(w))
    ensures Balanced(FinishStep(cfg, s, w))
  {
    TotalUpdate(s.workers, IsActive, w, Waiting);
  }

  lemma BalancedStep(cfg: Config, s: State, a: Action)
    requires Sized(cfg) && Balanced(s) && Enabled(cfg, s, a)
    ensures Balanced(Step(cfg, s, a))
  {
    match a {
      case TakeToken(_) => BalancedWorker(cfg, s, a);
      case Execute(_, _) => BalancedWorker(cfg, s, a);
      case Fetch(w) => BalancedFetch(cfg, s, w);
      case Finish(w) => BalancedFinish(cfg, s, w);
      case _ =>
    }
  }

  // ----- Tokens cover the queue before shutdown, and the workers after it

  /** Before shutdown, the tokens in the semaphore and in the hands of workers cover the queue. */
  ghost predicate QueueCovered(s: State) {
    s.stop == Live ==> |s.core.queue| <= s.workSem + Total(s.workers, IsHolder)
  }

  lemma QueueCoveredStep(cfg: Config, s: State, a: Action)
    requires Structure(cfg, s) && QueueCovered(s) && Enabled(cfg, s, a) && cfg.cap.AtLeast(cfg.queueSize)
    ensures QueueCovered(Step(cfg, s, a))
  {
    if a.TakeToken? || a.Fetch? || a.Execute? || a.Finish? {
      TotalUpdate(s.workers, IsHolder, a.w, Step(cfg, s, a).workers[a.w]);
    }
  }

  function PostsLeft(stop: StopPc): nat {
    if stop.Posting? then stop.left else 0
  }

  /** After shutdown, the tokens and the posts still to come cover every worker that has yet to be given one. */
  ghost predicate WorkersCovered(s: State) {
    s.stop != Live ==> Total(s.workers, NeedsToken) <= s.workSem + PostsLeft(s.stop)
  }

  lemma WorkersCoveredStep(cfg: Config, s: State, a: Action)
    requires Sized(cfg) && WorkersCovered(s) && Enabled(cfg, s, a) && cfg.cap.AtLeast(cfg.numWorkers)
    ensures WorkersCovered(Step(cfg, s, a))
  {
    if a.TakeToken? || a.Fetch? || a.Execute? || a.Finish? {
      TotalUpdate(s.workers, NeedsToken, a.w, Step(cfg, s, a).workers[a.w]);
    } else {
      TotalAtMost(s.workers, NeedsToken);
    }
  }

  /** Workers leave only after shutdown, and whoever has been joined has left. */
  ghost predicate ExitsInOrder(s: State) {
    && (s.stop == Live ==> forall w :: 0 <= w < |s.workers| ==> s.workers[w] != Exited)
    && (s.stop.Joining? ==> s.stop.next <= |s.workers|)
    && (s.stop.Joining? ==> forall w :: 0 <= w < s.stop.next ==> s.workers[w] == Exited)
    && (s.stop == Stopped ==> forall w :: 0 <= w < |s.workers| ==> s.workers[w] == Exited)
  }

  lemma ExitsInOrderStep(cfg: Config, s: State, a: Action)
    requires ExitsInOrder(s) && Enabled(cfg, s, a)
    ensures ExitsInOrder(Step(cfg, s, a))
  {
  }

  // ----- Successful waits never outnumber finished jobs

  ghost predicate WaitsPaid(cfg: Config, s: State) {
    && s.completeSem + s.hist.waits <= |s.hist.finished|
    && (cfg.cap.Unbounded? ==> s.completeSem + s.hist.waits == |s.hist.finished|)
  }

  lemma WaitsPaidStep(cfg: Config, s: State, a: Action)
    requires WaitsPaid(cfg, s) && Enabled(cfg, s, a)
    ensures WaitsPaid(cfg, Step(cfg, s, a))
  {
  }

  // ----- Job ids

  /** As long as the id counter has not wrapped, the ids in use are non-zero and pairwise distinct. */
  ghost predicate IdsUnique(s: State) {
    s.hist.draws < U32 ==>
      && s.counter == s.hist.draws
      && (forall i :: 0 <= i < |s.jobs| ==> s.jobs[i].id <= s.hist.draws)
      && (forall i, j :: 0 <= i < j < |s.jobs| && s.jobs[i].id == s.jobs[j].id ==> s.jobs[i].id == 0)
      && (forall e <- s.core.queue :: e.job < |s.jobs| ==> s.jobs[e.job].id != 0)
  }

  lemma IdsUniqueZeroed(cfg: Config, s: State, j: nat)
    requires Shape(cfg, s) && IdsUnique(s) && j < |s.jobs| && !Queued(s, j)
    ensures IdsUnique(Zeroed(s, j))
  {
  }

  lemma IdsUniqueSubmit(cfg: Config, s: State, j: nat, toHsm: bool)
    requires IdsUnique(s) && Enabled(cfg, s, Submit(j, toHsm))
    ensures IdsUnique(SubmitStep(cfg, s, j, toHsm))
  {
  }

  lemma IdsUniqueSame(s: State, t: State)
    requires IdsUnique(s) && t.counter == s.counter && t.hist.draws == s.hist.draws && |t.jobs| == |s.jobs|
    requires forall i :: 0 <= i < |s.jobs| ==> t.jobs[i].id == s.jobs[i].id
    requires forall e <- t.core.queue :: e in s.core.queue
    ensures IdsUnique(t)
  {
  }

  /** Only submissions, allocations and initialisations give out ids or bring jobs into the queue. */
  lemma IdsStay(cfg: Config, s: State, a: Action)
    requires Enabled(cfg, s, a) && !a.Submit? && !a.Alloc? && !a.InitJob?
    ensures var t := Step(cfg, s, a);
      && t.counter == s.counter && t.hist.draws == s.hist.draws && |t.jobs| == |s.jobs|
      && (forall i :: 0 <= i < |s.jobs| ==> t.jobs[i].id == s.jobs[i].id)
      && (forall e <- t.core.queue :: e in s.core.queue)
  {
  }

  lemma IdsUniqueStep(cfg: Config, s: State, a: Action)
    requires Structure(cfg, s) && IdsUnique(s) && Enabled(cfg, s, a)
    ensures IdsUnique(Step(cfg, s, a))
  {
    match a {
      case Submit(j, toHsm) => IdsUniqueSubmit(cfg, s, j, toHsm);
      case Alloc =>
        var k := AllocIndex(cfg, s);
        if k < cfg.numSlots {
          FreeNotInFlight(cfg, s, k);
          IdsUniqueZeroed(cfg, s, k);
        }
      case InitJob(j) => IdsUniqueZeroed(cfg, s, j);
      case _ =>
        IdsStay(cfg, s, a);
        IdsUniqueSame(s, Step(cfg, s, a));
    }
  }

  // ----- The invariant of the pool

  ghost predicate Inv(cfg: Config, s: State) {
    && Structure(cfg, s) && Fates(s) && Endings(s) && Fifo(s)
    && Tallied(s) && Balanced(s) && ExitsInOrder(s) && WaitsPaid(cfg, s) && IdsUnique(s)
    && (cfg.cap.AtLeast(cfg.queueSize) ==> QueueCovered(s))
    && (cfg.cap.AtLeast(cfg.numWorkers) ==> WorkersCovered(s))
    && (cfg.clearsPrev ==> !s.core.headLinked)
  }

  lemma InvStep(cfg: Config, s: State, a: Action)
    requires Inv(cfg, s) && Enabled(cfg, s, a)
    ensures Inv(cfg, Step(cfg, s, a))
  {
    StructureStep(cfg, s, a);
    FatesStep(cfg, s, a);
    EndingsStep(cfg, s, a);
    FifoStep(cfg, s, a);
    TalliedStep(cfg, s, a);
    BalancedStep(cfg, s, a);
    ExitsInOrderStep(cfg, s, a);
    WaitsPaidStep(cfg, s, a);
    IdsUniqueStep(cfg, s, a);
    if cfg.cap.AtLeast(cfg.queueSize) {
      QueueCoveredStep(cfg, s, a);
    }
    if cfg.cap.AtLeast(cfg.numWorkers) {
      WorkersCoveredStep(cfg, s, a);
    }
  }
}
