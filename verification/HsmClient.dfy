/** The three-state client of `examples/linux/hsm_worker.c`: idle, working, and processing inside working. */
module HsmClient {
  import opened PoolCore
  import opened Hsm

  const IDLE: nat := 0
  const WORKING: nat := 1
  const PROCESSING: nat := 2

  const WORK_START: int := 4
  const WORK_COMPLETE: int := 5
  const WORK_CANCEL: int := 6
  const WORK_PROGRESS: int := 7
  const WORK_ERROR: int := 8

  /** The signals that some handler of the machine names. */
  predicate Named(sig: int) {
    sig in {SIG_ENTRY, SIG_PERIOD, WORK_START, WORK_COMPLETE, WORK_CANCEL, WORK_PROGRESS, WORK_ERROR}
  }

  /** A job that an event carries, with the result stored in it. */
  datatype Done = Done(job: nat, result: int)

  datatype Event = Event(sig: int, data: Option<Done>)

  /** What the pool answers during one dispatch: the slot allocated, if any, and whether the submission was accepted. */
  datatype Answers = Answers(slot: Option<nat>, accepted: bool)

  /** `cancels` lists the jobs that the pool was asked to cancel. */
  datatype View = View(
    active: Active, job: Option<nat>, jobCount: nat, completed: nat, errors: nat, cancels: seq<nat>)

  const START := View(Active(IDLE, IDLE, 0), None, 0, 0, 0, [])

  // ----- The effect of each dispatch, in one piece

  /** ENTRY of `working`: one more job is asked for; the machine ends up in `processing` or back in `idle`. */
  function Launched(v: View, pool: Answers): View {
    var v' := v.(jobCount := Inc32(v.jobCount));
    if pool.slot.None? then v'.(active := Active(IDLE, WORKING, 0))
    else if pool.accepted then v'.(job := pool.slot, active := Active(PROCESSING, WORKING, 0))
    else v'.(job := None, active := Active(IDLE, WORKING, 0))
  }

  /** WORK_COMPLETE in `processing`. */
  function Settled(v: View, data: Option<Done>): View {
    var v' := if data.None? then v
              else if data.value.result < 0 then v.(errors := Inc32(v.errors), job := None)
              else v.(completed := Inc32(v.completed), job := None);
    v'.(active := Active(IDLE, PROCESSING, 0))
  }

  /** WORK_CANCEL in `processing`: the pool is asked to cancel the current job, if there is one. */
  function Withdrawn(v: View): View {
    if v.job.None? then v else v.(cancels := v.cancels + [v.job.value])
  }

  predicate AtRest(v: View) {
    v.active.error == 0 && (v.active.current == IDLE || v.active.current == PROCESSING)
  }

  /** The dispatch ends: see `ExampleEnds`. */
  predicate Safe(v: View, sig: int) {
    v.active.current == PROCESSING ==> Named(sig)
  }

  function React(v: View, ev: Event, pool: Answers): (u: View)
    requires AtRest(v) && Safe(v, ev.sig)
    ensures AtRest(u)
  {
    if v.active.current == IDLE then
      if ev.sig == WORK_START then Launched(v, pool) else v
    else if ev.sig == WORK_COMPLETE then Settled(v, ev.data)
    else if ev.sig == WORK_ERROR then Launched(v.(errors := Inc32(v.errors)), pool)
    else if ev.sig == WORK_CANCEL then Withdrawn(v)
    else v
  }

  // ----- The handlers as written, nested through the macros

  class Client {
    var current: nat
    var history: nat
    var error: int
    var currentJob: Option<nat>
    var jobCount: nat
    var completedCount: nat
    var errorCount: nat
    var cancels: seq<nat>

    ghost function Snapshot(): View
      reads this
    {
      View(Active(current, history, error), currentJob, jobCount, completedCount, errorCount, cancels)
    }

    constructor ()
      ensures Snapshot() == START
    {
      current, history, error, currentJob, cancels := IDLE, IDLE, 0, None, [];
      jobCount, completedCount, errorCount := 0, 0, 0;
    }

    /** `STATE_TRANSIT`: the history is set, then the state, then the new state's ENTRY runs. */
    method Transit(target: nat, pool: Answers)
      requires target in {IDLE, WORKING, PROCESSING}
      modifies this
      ensures var v := old(Snapshot()).(active := Active(target, old(current), old(error)));
        Snapshot() == if target == WORKING then Launched(v, pool) else v.(active := v.active.(error := 0))
      decreases if target == WORKING then 3 else 1
    {
      history := current;
      current := target;
      var entry := Event(SIG_ENTRY, None);
      if target == IDLE {
        error := IdleHandler(entry, pool);
      } else if target == WORKING {
        error := WorkingHandler(entry, pool);
      } else {
        error := ProcessingHandler(entry, pool);
      }
    }

    method IdleHandler(ev: Event, pool: Answers) returns (rc: int)
      requires current == IDLE
      modifies this
      ensures rc == 0
      ensures Snapshot() == if ev.sig == WORK_START then Launched(old(Snapshot()), pool) else old(Snapshot())
      decreases if ev.sig == SIG_ENTRY then 0 else 4
    {
      rc := 0;
      if ev.sig == WORK_START {
        Transit(WORKING, pool);
        rc := error;
      }
    }

    /** Called for `working` itself and, through `STATE_SUPER`, for `processing`. */
    method WorkingHandler(ev: Event, pool: Answers) returns (rc: int)
      requires ev.sig == SIG_ENTRY ==> current == WORKING
      requires current == WORKING || (current == PROCESSING && ev.sig in {WORK_COMPLETE, WORK_CANCEL, WORK_START})
      modifies this
      ensures rc == 0
      ensures ev.sig == SIG_ENTRY ==> Snapshot() == Launched(old(Snapshot()), pool)
      ensures ev.sig == WORK_COMPLETE && old(current) == PROCESSING ==> Snapshot() == Settled(old(Snapshot()), ev.data)
      ensures ev.sig == WORK_CANCEL ==> Snapshot() == Withdrawn(old(Snapshot()))
      ensures ev.sig !in {SIG_ENTRY, WORK_COMPLETE, WORK_CANCEL} ==> Snapshot() == old(Snapshot())
      decreases 2
    {
      rc := 0;
      if ev.sig == SIG_ENTRY {
        jobCount := Inc32(jobCount);
        var job := pool.slot;
        if job.None? {
          Transit(IDLE, pool);
          return error;
        }
        currentJob := job;
        if !pool.accepted {
          currentJob := None;
          Transit(IDLE, pool);
          rc := error;
        } else {
          Transit(PROCESSING, pool);
          rc := error;
        }
      } else if ev.sig == WORK_COMPLETE {
        if ev.data.Some? {
          if ev.data.value.result < 0 {
            errorCount := Inc32(errorCount);
          } else {
            completedCount := Inc32(completedCount);
          }
          currentJob := None;
        }
        Transit(IDLE, pool);
        rc := error;
      } else if ev.sig == WORK_CANCEL {
        if currentJob.Some? {
          cancels := cancels + [currentJob.value];
        }
      }
    }

    method ProcessingHandler(ev: Event, pool: Answers) returns (rc: int)
      requires current == PROCESSING && Named(ev.sig)
      modifies this
      ensures rc == 0
      ensures ev.sig == SIG_ENTRY ==> Snapshot() == old(Snapshot())
      ensures AtRest(old(Snapshot())) ==> Snapshot() == React(old(Snapshot()), ev, pool)
      decreases if ev.sig == SIG_ENTRY then 0 else 4
    {
      rc := 0;
      if ev.sig == SIG_ENTRY || ev.sig == SIG_PERIOD || ev.sig == WORK_PROGRESS {
      } else if ev.sig == WORK_ERROR {
        errorCount := Inc32(errorCount);
        Transit(WORKING, pool);
        rc := error;
      } else {
        error := WorkingHandler(ev, pool);
      }
    }

    /** `STATE_DISPATCH` by the active object. */
    method Dispatch(ev: Event, pool: Answers)
      requires AtRest(Snapshot()) && Safe(Snapshot(), ev.sig)
      modifies this
      ensures AtRest(Snapshot()) && Snapshot() == React(old(Snapshot()), ev, pool)
    {
      if current == IDLE {
        var rc := IdleHandler(ev, pool);
      } else {
        var rc := ProcessingHandler(ev, pool);
      }
    }
  }

  // ----- The machine in terms of the macros

  /** The example as a table of reactions; `launched` says whether the pool accepts the job asked for. */
  function Example(launched: bool): Machine {
    Machine(
      s => if s == PROCESSING then Some(WORKING) else None,
      (s, sig) =>
        if s == IDLE then if sig == WORK_START then Transit(WORKING) else Handle(0)
        else if s == WORKING then
          if sig == SIG_ENTRY then Transit(if launched then PROCESSING else IDLE)
          else if sig == WORK_COMPLETE then Transit(IDLE)
          else if sig == WORK_CANCEL || sig == WORK_START then Handle(0)
          else Delegate
        else
          if sig == SIG_ENTRY || sig == SIG_PERIOD || sig == WORK_PROGRESS then Handle(0)
          else if sig == WORK_ERROR then Transit(WORKING)
          else Delegate)
  }

  /** A dispatch to the resting machine ends exactly when it is safe: in `processing`, a signal that no handler names
      sends the handler of `working` into endless recursion. */
  lemma ExampleEnds(v: View, sig: int, launched: bool)
    requires AtRest(v)
    ensures Terminates(Example(launched), v.active, sig) <==> Safe(v, sig)
  {
    var m := Example(launched);
    if v.active.current == PROCESSING && !Named(sig) {
      DelegationEnds(m, v.active, sig);
    } else {
      var c := ExampleDispatch(v, Event(sig, None), Answers(if launched then Some(0) else None, launched));
    }
  }

  /** The one-piece effect is what the macros compute on the machine's table. */
  lemma ExampleDispatch(v: View, ev: Event, pool: Answers) returns (c: Called)
    requires AtRest(v) && Safe(v, ev.sig)
    ensures var m := Example(pool.slot.Some? && pool.accepted);
      && Hsm.Dispatch(m, 4, v.active, ev.sig) == Some(c)
      && c.active == React(v, ev, pool).active
  {
    var launched := pool.slot.Some? && pool.accepted;
    var m, a := Example(launched), v.active;
    if a.current == IDLE && ev.sig == WORK_START {
      EntersWorking(launched, a.(history := IDLE, current := WORKING));
    } else if a.current == PROCESSING && ev.sig == WORK_ERROR {
      EntersWorking(launched, a.(history := PROCESSING, current := WORKING));
    } else if a.current == PROCESSING && ev.sig == WORK_COMPLETE {
      assert Call(m, 2, a.(history := PROCESSING, current := IDLE), IDLE, SIG_ENTRY).Some?;
      assert Call(m, 3, a, WORKING, WORK_COMPLETE).Some?;
    } else if a.current == PROCESSING && ev.sig in {WORK_CANCEL, WORK_START} {
      assert Call(m, 3, a, WORKING, ev.sig).Some?;
    }
    c := Hsm.Dispatch(m, 4, a, ev.sig).value;
  }

  /** The example against the parent chain. Walking the chain always ends, whatever the signal. The macros end exactly where
      the path of the walk meets no double delegation, which is where the dispatch is safe, and then the machine goes where
      the walk goes. */
  lemma ExampleWalks(v: View, ev: Event, pool: Answers)
    requires AtRest(v)
    ensures var m := Example(pool.slot.Some? && pool.accepted);
      var w := Walk(m, 3, v.active, v.active.current, ev.sig);
      && Hierarchy(m) && w.Some?
      && (Meets(m, 3, v.active.current, ev.sig) <==> !Safe(v, ev.sig))
      && (Terminates(m, v.active, ev.sig) <==> Safe(v, ev.sig))
      && (if Safe(v, ev.sig) then SameStates(React(v, ev, pool).active, w.value) else w.value == v.active)
  {
    var launched := pool.slot.Some? && pool.accepted;
    var m, a := Example(launched), v.active;
    assert Hierarchy(m);
    ExampleWalkEnds(launched, a, ev.sig);
    MacrosEndExactlyWhenWalkEnds(m, a, ev.sig);
    ExampleEnds(v, ev.sig, launched);
    if Safe(v, ev.sig) {
      var c := ExampleDispatch(v, ev, pool);
      AgreesWithWalk(m, 4, a, a, ev.sig);
      WalkDeeper(m, 3, 4, a, a.current, ev.sig);
    }
  }

  lemma ExampleWalkEnds(launched: bool, a: Active, sig: int)
    requires a.current == IDLE || a.current == PROCESSING
    ensures var m := Example(launched);
      Hierarchy(m) && Walk(m, 3, a, a.current, sig).Some?
      && (a.current == PROCESSING && !Named(sig) ==> Walk(m, 3, a, a.current, sig) == Some(a))
  {
    var m := Example(launched);
    assert Hierarchy(m);
    var b := a.(history := a.current, current := WORKING);
    var end := if launched then PROCESSING else IDLE;
    assert Walk(m, 1, b.(history := WORKING, current := end), end, SIG_ENTRY).Some?;
    assert Walk(m, 2, b, WORKING, SIG_ENTRY).Some?;
    assert Walk(m, 2, a.(history := a.current, current := IDLE), IDLE, SIG_ENTRY).Some?;
    assert a.current == PROCESSING && Delegates(m, PROCESSING, sig) ==>
      Walk(m, 3, a, PROCESSING, sig) == Walk(m, 3, a, WORKING, sig);
  }

  lemma EntersWorking(launched: bool, a: Active)
    requires a.current == WORKING
    ensures var end := if launched then PROCESSING else IDLE;
      Call(Example(launched), 3, a, WORKING, SIG_ENTRY)
      == Some(Called(Active(end, WORKING, 0), 0))
  {
    var end := if launched then PROCESSING else IDLE;
    assert Call(Example(launched), 2, a.(history := WORKING, current := end), end, SIG_ENTRY)
        == Some(Called(a.(history := WORKING, current := end), 0));
  }

  // ----- Over all runs

  datatype Input = Input(ev: Event, pool: Answers)

  /** The inputs can be dispatched one after another, each to its end. */
  predicate Dispatchable(v: View, inputs: seq<Input>)
    requires AtRest(v)
    decreases |inputs|
  {
    inputs == [] ||
    (Safe(v, inputs[0].ev.sig) && Dispatchable(React(v, inputs[0].ev, inputs[0].pool), inputs[1..]))
  }

  function AfterInputs(v: View, inputs: seq<Input>): View
    requires AtRest(v) && Dispatchable(v, inputs)
    decreases |inputs|
  {
    if inputs == [] then v else AfterInputs(React(v, inputs[0].ev, inputs[0].pool), inputs[1..])
  }

  /** The superstate is transient: between dispatches the machine is in `idle` or `processing`, never in `working`,
      and in `processing` it always came from `working`. */
  lemma {:induction false} WorkingIsTransient(v: View, inputs: seq<Input>)
    requires AtRest(v) && Dispatchable(v, inputs) && (v.active.current == PROCESSING ==> v.active.history == WORKING)
    ensures var u := AfterInputs(v, inputs); AtRest(u) && (u.active.current == PROCESSING ==> u.active.history == WORKING)
    decreases |inputs|
  {
    if inputs != [] {
      WorkingIsTransient(React(v, inputs[0].ev, inputs[0].pool), inputs[1..]);
    }
  }

  /** The input makes the machine ask the pool for a job. */
  predicate Asks(v: View, i: Input) {
    (v.active.current == IDLE && i.ev.sig == WORK_START) || (v.active.current == PROCESSING && i.ev.sig == WORK_ERROR)
  }

  /** The pool has no slot or refuses the submission. */
  predicate Refused(pool: Answers) {
    pool.slot.None? || !pool.accepted
  }

  /** How many jobs were asked for in vain, and how many were written off by a completion event that carries no job. */
  function Unserved(v: View, inputs: seq<Input>): nat
    requires AtRest(v) && Dispatchable(v, inputs)
    decreases |inputs|
  {
    if inputs == [] then 0
    else
      var i := inputs[0];
      var blank := v.active.current == PROCESSING && i.ev.sig == WORK_COMPLETE && i.ev.data.None?;
      (if (Asks(v, i) && Refused(i.pool)) || blank then 1 else 0) + Unserved(React(v, i.ev, i.pool), inputs[1..])
  }

  function Outstanding(v: View): nat {
    if v.active.current == PROCESSING then 1 else 0
  }

  /** What the four counts would show without wrap-around. */
  datatype Account = Account(jobs: nat, completed: nat, errors: nat, unserved: nat)

  predicate Balances(v: View, x: Account) {
    && v.jobCount == Low32(x.jobs) && v.completed == Low32(x.completed) && v.errors == Low32(x.errors)
    && x.jobs == x.completed + x.errors + x.unserved + Outstanding(v)
  }

  lemma AccountStep(v: View, i: Input, x: Account) returns (y: Account)
    requires AtRest(v) && Safe(v, i.ev.sig) && Balances(v, x)
    ensures Balances(React(v, i.ev, i.pool), y)
    ensures y.unserved == x.unserved + Unserved(v, [i])
  {
    Low32Inc(x.jobs);
    Low32Inc(x.completed);
    Low32Inc(x.errors);
    y := x;
    if v.active.current == PROCESSING && i.ev.sig == WORK_COMPLETE {
      y := if i.ev.data.None? then x.(unserved := x.unserved + 1)
           else if i.ev.data.value.result < 0 then x.(errors := x.errors + 1)
           else x.(completed := x.completed + 1);
    } else if Asks(v, i) {
      y := x.(jobs := x.jobs + 1,
              errors := if i.ev.sig == WORK_ERROR then x.errors + 1 else x.errors,
              unserved := if Refused(i.pool) then x.unserved + 1 else x.unserved);
    }
  }

  lemma {:induction false} AccountFrom(v: View, inputs: seq<Input>, x: Account) returns (y: Account)
    requires AtRest(v) && Dispatchable(v, inputs) && Balances(v, x)
    ensures Balances(AfterInputs(v, inputs), y) && y.unserved == x.unserved + Unserved(v, inputs)
    decreases |inputs|
  {
    y := x;
    if inputs != [] {
      y := AccountStep(v, inputs[0], x);
      y := AccountFrom(React(v, inputs[0].ev, inputs[0].pool), inputs[1..], y);
    }
  }

  /** Over every run of the machine, WORK_ERROR included, every job asked for is settled, in vain, or the one
      outstanding: `job_count` equals `completed_count + error_count` plus the unserved ones, plus one in
      `processing`, modulo 2^32. */
  lemma JobsAccountedFor(inputs: seq<Input>)
    requires Dispatchable(START, inputs)
    ensures var v := AfterInputs(START, inputs);
      v.jobCount == Low32(v.completed + v.errors + Unserved(START, inputs) + Outstanding(v))
  {
    var x := AccountFrom(START, inputs, Account(0, 0, 0, 0));
    Low32Sum(x.completed, x.errors, 0, x.unserved + Outstanding(AfterInputs(START, inputs)));
  }
}
