/** The message queue under any number of threads, with condition variables that wake one waiter per signal, let other
    threads barge in first, and wake waiters for no reason. Waits are infinite; calls that do not wait are included. */
module QueueProtocol {
  import opened Counting
  import opened QueueCore

  datatype Thread<M> =
    | Idle
    | SendBlocked(msg: M)  // inside pthread_cond_wait on cond_send
    | SendWoken(msg: M)    // woken, has yet to get the mutex back
    | RecvBlocked
    | RecvWoken

  datatype Signal = Nobody | Wakes(thread: nat)

  datatype Action<M> =
    | Send(t: nat, msg: M, wait: bool, signal: Signal)
    | ResumeSend(t: nat, signal: Signal)
    | Receive(t: nat, wait: bool, signal: Signal)
    | ResumeReceive(t: nat, signal: Signal)
    | Spurious(t: nat)

  /** `sent` and `received` record what has passed through; no action reads them. */
  datatype State<M> = State(contents: seq<M>, threads: seq<Thread<M>>, sent: seq<M>, received: seq<M>)

  function Initial<M>(numThreads: nat): State<M> {
    State([], seq(numThreads, _ => Idle), [], [])
  }

  /** A signal wakes one receiver (sender) if there is one waiting, and is lost otherwise. */
  predicate WakesReceiver<M>(threads: seq<Thread<M>>, signal: Signal) {
    if signal.Wakes? then signal.thread < |threads| && threads[signal.thread].RecvBlocked?
    else forall i :: 0 <= i < |threads| ==> !threads[i].RecvBlocked?
  }

  predicate WakesSender<M>(threads: seq<Thread<M>>, signal: Signal) {
    if signal.Wakes? then signal.thread < |threads| && threads[signal.thread].SendBlocked?
    else forall i :: 0 <= i < |threads| ==> !threads[i].SendBlocked?
  }

  function Wake<M>(threads: seq<Thread<M>>, signal: Signal): seq<Thread<M>> {
    if signal.Wakes? && signal.thread < |threads| then threads[signal.thread := Woken(threads[signal.thread])]
    else threads
  }

  function Woken<M>(th: Thread<M>): Thread<M> {
    match th
    case SendBlocked(m) => SendWoken(m)
    case RecvBlocked => RecvWoken
    case _ => th
  }

  predicate Full<M>(max: nat, s: State<M>) {
    !HasRoom(max, s.contents)
  }

  predicate Enabled<M>(max: nat, s: State<M>, a: Action<M>) {
    && a.t < |s.threads|
    && match a
       case Send(t, m, wait, signal) => s.threads[t].Idle? && (!Full(max, s) ==> WakesReceiver(s.threads, signal))
       case ResumeSend(t, signal) => s.threads[t].SendWoken? && (!Full(max, s) ==> WakesReceiver(s.threads, signal))
       case Receive(t, wait, signal) => s.threads[t].Idle? && (s.contents != [] ==> WakesSender(s.threads, signal))
       case ResumeReceive(t, signal) =>
         s.threads[t].RecvWoken? && (s.contents != [] ==> WakesSender(s.threads, signal))
       case Spurious(t) => s.threads[t].SendBlocked? || s.threads[t].RecvBlocked?
  }

  /** The message goes in, one receiver is signalled, the call returns. */
  function Deliver<M>(s: State<M>, t: nat, m: M, signal: Signal): State<M>
    requires t < |s.threads|
  {
    State(Stored(s.contents, m), Wake(s.threads[t := Idle], signal), s.sent + [m], s.received)
  }

  /** The oldest message comes out, one sender is signalled, the call returns. */
  function Collect<M>(s: State<M>, t: nat, signal: Signal): State<M>
    requires t < |s.threads| && s.contents != []
  {
    State(Rest(s.contents), Wake(s.threads[t := Idle], signal), s.sent, s.received + [Oldest(s.contents)])
  }

  function Step<M>(max: nat, s: State<M>, a: Action<M>): State<M>
    requires Enabled(max, s, a)
  {
    match a
    case Send(t, m, wait, signal) =>
      if !Full(max, s) then Deliver(s, t, m, signal)
      else if wait then s.(threads := s.threads[t := SendBlocked(m)]) else s
    case ResumeSend(t, signal) =>
      var m := s.threads[t].msg;
      if !Full(max, s) then Deliver(s, t, m, signal) else s.(threads := s.threads[t := SendBlocked(m)])
    case Receive(t, wait, signal) =>
      if s.contents != [] then Collect(s, t, signal)
      else if wait then s.(threads := s.threads[t := RecvBlocked]) else s
    case ResumeReceive(t, signal) =>
      if s.contents != [] then Collect(s, t, signal) else s.(threads := s.threads[t := RecvBlocked])
    case Spurious(t) => s.(threads := s.threads[t := Woken(s.threads[t])])
  }

  predicate Executable<M>(max: nat, s: State<M>, acts: seq<Action<M>>)
    decreases |acts|
  {
    acts == [] || (Enabled(max, s, acts[0]) && Executable(max, Step(max, s, acts[0]), acts[1..]))
  }

  function Exec<M>(max: nat, s: State<M>, acts: seq<Action<M>>): State<M>
    requires Executable(max, s, acts)
    decreases |acts|
  {
    if acts == [] then s else Exec(max, Step(max, s, acts[0]), acts[1..])
  }

  // ----- The invariant

  function SleepingReceiver<M>(th: Thread<M>): nat { if th.RecvBlocked? then 1 else 0 }
  function WokenReceiver<M>(th: Thread<M>): nat { if th.RecvWoken? then 1 else 0 }
  function SleepingSender<M>(th: Thread<M>): nat { if th.SendBlocked? then 1 else 0 }
  function WokenSender<M>(th: Thread<M>): nat { if th.SendWoken? then 1 else 0 }

  ghost predicate Counts<M>(ths: seq<Thread<M>>, messages: nat, free: nat) {
    && (Total(ths, SleepingReceiver) == 0 || messages <= Total(ths, WokenReceiver))
    && (Total(ths, SleepingSender) == 0 || free <= Total(ths, WokenSender))
  }

  ghost predicate Inv<M(!new)>(max: nat, s: State<M>) {
    && |s.contents| <= max
    && s.sent == s.received + s.contents
    && Counts(s.threads, |s.contents|, max - |s.contents|)
  }

  /** All four counts after one thread has moved. */
  lemma Moved<M(!new)>(ths: seq<Thread<M>>, t: nat, th: Thread<M>)
    requires t < |ths|
    ensures var next := ths[t := th];
      && Total(next, SleepingReceiver) == Total(ths, SleepingReceiver) - SleepingReceiver(ths[t]) + SleepingReceiver(th)
      && Total(next, WokenReceiver) == Total(ths, WokenReceiver) - WokenReceiver(ths[t]) + WokenReceiver(th)
      && Total(next, SleepingSender) == Total(ths, SleepingSender) - SleepingSender(ths[t]) + SleepingSender(th)
      && Total(next, WokenSender) == Total(ths, WokenSender) - WokenSender(ths[t]) + WokenSender(th)
  {
    TotalUpdate(ths, SleepingReceiver, t, th);
    TotalUpdate(ths, WokenReceiver, t, th);
    TotalUpdate(ths, SleepingSender, t, th);
    TotalUpdate(ths, WokenSender, t, th);
  }

  lemma DeliverKeeps<M(!new)>(max: nat, s: State<M>, t: nat, m: M, signal: Signal)
    requires Inv(max, s) && !Full(max, s) && t < |s.threads| && WakesReceiver(s.threads, signal)
    requires s.threads[t].Idle? || s.threads[t].SendWoken?
    ensures Inv(max, Deliver(s, t, m, signal))
  {
    var ths := s.threads[t := Idle];
    Moved(s.threads, t, Idle);
    if signal.Wakes? {
      Moved(ths, signal.thread, RecvWoken);
    } else {
      TotalZero(s.threads, SleepingReceiver);
    }
  }

  lemma CollectKeeps<M(!new)>(max: nat, s: State<M>, t: nat, signal: Signal)
    requires Inv(max, s) && s.contents != [] && t < |s.threads| && WakesSender(s.threads, signal)
    requires s.threads[t].Idle? || s.threads[t].RecvWoken?
    ensures Inv(max, Collect(s, t, signal))
  {
    var ths := s.threads[t := Idle];
    Moved(s.threads, t, Idle);
    if signal.Wakes? {
      Moved(ths, signal.thread, Woken(ths[signal.thread]));
    } else {
      TotalZero(s.threads, SleepingSender);
    }
    HandOver(s.received, s.contents);
  }

  lemma InvStep<M(!new)>(max: nat, s: State<M>, a: Action<M>)
    requires Inv(max, s) && Enabled(max, s, a)
    ensures Inv(max, Step(max, s, a))
  {
    match a {
      case Send(t, m, wait, signal) =>
        if !Full(max, s) { DeliverKeeps(max, s, t, m, signal); } else { Moved(s.threads, t, SendBlocked(m)); }
      case ResumeSend(t, signal) =>
        var m := s.threads[t].msg;
        if !Full(max, s) { DeliverKeeps(max, s, t, m, signal); } else { Moved(s.threads, t, SendBlocked(m)); }
      case Receive(t, wait, signal) =>
        if s.contents != [] { CollectKeeps(max, s, t, signal); } else { Moved(s.threads, t, RecvBlocked); }
      case ResumeReceive(t, signal) =>
        if s.contents != [] { CollectKeeps(max, s, t, signal); } else { Moved(s.threads, t, RecvBlocked); }
      case Spurious(t) => Moved(s.threads, t, Woken(s.threads[t]));
    }
  }

  lemma {:induction false} InvExec<M(!new)>(max: nat, s: State<M>, acts: seq<Action<M>>)
    requires Inv(max, s) && Executable(max, s, acts)
    ensures Inv(max, Exec(max, s, acts))
    decreases |acts|
  {
    if acts != [] {
      InvStep(max, s, acts[0]);
      InvExec(max, Step(max, s, acts[0]), acts[1..]);
    }
  }

  lemma InvRun<M(!new)>(max: nat, numThreads: nat, acts: seq<Action<M>>)
    requires Executable(max, Initial(numThreads), acts)
    ensures Inv(max, Exec(max, Initial(numThreads), acts))
  {
    var s: State<M> := Initial(numThreads);
    TotalZero(s.threads, SleepingReceiver);
    TotalZero(s.threads, SleepingSender);
    InvExec(max, s, acts);
  }

  // ----- Theorems

  /** Over every run, what has been received is a prefix of what has been sent, and what is missing is what is held. */
  lemma ReceivedIsPrefix<M(!new)>(max: nat, numThreads: nat, acts: seq<Action<M>>)
    requires Executable(max, Initial(numThreads), acts)
    ensures var s := Exec(max, Initial(numThreads), acts);
      s.received <= s.sent && s.contents == s.sent[|s.received|..] && |s.contents| <= max
  {
    InvRun(max, numThreads, acts);
  }

  /** No receiver sleeps on messages nobody will collect: if one sleeps while the queue holds messages, a receiver is
      awake for each of them, and the next one to run takes the oldest message. */
  lemma NoSleepOnMessages<M(!new)>(max: nat, numThreads: nat, acts: seq<Action<M>>, sleeper: nat) returns (a: Action<M>)
    requires Executable(max, Initial(numThreads), acts)
    requires var s := Exec(max, Initial(numThreads), acts);
      sleeper < |s.threads| && s.threads[sleeper].RecvBlocked? && s.contents != []
    ensures var s := Exec(max, Initial(numThreads), acts);
      && |s.contents| <= Total(s.threads, WokenReceiver)
      && a.ResumeReceive? && Enabled(max, s, a)
      && Step(max, s, a).received == s.received + [s.contents[0]]
  {
    InvRun(max, numThreads, acts);
    var s := Exec(max, Initial(numThreads), acts);
    TotalUpdate(s.threads, SleepingReceiver, sleeper, Idle);
    var t := TotalPositive(s.threads, WokenReceiver);
    a := ResumeReceive(t, if i :| 0 <= i < |s.threads| && s.threads[i].SendBlocked? then Wakes(i) else Nobody);
  }

  /** No sender sleeps on free slots nobody will fill: if one sleeps while the queue has room, a sender is awake for
      each free slot, and the next one to run stores its message. */
  lemma NoSleepOnRoom<M(!new)>(max: nat, numThreads: nat, acts: seq<Action<M>>, sleeper: nat) returns (a: Action<M>)
    requires Executable(max, Initial(numThreads), acts)
    requires var s := Exec(max, Initial(numThreads), acts);
      sleeper < |s.threads| && s.threads[sleeper].SendBlocked? && !Full(max, s)
    ensures var s := Exec(max, Initial(numThreads), acts);
      && max - |s.contents| <= Total(s.threads, WokenSender)
      && a.ResumeSend? && Enabled(max, s, a)
      && s.threads[a.t].SendWoken? && Step(max, s, a).sent == s.sent + [s.threads[a.t].msg]
  {
    InvRun(max, numThreads, acts);
    var s := Exec(max, Initial(numThreads), acts);
    TotalUpdate(s.threads, SleepingSender, sleeper, Idle);
    var t := TotalPositive(s.threads, WokenSender);
    a := ResumeSend(t, if i :| 0 <= i < |s.threads| && s.threads[i].RecvBlocked? then Wakes(i) else Nobody);
  }

  ghost predicate NobodyAwake<M>(s: State<M>) {
    forall i :: 0 <= i < |s.threads| ==> !s.threads[i].SendWoken? && !s.threads[i].RecvWoken?
  }

  ghost predicate BothSleep<M>(s: State<M>) {
    exists i, j :: 0 <= i < |s.threads| && 0 <= j < |s.threads| && s.threads[i].RecvBlocked? && s.threads[j].SendBlocked?
  }

  lemma SleepersDiffer<M(!new)>(max: nat, s: State<M>)
    requires 0 < max && Inv(max, s) && NobodyAwake(s)
    ensures !BothSleep(s)
  {
    TotalZero(s.threads, WokenReceiver);
    TotalZero(s.threads, WokenSender);
    if i, j :| 0 <= i < |s.threads| && 0 <= j < |s.threads| && s.threads[i].RecvBlocked? && s.threads[j].SendBlocked? {
      TotalUpdate(s.threads, SleepingReceiver, i, Idle);
      TotalUpdate(s.threads, SleepingSender, j, Idle);
    }
  }

  /** Senders and receivers never all sleep on each other: with nobody awake, sleeping receivers mean an empty queue and
      sleeping senders a full one, so not both. */
  lemma NoMutualSleep<M(!new)>(max: nat, numThreads: nat, acts: seq<Action<M>>)
    requires 0 < max && Executable(max, Initial(numThreads), acts)
    requires NobodyAwake(Exec(max, Initial(numThreads), acts))
    ensures !BothSleep(Exec(max, Initial(numThreads), acts))
  {
    InvRun(max, numThreads, acts);
    SleepersDiffer(max, Exec(max, Initial(numThreads), acts));
  }

  // ----- Woken threads come to rest

  predicate Resumes<M>(a: Action<M>) {
    a.ResumeSend? || a.ResumeReceive?
  }

  /** What woken threads and the ones they wake have left to do. */
  ghost function Unrest<M(!new)>(ths: seq<Thread<M>>): nat {
    2 * (Total(ths, WokenReceiver) + Total(ths, WokenSender)) + Total(ths, SleepingReceiver) + Total(ths, SleepingSender)
  }

  lemma ResumeRests<M(!new)>(max: nat, s: State<M>, a: Action<M>)
    requires Resumes(a) && Enabled(max, s, a)
    ensures Unrest(Step(max, s, a).threads) < Unrest(s.threads)
  {
    var goes := if a.ResumeSend? then !Full(max, s) else s.contents != [];
    if goes {
      var ths := s.threads[a.t := Idle];
      Moved(s.threads, a.t, Idle);
      if a.signal.Wakes? {
        Moved(ths, a.signal.thread, Woken(ths[a.signal.thread]));
      }
    } else {
      Moved(s.threads, a.t, if a.ResumeSend? then SendBlocked(s.threads[a.t].msg) else RecvBlocked);
    }
  }

  lemma {:induction false} ResumesRest<M(!new)>(max: nat, s: State<M>, acts: seq<Action<M>>)
    requires Executable(max, s, acts) && forall a <- acts :: Resumes(a)
    ensures |acts| + Unrest(Exec(max, s, acts).threads) <= Unrest(s.threads)
    decreases |acts|
  {
    if acts != [] {
      ResumeRests(max, s, acts[0]);
      ResumesRest(max, Step(max, s, acts[0]), acts[1..]);
    }
  }

  /** A woken thread can always go on. */
  lemma WokenCanResume<M(!new)>(max: nat, s: State<M>, t: nat) returns (a: Action<M>)
    requires t < |s.threads| && (s.threads[t].SendWoken? || s.threads[t].RecvWoken?)
    ensures Resumes(a) && Enabled(max, s, a)
  {
    if s.threads[t].SendWoken? {
      a := ResumeSend(t, if i :| 0 <= i < |s.threads| && s.threads[i].RecvBlocked? then Wakes(i) else Nobody);
    } else {
      a := ResumeReceive(t, if i :| 0 <= i < |s.threads| && s.threads[i].SendBlocked? then Wakes(i) else Nobody);
    }
  }

  /** Left alone, the woken threads come to rest within twice their number plus the number of sleepers, whatever order they
      run in; and then no receiver sleeps while there is a message and no sender while there is room. */
  lemma WokenComeToRest<M(!new)>(max: nat, numThreads: nat, acts: seq<Action<M>>, more: seq<Action<M>>)
    requires Executable(max, Initial(numThreads), acts)
    requires var s := Exec(max, Initial(numThreads), acts); Executable(max, s, more) && forall a <- more :: Resumes(a)
    ensures var s := Exec(max, Initial(numThreads), acts);
      var u := Exec(max, s, more);
      && |more| <= Unrest(s.threads)
      && ((forall a :: Resumes(a) ==> !Enabled(max, u, a)) ==>
            && NobodyAwake(u)
            && (forall i :: 0 <= i < |u.threads| && u.threads[i].RecvBlocked? ==> u.contents == [])
            && (forall i :: 0 <= i < |u.threads| && u.threads[i].SendBlocked? ==> Full(max, u)))
  {
    var s := Exec(max, Initial(numThreads), acts);
    var u := Exec(max, s, more);
    InvRun(max, numThreads, acts);
    InvExec(max, s, more);
    ResumesRest(max, s, more);
    if forall a :: Resumes(a) ==> !Enabled(max, u, a) {
      forall t | 0 <= t < |u.threads| ensures !u.threads[t].SendWoken? && !u.threads[t].RecvWoken? {
        if u.threads[t].SendWoken? || u.threads[t].RecvWoken? {
          var a := WokenCanResume(max, u, t);
        }
      }
      SleepersWait(max, u);
    }
  }

  lemma SleepersWait<M(!new)>(max: nat, s: State<M>)
    requires Inv(max, s) && NobodyAwake(s)
    ensures forall i :: 0 <= i < |s.threads| && s.threads[i].RecvBlocked? ==> s.contents == []
    ensures forall i :: 0 <= i < |s.threads| && s.threads[i].SendBlocked? ==> Full(max, s)
  {
    TotalZero(s.threads, WokenReceiver);
    TotalZero(s.threads, WokenSender);
    forall i | 0 <= i < |s.threads| ensures s.threads[i].RecvBlocked? ==> s.contents == []
      ensures s.threads[i].SendBlocked? ==> Full(max, s)
    {
      TotalUpdate(s.threads, SleepingReceiver, i, Idle);
      TotalUpdate(s.threads, SleepingSender, i, Idle);
    }
  }
}
