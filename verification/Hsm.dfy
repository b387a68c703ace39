/** The state machine macros of `core/hsm.h` over an arbitrary machine, and the active object of `core/osa_hsm.c`. */
module Hsm {

  // The framework's signals; 0 and 2 are INIT and EXIT, which the macros never send. Users' signals start at 4.
  const SIG_ENTRY: int := 1
  const SIG_PERIOD: int := 3

  datatype Option<+T> = None | Some(value: T)

  /** What a handler does with a signal: deal with it, `STATE_SUPER`, or `STATE_TRANSIT`. */
  datatype Reaction = Handle(rc: int) | Delegate | Transit(target: nat)

  datatype Machine = Machine(parent: nat -> Option<nat>, react: (nat, int) -> Reaction)

  datatype Active = Active(current: nat, history: nat, error: int)

  /** The effect of a handler call: the new instance and the value returned. */
  datatype Called = Called(active: Active, rc: int)

  /** `handler` is called with `sig`; `depth` bounds the nesting of handler calls, and `None` means that it was not
      enough. A handler returns 0 after `STATE_SUPER` and `STATE_ERROR()` after `STATE_TRANSIT`. */
  function Call(m: Machine, depth: nat, a: Active, handler: nat, sig: int): Option<Called> {
    if depth == 0 then None
    else
      match m.react(handler, sig)
      case Handle(rc) => Some(Called(a, rc))
      case Transit(t) =>
        (match Call(m, depth - 1, a.(history := a.current, current := t), t, SIG_ENTRY)
         case None => None
         case Some(c) => Some(Called(c.active.(error := c.rc), c.rc)))
      case Delegate =>
        (match m.parent(a.current)
         case None => Some(Called(a, 0))
         case Some(p) =>
           match Call(m, depth - 1, a, p, sig)
           case None => None
           case Some(c) => Some(Called(c.active.(error := c.rc), 0)))
  }

  /** `STATE_DISPATCH` of an event to the current state. */
  function Dispatch(m: Machine, depth: nat, a: Active, sig: int): Option<Called> {
    Call(m, depth, a, a.current, sig)
  }

  ghost predicate Terminates(m: Machine, a: Active, sig: int) {
    exists depth :: Dispatch(m, depth, a, sig).Some?
  }

  /** More stack does not change the outcome. */
  lemma {:induction false} CallDeeper(m: Machine, depth: nat, more: nat, a: Active, handler: nat, sig: int)
    requires depth <= more && Call(m, depth, a, handler, sig).Some?
    ensures Call(m, more, a, handler, sig) == Call(m, depth, a, handler, sig)
    decreases depth
  {
    match m.react(handler, sig)
    case Handle(_) =>
    case Transit(t) => CallDeeper(m, depth - 1, more - 1, a.(history := a.current, current := t), t, SIG_ENTRY);
    case Delegate =>
      if m.parent(a.current).Some? {
        CallDeeper(m, depth - 1, more - 1, a, m.parent(a.current).value, sig);
      }
  }

  /** Run to completion: the instance after one event. */
  ghost function After(m: Machine, a: Active, sig: int): Active
    requires Terminates(m, a, sig)
  {
    var depth :| Dispatch(m, depth, a, sig).Some?;
    Dispatch(m, depth, a, sig).value.active
  }

  lemma AfterIs(m: Machine, depth: nat, a: Active, sig: int)
    requires Dispatch(m, depth, a, sig).Some?
    ensures Terminates(m, a, sig) && After(m, a, sig) == Dispatch(m, depth, a, sig).value.active
  {
    var chosen: nat :| Dispatch(m, chosen, a, sig).Some?
                       && After(m, a, sig) == Dispatch(m, chosen, a, sig).value.active;
    assert Dispatch(m, chosen, a, sig) == Call(m, chosen, a, a.current, sig);
    if chosen <= depth {
      CallDeeper(m, chosen, depth, a, a.current, sig);
    } else {
      CallDeeper(m, depth, chosen, a, a.current, sig);
    }
  }

  // ----- The calls a dispatch makes

  /** A handler called with a signal; `entered` says that `STATE_TRANSIT` made the call. */
  datatype Visit = Visit(handler: nat, sig: int, entered: bool)

  /** The calls nested at most `depth` deep, outermost first, whether or not the outermost ever returns. */
  function Visits(m: Machine, depth: nat, a: Active, handler: nat, sig: int, entered: bool): seq<Visit> {
    if depth == 0 then []
    else
      [Visit(handler, sig, entered)] +
      match m.react(handler, sig)
      case Handle(_) => []
      case Transit(t) => Visits(m, depth - 1, a.(history := a.current, current := t), t, SIG_ENTRY, true)
      case Delegate =>
        match m.parent(a.current)
        case None => []
        case Some(p) => Visits(m, depth - 1, a, p, sig, false)
  }

  /** For every machine, every signal and however deep the calls nest, ended or not: handlers are called with the signal that
      was dispatched or, by transitions, with ENTRY. In particular no handler is called with EXIT unless EXIT was dispatched. */
  lemma {:induction false} NoSignalButEntry(m: Machine, depth: nat, a: Active, handler: nat, sig: int, entered: bool)
    requires entered ==> sig == SIG_ENTRY
    ensures forall v <- Visits(m, depth, a, handler, sig, entered) ::
      (v.sig == sig || v.sig == SIG_ENTRY) && (v.entered ==> v.sig == SIG_ENTRY)
    decreases depth
  {
    if 0 < depth {
      match m.react(handler, sig)
      case Handle(_) =>
      case Transit(t) =>
        NoSignalButEntry(m, depth - 1, a.(history := a.current, current := t), t, SIG_ENTRY, true);
      case Delegate =>
        if m.parent(a.current).Some? {
          NoSignalButEntry(m, depth - 1, a, m.parent(a.current).value, sig, false);
        }
    }
  }

  /** The states entered by transitions, in order. */
  function Targets(vs: seq<Visit>): seq<nat> {
    if vs == [] then [] else (if vs[0].entered then [vs[0].handler] else []) + Targets(vs[1..])
  }

  /** Through any nesting of transitions and delegations: a call that ends leaves the instance in the last state entered,
      with the state before it as history; and after a transition the error recorded is the value returned. */
  lemma {:induction false} LastTransitionWins(m: Machine, depth: nat, a: Active, handler: nat, sig: int)
    requires Call(m, depth, a, handler, sig).Some?
    ensures var c := Call(m, depth, a, handler, sig).value;
      var states := [a.current] + Targets(Visits(m, depth, a, handler, sig, false));
      var n := |states| - 1;
      && c.active.current == states[n]
      && c.active.history == (if n == 0 then a.history else states[n - 1])
      && (m.react(handler, sig).Transit? ==> c.active.error == c.rc)
    decreases depth
  {
    var vs := Visits(m, depth, a, handler, sig, false);
    match m.react(handler, sig)
    case Handle(_) => assert vs == [Visit(handler, sig, false)];
    case Transit(t) =>
      var b := a.(history := a.current, current := t);
      LastTransitionWins(m, depth - 1, b, t, SIG_ENTRY);
      TargetsEntered(m, depth - 1, b, t, SIG_ENTRY);
      assert vs[1..] == Visits(m, depth - 1, b, t, SIG_ENTRY, true);
    case Delegate =>
      if m.parent(a.current).Some? {
        var p := m.parent(a.current).value;
        LastTransitionWins(m, depth - 1, a, p, sig);
        assert vs[1..] == Visits(m, depth - 1, a, p, sig, false);
      }
  }

  lemma TargetsEntered(m: Machine, depth: nat, a: Active, handler: nat, sig: int)
    requires 0 < depth
    ensures Targets(Visits(m, depth, a, handler, sig, true))
         == [handler] + Targets(Visits(m, depth, a, handler, sig, false))
  {
    var vs, ws := Visits(m, depth, a, handler, sig, true), Visits(m, depth, a, handler, sig, false);
    assert vs[1..] == ws[1..];
  }

  // ----- Delegation

  predicate Delegates(m: Machine, s: nat, sig: int) {
    m.react(s, sig).Delegate?
  }

  /** Both the state and its parent delegate: `STATE_SUPER` in the parent's handler calls that same handler again. */
  predicate DoubleDelegation(m: Machine, s: nat, sig: int) {
    Delegates(m, s, sig) && m.parent(s).Some? && Delegates(m, m.parent(s).value, sig)
  }

  lemma {:induction false} ParentLoops(m: Machine, depth: nat, a: Active, sig: int)
    requires m.parent(a.current).Some? && Delegates(m, m.parent(a.current).value, sig)
    ensures Call(m, depth, a, m.parent(a.current).value, sig).None?
  {
    if 0 < depth {
      ParentLoops(m, depth - 1, a, sig);
    }
  }

  /** Neither the state nor its parent, the only ones a delegated event can reach, answers with a transition. */
  predicate Quiet(m: Machine, s: nat, sig: int) {
    && !m.react(s, sig).Transit?
    && (m.parent(s).Some? ==> !m.react(m.parent(s).value, sig).Transit?)
  }

  /** What a dispatch without a transition comes to: the error recorded and the value returned. */
  function Settles(m: Machine, a: Active, sig: int): Called
    requires Quiet(m, a.current, sig) && !DoubleDelegation(m, a.current, sig)
  {
    match m.react(a.current, sig)
    case Handle(rc) => Called(a, rc)
    case Delegate =>
      match m.parent(a.current)
      case None => Called(a, 0)
      case Some(p) => Called(a.(error := m.react(p, sig).rc), 0)
  }

  /** A delegated event that causes no transition reaches the current state and its immediate parent only, and the dispatch
      ends exactly when that parent does not delegate it again. */
  lemma DelegationEnds(m: Machine, a: Active, sig: int)
    requires Quiet(m, a.current, sig)
    ensures Terminates(m, a, sig) <==> !DoubleDelegation(m, a.current, sig)
    ensures !DoubleDelegation(m, a.current, sig) ==> Dispatch(m, 2, a, sig) == Some(Settles(m, a, sig))
    ensures forall depth: nat, v :: v in Visits(m, depth, a, a.current, sig, false) ==>
      v.sig == sig && !v.entered && (v.handler == a.current || m.parent(a.current) == Some(v.handler))
  {
    if DoubleDelegation(m, a.current, sig) {
      forall depth: nat ensures Dispatch(m, depth, a, sig).None? {
        if 0 < depth {
          ParentLoops(m, depth - 1, a, sig);
        }
      }
    } else {
      if Delegates(m, a.current, sig) && m.parent(a.current).Some? {
        var p := m.parent(a.current).value;
        assert Call(m, 1, a, p, sig) == Some(Called(a, m.react(p, sig).rc));
      }
      assert Dispatch(m, 2, a, sig) == Some(Settles(m, a, sig));
    }
    forall depth: nat, v | v in Visits(m, depth, a, a.current, sig, false)
      ensures v.sig == sig && !v.entered && (v.handler == a.current || m.parent(a.current) == Some(v.handler))
    {
      QuietVisits(m, depth, a, a.current, sig);
    }
  }

  lemma {:induction false} QuietVisits(m: Machine, depth: nat, a: Active, handler: nat, sig: int)
    requires Quiet(m, a.current, sig) && (handler == a.current || m.parent(a.current) == Some(handler))
    ensures forall v <- Visits(m, depth, a, handler, sig, false) ::
      v.sig == sig && !v.entered && (v.handler == a.current || m.parent(a.current) == Some(v.handler))
    decreases depth
  {
    if 0 < depth && Delegates(m, handler, sig) && m.parent(a.current).Some? {
      QuietVisits(m, depth - 1, a, m.parent(a.current).value, sig);
    }
  }

  // ----- The meaning one would expect of a hierarchy

  /** Every state is numbered above its parent, so parent chains end. */
  ghost predicate Hierarchy(m: Machine) {
    forall s :: m.parent(s).Some? ==> m.parent(s).value < s
  }

  /** As `Call`, but a delegated signal goes to the parent of the handler that delegates it, and so up the chain. */
  ghost function Walk(m: Machine, depth: nat, a: Active, handler: nat, sig: int): Option<Active>
    requires Hierarchy(m)
    decreases depth, handler
  {
    if depth == 0 then None
    else
      match m.react(handler, sig)
      case Handle(_) => Some(a)
      case Transit(t) => Walk(m, depth - 1, a.(history := a.current, current := t), t, SIG_ENTRY)
      case Delegate =>
        match m.parent(handler)
        case None => Some(a)
        case Some(p) => Walk(m, depth, a, p, sig)
  }

  /** Same current and same history state. */
  predicate SameStates(a: Active, b: Active) {
    a.current == b.current && a.history == b.history
  }

  /** In every hierarchy, through any number of nested transitions, the macros mean what walking the parent chain means
      whenever they end: a dispatch that ends moves the instance exactly as the walk does. */
  lemma {:induction false} AgreesWithWalk(m: Machine, depth: nat, a: Active, b: Active, sig: int)
    requires Hierarchy(m) && SameStates(a, b)
    ensures Dispatch(m, depth, a, sig).Some? ==>
      var w := Walk(m, depth, b, b.current, sig);
      w.Some? && SameStates(Dispatch(m, depth, a, sig).value.active, w.value)
    decreases depth
  {
    if Dispatch(m, depth, a, sig).Some? {
      match m.react(a.current, sig)
      case Handle(_) =>
      case Transit(t) => AgreesOnEntry(m, depth, a, b, t);
      case Delegate =>
        if m.parent(a.current).Some? {
          var p := m.parent(a.current).value;
          assert Call(m, depth - 1, a, p, sig).Some?;
          match m.react(p, sig)
          case Handle(_) => assert Call(m, depth - 1, a, p, sig).value.active == a;
          case Transit(t) =>
            AgreesOnEntry(m, depth - 1, a, b, t);
            WalkDeeper(m, depth - 2, depth - 1, b.(history := b.current, current := t), t, SIG_ENTRY);
          case Delegate => ParentLoops(m, depth - 1, a, sig);
        }
    }
  }

  /** The nested dispatch of ENTRY by a transition. */
  lemma {:induction false} AgreesOnEntry(m: Machine, depth: nat, a: Active, b: Active, t: nat)
    requires Hierarchy(m) && SameStates(a, b) && 0 < depth
    ensures
      var a' := a.(history := a.current, current := t);
      var b' := b.(history := b.current, current := t);
      Dispatch(m, depth - 1, a', SIG_ENTRY).Some? ==>
        var w := Walk(m, depth - 1, b', t, SIG_ENTRY);
        w.Some? && SameStates(Dispatch(m, depth - 1, a', SIG_ENTRY).value.active, w.value)
    decreases depth, 0
  {
    var a' := a.(history := a.current, current := t);
    var b' := b.(history := b.current, current := t);
    AgreesWithWalk(m, depth - 1, a', b', SIG_ENTRY);
  }

  /** The transition with which state `s`, or its parent if it delegates, answers a signal. */
  function Target(m: Machine, s: nat, sig: int): Option<nat> {
    match m.react(s, sig)
    case Handle(_) => None
    case Transit(t) => Some(t)
    case Delegate =>
      if m.parent(s).Some? && m.react(m.parent(s).value, sig).Transit? then Some(m.react(m.parent(s).value, sig).target)
      else None
  }

  /** Among the first `depth` states that the event and the ENTRYs of its transitions are dispatched to, beginning with
      `s`, one delegates what it is sent to a parent that delegates it again. */
  predicate Meets(m: Machine, depth: nat, s: nat, sig: int) {
    0 < depth &&
    (DoubleDelegation(m, s, sig) || (Target(m, s, sig).Some? && Meets(m, depth - 1, Target(m, s, sig).value, SIG_ENTRY)))
  }

  lemma {:induction false} MeetsSoNeverEnds(m: Machine, depth: nat, a: Active, sig: int, d: nat)
    requires Meets(m, depth, a.current, sig)
    ensures Dispatch(m, d, a, sig).None?
    decreases depth
  {
    if 0 < d {
      var c := a.current;
      if DoubleDelegation(m, c, sig) {
        ParentLoops(m, d - 1, a, sig);
      } else {
        var a' := a.(history := c, current := Target(m, c, sig).value);
        if m.react(c, sig).Transit? {
          MeetsSoNeverEnds(m, depth - 1, a', SIG_ENTRY, d - 1);
        } else {
          if 1 < d {
            MeetsSoNeverEnds(m, depth - 1, a', SIG_ENTRY, d - 2);
          }
          assert Call(m, d - 1, a, m.parent(c).value, sig).None?;
        }
      }
    }
  }

  /** Where the walk ends without meeting a double delegation the macros end too. Each step of the walk costs them at
      most two nested calls. */
  lemma {:induction false} WalkEndsSoMacrosEnd(m: Machine, depth: nat, a: Active, b: Active, sig: int)
    requires Hierarchy(m) && a.current == b.current && Walk(m, depth, b, b.current, sig).Some?
    requires !Meets(m, depth, a.current, sig)
    ensures Dispatch(m, 2 * depth, a, sig).Some?
    decreases depth
  {
    var c := a.current;
    match m.react(c, sig)
    case Handle(_) =>
    case Transit(t) =>
      var a', b' := a.(history := c, current := t), b.(history := c, current := t);
      WalkEndsSoMacrosEnd(m, depth - 1, a', b', SIG_ENTRY);
      CallDeeper(m, 2 * depth - 2, 2 * depth - 1, a', t, SIG_ENTRY);
    case Delegate =>
      if m.parent(c).Some? {
        var p := m.parent(c).value;
        match m.react(p, sig)
        case Handle(_) => assert Call(m, 2 * depth - 1, a, p, sig).Some?;
        case Transit(t) =>
          var a', b' := a.(history := c, current := t), b.(history := c, current := t);
          assert Walk(m, depth, b, p, sig) == Walk(m, depth - 1, b', t, SIG_ENTRY);
          WalkEndsSoMacrosEnd(m, depth - 1, a', b', SIG_ENTRY);
          assert Call(m, 2 * depth - 1, a, p, sig).Some?;
      }
  }

  /** In every hierarchy the macros end exactly when walking the parent chain ends and its path meets no double
      delegation. */
  lemma MacrosEndExactlyWhenWalkEnds(m: Machine, a: Active, sig: int)
    requires Hierarchy(m)
    ensures Terminates(m, a, sig) <==>
      exists depth: nat :: Walk(m, depth, a, a.current, sig).Some? && !Meets(m, depth, a.current, sig)
    ensures forall depth: nat :: Walk(m, depth, a, a.current, sig).Some? ==>
      (Terminates(m, a, sig) <==> !Meets(m, depth, a.current, sig))
  {
    if Terminates(m, a, sig) {
      var d: nat :| Dispatch(m, d, a, sig).Some?;
      AgreesWithWalk(m, d, a, a, sig);
      forall depth: nat ensures !Meets(m, depth, a.current, sig) {
        if Meets(m, depth, a.current, sig) {
          MeetsSoNeverEnds(m, depth, a, sig, d);
        }
      }
    }
    forall depth: nat | Walk(m, depth, a, a.current, sig).Some? && !Meets(m, depth, a.current, sig)
      ensures Terminates(m, a, sig)
    {
      WalkEndsSoMacrosEnd(m, depth, a, a, sig);
    }
  }

  lemma {:induction false} WalkDeeper(m: Machine, depth: nat, more: nat, a: Active, handler: nat, sig: int)
    requires Hierarchy(m) && depth <= more && Walk(m, depth, a, handler, sig).Some?
    ensures Walk(m, more, a, handler, sig) == Walk(m, depth, a, handler, sig)
    decreases depth, handler
  {
    match m.react(handler, sig)
    case Handle(_) =>
    case Transit(t) => WalkDeeper(m, depth - 1, more - 1, a.(history := a.current, current := t), t, SIG_ENTRY);
    case Delegate =>
      if m.parent(handler).Some? {
        WalkDeeper(m, depth, more, a, m.parent(handler).value, sig);
      }
  }

  /** Neither `s` nor any of its ancestors answers `sig` with a transition. */
  ghost predicate CalmChain(m: Machine, s: nat, sig: int)
    requires Hierarchy(m)
    decreases s
  {
    !m.react(s, sig).Transit? && (m.parent(s).Some? ==> CalmChain(m, m.parent(s).value, sig))
  }

  lemma {:induction false} WalkCalm(m: Machine, a: Active, handler: nat, sig: int)
    requires Hierarchy(m) && CalmChain(m, handler, sig)
    ensures Walk(m, 1, a, handler, sig) == Some(a)
    decreases handler
  {
    if Delegates(m, handler, sig) && m.parent(handler).Some? {
      WalkCalm(m, a, m.parent(handler).value, sig);
    }
  }

  /** Without transitions, in hierarchies of any depth, walking the chain always ends, and the macros end (with the
      same outcome) exactly when the current state and its parent do not both delegate. */
  lemma WalkEndsMacrosMayNot(m: Machine, a: Active, sig: int)
    requires Hierarchy(m) && CalmChain(m, a.current, sig)
    ensures Walk(m, 1, a, a.current, sig) == Some(a)
    ensures Terminates(m, a, sig) <==> !DoubleDelegation(m, a.current, sig)
    ensures Terminates(m, a, sig) ==> SameStates(After(m, a, sig), a)
  {
    WalkCalm(m, a, a.current, sig);
    DelegationEnds(m, a, sig);
    if Terminates(m, a, sig) {
      AfterIs(m, 2, a, sig);
    }
  }

  // ----- The active object

  /** The instance after a sequence of events, each run to completion; `None` once one of them never ends. */
  ghost function Fold(m: Machine, a: Active, sigs: seq<int>): Option<Active> {
    if sigs == [] then Some(a)
    else
      match Fold(m, a, sigs[..|sigs| - 1])
      case None => None
      case Some(b) =>
        var sig := sigs[|sigs| - 1];
        if Terminates(m, b, sig) then Some(After(m, b, sig)) else None
  }

  /** An instance with its message queue, which exists once the dispatcher thread has started. */
  datatype Hosted = Hosted(active: Active, ready: bool, queue: seq<int>)

  /** What can happen to it: the thread starts, somebody posts, the thread takes the next event and dispatches it. */
  datatype Happening = Starts | Posts(sig: int) | Dispatches

  predicate CanPost(capacity: nat, x: Hosted) {
    x.ready && |x.queue| < capacity
  }

  /** `None` once a dispatch never ends. A start after the first and a dispatch without an event change nothing. */
  ghost function Happens(m: Machine, capacity: nat, x: Hosted, h: Happening): Option<Hosted> {
    match h
    case Starts =>
      if x.ready then Some(x)
      else if Terminates(m, x.active, SIG_ENTRY)
      then Some(Hosted(After(m, x.active, SIG_ENTRY), true, x.queue)) else None
    case Posts(sig) => Some(if CanPost(capacity, x) then x.(queue := x.queue + [sig]) else x)
    case Dispatches =>
      if !x.ready || x.queue == [] then Some(x)
      else if Terminates(m, x.active, x.queue[0])
      then Some(x.(active := After(m, x.active, x.queue[0]), queue := x.queue[1..])) else None
  }

  class ActiveObject {
    const machine: Machine
    const capacity: nat
    var current: nat
    var history: nat
    var error: int
    var ready: bool  // the message queue exists
    var queue: seq<int>

    ghost function View(): Active
      reads this
    {
      Active(current, history, error)
    }

    ghost function State(): Hosted
      reads this
    {
      Hosted(View(), ready, queue)
    }

    constructor (machine: Machine, initial: nat, capacity: nat)
      ensures State() == Hosted(Active(initial, initial, 0), false, [])
      ensures this.machine == machine && this.capacity == capacity
    {
      this.machine, this.capacity := machine, capacity;
      current, history, error := initial, initial, 0;
      ready, queue := false, [];
    }

    /** A handler with the macros it is written in. `depth` is how deep the calls nest. */
    method CallHandler(handler: nat, sig: int, ghost depth: nat) returns (rc: int)
      requires Call(machine, depth, View(), handler, sig).Some?
      modifies this`current, this`history, this`error
      ensures var c := Call(machine, depth, old(View()), handler, sig).value; View() == c.active && rc == c.rc
      decreases depth
    {
      match machine.react(handler, sig)
      case Handle(r) => return r;
      case Transit(t) =>
        history := current;
        current := t;
        error := CallHandler(t, SIG_ENTRY, depth - 1);
        return error;
      case Delegate =>
        var p := machine.parent(current);
        if p.Some? {
          error := CallHandler(p.value, sig, depth - 1);
        }
        return 0;
    }

    /** The start of the dispatcher thread: the initial state's ENTRY, then the message queue. */
    method Start()
      requires !ready && Terminates(machine, View(), SIG_ENTRY)
      modifies this`current, this`history, this`error, this`ready
      ensures Some(State()) == Happens(machine, capacity, old(State()), Starts)
    {
      ghost var depth :| Dispatch(machine, depth, View(), SIG_ENTRY).Some?;
      AfterIs(machine, depth, View(), SIG_ENTRY);
      var rc := CallHandler(current, SIG_ENTRY, depth);
      ready := true;
    }

    /** A non-blocking post: it fails before the thread has started and while the queue is full. */
    method Post(sig: int) returns (rc: int)
      modifies this`queue
      ensures Some(State()) == Happens(machine, capacity, old(State()), Posts(sig))
      ensures rc == 0 <==> CanPost(capacity, old(State()))
    {
      if !ready || |queue| >= capacity {
        return -1;
      }
      queue := queue + [sig];
      return 0;
    }

    /** One turn of the dispatcher loop. The event goes to the state that is current when it is taken from the queue. */
    method DispatchNext()
      requires ready && queue != [] && Terminates(machine, View(), queue[0])
      modifies this`current, this`history, this`error, this`queue
      ensures Some(State()) == Happens(machine, capacity, old(State()), Dispatches)
    {
      var sig := queue[0];
      ghost var depth :| Dispatch(machine, depth, View(), sig).Some?;
      AfterIs(machine, depth, View(), sig);
      queue := queue[1..];
      var rc := CallHandler(current, sig, depth);
    }
  }

  // ----- Runs of the active object

  ghost function Happened(m: Machine, capacity: nat, x: Hosted, hs: seq<Happening>): Option<Hosted>
    decreases |hs|
  {
    if hs == [] then Some(x)
    else
      match Happens(m, capacity, x, hs[0])
      case None => None
      case Some(y) => Happened(m, capacity, y, hs[1..])
  }

  function Added(capacity: nat, x: Hosted, h: Happening): seq<int> {
    if h.Posts? && CanPost(capacity, x) then [h.sig] else []
  }

  /** The events whose posts succeed in a run, in the order of the posts. */
  ghost function Posted(m: Machine, capacity: nat, x: Hosted, hs: seq<Happening>): seq<int>
    decreases |hs|
  {
    if hs == [] then []
    else
      Added(capacity, x, hs[0]) +
      match Happens(m, capacity, x, hs[0])
      case None => []
      case Some(y) => Posted(m, capacity, y, hs[1..])
  }

  /** How many events a run dispatches. */
  ghost function Turns(m: Machine, capacity: nat, x: Hosted, hs: seq<Happening>): nat
    decreases |hs|
  {
    if hs == [] then 0
    else
      (if hs[0].Dispatches? && x.ready && x.queue != [] then 1 else 0) +
      match Happens(m, capacity, x, hs[0])
      case None => 0
      case Some(y) => Turns(m, capacity, y, hs[1..])
  }

  lemma {:induction false} FoldOneMore(m: Machine, a: Active, sig: int, rest: seq<int>)
    requires Terminates(m, a, sig)
    ensures Fold(m, a, [sig] + rest) == Fold(m, After(m, a, sig), rest)
    decreases |rest|
  {
    var all := [sig] + rest;
    if rest == [] {
      assert all == [sig] && [sig][..0] == [];
    } else {
      assert all[..|all| - 1] == [sig] + rest[..|rest| - 1];
      FoldOneMore(m, a, sig, rest[..|rest| - 1]);
    }
  }

  /** Of `events`, the first `k` have been run to completion from `a` on, leading to `y`, and the rest are queued. */
  ghost predicate WorkedOff(m: Machine, a: Active, events: seq<int>, k: nat, y: Hosted) {
    k <= |events| && y.queue == events[k..] && Fold(m, a, events[..k]) == Some(y.active)
  }

  lemma OneMoreWorkedOff(m: Machine, a: Active, sig: int, events: seq<int>, k: nat, y: Hosted)
    requires Terminates(m, a, sig) && WorkedOff(m, After(m, a, sig), events, k, y)
    ensures WorkedOff(m, a, [sig] + events, k + 1, y)
  {
    assert ([sig] + events)[..k + 1] == [sig] + events[..k];
    assert ([sig] + events)[k + 1..] == events[k..];
    FoldOneMore(m, a, sig, events[..k]);
  }

  /** A dispatch takes the oldest event, a post adds one at the end. */
  lemma OneHappening(m: Machine, capacity: nat, x: Hosted, h: Happening)
    requires x.ready && Happens(m, capacity, x, h).Some?
    ensures var z := Happens(m, capacity, x, h).value;
      && z.ready
      && (if h.Dispatches? && x.queue != []
          then Added(capacity, x, h) == [] && x.queue == [x.queue[0]] + z.queue
               && Terminates(m, x.active, x.queue[0]) && z.active == After(m, x.active, x.queue[0])
          else x.queue + Added(capacity, x, h) == z.queue && z.active == x.active)
  {
  }

  lemma {:induction false} RunningIsFold(m: Machine, capacity: nat, x: Hosted, hs: seq<Happening>)
    requires x.ready && Happened(m, capacity, x, hs).Some?
    ensures WorkedOff(m, x.active, x.queue + Posted(m, capacity, x, hs), Turns(m, capacity, x, hs),
                      Happened(m, capacity, x, hs).value)
    decreases |hs|
  {
    if hs == [] {
      assert x.queue + [] == x.queue;
    } else {
      var z := Happens(m, capacity, x, hs[0]).value;
      OneHappening(m, capacity, x, hs[0]);
      RunningIsFold(m, capacity, z, hs[1..]);
      MoreWorkedOff(m, x, z, hs[0], Added(capacity, x, hs[0]), Posted(m, capacity, z, hs[1..]),
                    Turns(m, capacity, z, hs[1..]), Happened(m, capacity, z, hs[1..]).value);
    }
  }

  lemma MoreWorkedOff(m: Machine, x: Hosted, z: Hosted, h: Happening, added: seq<int>, later: seq<int>, k: nat, y: Hosted)
    requires WorkedOff(m, z.active, z.queue + later, k, y)
    requires if h.Dispatches? && x.queue != []
             then added == [] && x.queue == [x.queue[0]] + z.queue
                  && Terminates(m, x.active, x.queue[0]) && z.active == After(m, x.active, x.queue[0])
             else x.queue + added == z.queue && z.active == x.active
    ensures WorkedOff(m, x.active, x.queue + (added + later), if h.Dispatches? && x.queue != [] then 1 + k else k, y)
  {
    if h.Dispatches? && x.queue != [] {
      assert x.queue + (added + later) == [x.queue[0]] + (z.queue + later);
      OneMoreWorkedOff(m, x.active, x.queue[0], z.queue + later, k, y);
    } else {
      assert x.queue + (added + later) == z.queue + later;
    }
  }

  /** The active object is a fold. Over every run of posts and dispatches after its start: the events are dispatched once
      each, in the order of their successful posts, and after k dispatches the instance is what running the first k of them
      to completion one after another makes of it; the rest are in the queue. */
  lemma ActiveObjectIsFold(m: Machine, initial: nat, capacity: nat, hs: seq<Happening>)
    requires var x := Hosted(Active(initial, initial, 0), false, []);
      && Terminates(m, x.active, SIG_ENTRY)
      && Happened(m, capacity, x, [Starts] + hs).Some?
    ensures var x := Hosted(Active(initial, initial, 0), false, []);
      var y := Happened(m, capacity, x, [Starts] + hs).value;
      var events, k := Posted(m, capacity, x, [Starts] + hs), Turns(m, capacity, x, [Starts] + hs);
      && k <= |events| && y.queue == events[k..]
      && Fold(m, After(m, x.active, SIG_ENTRY), events[..k]) == Some(y.active)
  {
    var x := Hosted(Active(initial, initial, 0), false, []);
    assert ([Starts] + hs)[1..] == hs;
    RunningIsFold(m, capacity, Hosted(After(m, x.active, SIG_ENTRY), true, []), hs);
  }
}
