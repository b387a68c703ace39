/** How deep the macros can nest: on a machine with `n` states a dispatch either ends within `2n + 4` nested handler
    calls or never ends, whatever the handlers do. */
module HsmStack {
  import opened Hsm

  /** Where the dispatch of a signal to the current state `c` leads: to an end, into the loop of a double delegation,
      or into a transition made by the handler at the given nesting. */
  datatype Lead = Ends | Loops | Goes(calls: nat, target: nat)

  function LeadOf(m: Machine, c: nat, sig: int): Lead {
    match m.react(c, sig)
    case Handle(_) => Ends
    case Transit(u) => Goes(1, u)
    case Delegate =>
      match m.parent(c)
      case None => Ends
      case Some(p) =>
        match m.react(p, sig)
        case Handle(_) => Ends
        case Transit(u) => Goes(2, u)
        case Delegate => Loops
  }

  /** Entering state `t` ends within `depth` nested calls. */
  predicate Enters(m: Machine, depth: nat, t: nat) {
    Dispatch(m, depth, Active(t, t, 0), SIG_ENTRY).Some?
  }

  /** Whether a call ends depends on the current state, not on history or error. */
  lemma {:induction false} EndsAlike(m: Machine, depth: nat, a: Active, b: Active, handler: nat, sig: int)
    requires a.current == b.current
    ensures Call(m, depth, a, handler, sig).Some? <==> Call(m, depth, b, handler, sig).Some?
    decreases depth
  {
    if 0 < depth {
      match m.react(handler, sig)
      case Handle(_) =>
      case Transit(t) =>
        EndsAlike(m, depth - 1, a.(history := a.current, current := t), b.(history := b.current, current := t),
                  t, SIG_ENTRY);
      case Delegate =>
        if m.parent(a.current).Some? {
          EndsAlike(m, depth - 1, a, b, m.parent(a.current).value, sig);
        }
    }
  }

  lemma DispatchFollowsLead(m: Machine, depth: nat, a: Active, sig: int)
    requires 2 <= depth
    ensures Dispatch(m, depth, a, sig).Some? <==>
      match LeadOf(m, a.current, sig)
      case Ends => true
      case Loops => false
      case Goes(k, u) => Enters(m, depth - k, u)
  {
    match LeadOf(m, a.current, sig)
    case Ends =>
      if Delegates(m, a.current, sig) && m.parent(a.current).Some? {
        assert Call(m, depth - 1, a, m.parent(a.current).value, sig).Some?;
      }
    case Loops => ParentLoops(m, depth - 1, a, sig);
    case Goes(k, u) =>
      EndsAlike(m, depth - k, a.(history := a.current, current := u), Active(u, u, 0), u, SIG_ENTRY);
      if k == 2 {
        var p := m.parent(a.current).value;
        assert Call(m, depth - 1, a, p, sig).Some? <==> Enters(m, depth - 2, u);
      }
  }

  // ----- The states whose entry ends within a given depth

  ghost predicate Within(m: Machine, n: nat) {
    forall s: nat, sig :: s < n ==>
      && (m.react(s, sig).Transit? ==> m.react(s, sig).target < n)
      && (m.parent(s).Some? ==> m.parent(s).value < n)
  }

  ghost function Entered(m: Machine, n: nat, depth: nat): set<nat> {
    set t: nat | t < n && Enters(m, depth, t)
  }

  lemma EnteredGrows(m: Machine, n: nat, depth: nat, more: nat)
    requires depth <= more
    ensures Entered(m, n, depth) <= Entered(m, n, more)
  {
    forall t: nat | t < n && Enters(m, depth, t) ensures Enters(m, more, t) {
      CallDeeper(m, depth, more, Active(t, t, 0), t, SIG_ENTRY);
    }
  }

  lemma LeadInside(m: Machine, n: nat, c: nat, sig: int)
    requires Within(m, n) && c < n && LeadOf(m, c, sig).Goes?
    ensures LeadOf(m, c, sig).target < n && 1 <= LeadOf(m, c, sig).calls <= 2
  {
  }

  /** Two more calls that let in no new state mean that one more does not either. */
  lemma NoneLater(m: Machine, n: nat, d: nat)
    requires Within(m, n) && 2 <= d && Entered(m, n, d) == Entered(m, n, d + 2)
    ensures Entered(m, n, d + 1) == Entered(m, n, d) && Entered(m, n, d + 3) == Entered(m, n, d)
  {
    EnteredGrows(m, n, d, d + 1);
    EnteredGrows(m, n, d + 1, d + 2);
    EnteredGrows(m, n, d + 2, d + 3);
    var now, later := Entered(m, n, d + 2), Entered(m, n, d + 3);
    forall t | t in later ensures t in now {
      var a := Active(t, t, 0);
      DispatchFollowsLead(m, d + 3, a, SIG_ENTRY);
      DispatchFollowsLead(m, d + 2, a, SIG_ENTRY);
      if LeadOf(m, t, SIG_ENTRY).Goes? {
        LeadInside(m, n, t, SIG_ENTRY);
        var k, u := LeadOf(m, t, SIG_ENTRY).calls, LeadOf(m, t, SIG_ENTRY).target;
        assert u in Entered(m, n, d + 3 - k);
        assert u in Entered(m, n, d);
        EnteredGrows(m, n, d, d + 2 - k);
        assert u in Entered(m, n, d + 2 - k);
      }
    }
  }

  lemma {:induction false} NoneEver(m: Machine, n: nat, d: nat, e: nat)
    requires Within(m, n) && 2 <= d <= e && Entered(m, n, d) == Entered(m, n, d + 2)
    ensures Entered(m, n, e) == Entered(m, n, d)
    decreases e - d
  {
    if d < e {
      NoneLater(m, n, d);
      NoneEver(m, n, d + 1, e);
    }
  }

  lemma {:induction false} AtMost(xs: set<nat>, n: nat)
    requires forall x <- xs :: x < n
    ensures |xs| <= n
  {
    if n == 0 {
      assert xs == {};
    } else {
      AtMost(xs - {n - 1}, n - 1);
      if n - 1 in xs {
        assert |xs| == |xs - {n - 1}| + 1;
      } else {
        assert xs - {n - 1} == xs;
      }
    }
  }

  lemma Smaller(xs: set<nat>, ys: set<nat>)
    requires xs <= ys && xs != ys
    ensures |xs| < |ys|
  {
    assert ys == xs + (ys - xs);
    assert ys - xs != {};
  }

  lemma {:induction false} FindStable(m: Machine, n: nat, d: nat) returns (s: nat)
    requires Within(m, n) && 2 <= d
    ensures d <= s <= d + 2 * (n - |Entered(m, n, d)|) && Entered(m, n, s) == Entered(m, n, s + 2)
    decreases n - |Entered(m, n, d)|
  {
    AtMost(Entered(m, n, d), n);
    s := d;
    if Entered(m, n, d) != Entered(m, n, d + 2) {
      EnteredGrows(m, n, d, d + 2);
      Smaller(Entered(m, n, d), Entered(m, n, d + 2));
      AtMost(Entered(m, n, d + 2), n);
      s := FindStable(m, n, d + 2);
    }
  }

  /** If entering `t` ever ends, it ends within `2n + 2` nested calls. */
  lemma EntryBound(m: Machine, n: nat, depth: nat, t: nat)
    requires Within(m, n) && t < n && Enters(m, depth, t)
    ensures Enters(m, 2 * n + 2, t)
  {
    var s := FindStable(m, n, 2);
    var far := if depth < s then s else depth;
    EnteredGrows(m, n, depth, far);
    NoneEver(m, n, s, far);
    EnteredGrows(m, n, s, 2 * n + 2);
    assert t in Entered(m, n, depth);
    assert t in Entered(m, n, 2 * n + 2);
  }

  /** The stack is bounded or the dispatch never ends: for every machine with `n` states, every handler table, every
      current state and every signal. */
  lemma StackBound(m: Machine, n: nat, a: Active, sig: int)
    requires Within(m, n) && a.current < n
    ensures Terminates(m, a, sig) <==> Dispatch(m, 2 * n + 4, a, sig).Some?
  {
    if Terminates(m, a, sig) {
      var some: nat :| Dispatch(m, some, a, sig).Some?;
      var depth := some + 4;
      CallDeeper(m, some, depth, a, a.current, sig);
      DispatchFollowsLead(m, depth, a, sig);
      DispatchFollowsLead(m, 2 * n + 4, a, sig);
      if LeadOf(m, a.current, sig).Goes? {
        LeadInside(m, n, a.current, sig);
        var k, u := LeadOf(m, a.current, sig).calls, LeadOf(m, a.current, sig).target;
        EntryBound(m, n, depth - k, u);
        CallDeeper(m, 2 * n + 2, 2 * n + 4 - k, Active(u, u, 0), u, SIG_ENTRY);
      }
    }
  }
}
