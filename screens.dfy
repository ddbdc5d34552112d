/**
  Which screen the activity log shows: the current screen id, the stack of
  screens to return to, and the deferred rebuild of all screens that the
  main loop performs after a two-step countdown.
 */
module Screens {

  /** The screens the application can show. */
  datatype ScreenID = AllActivity | CustomTheme | Details | RecentActivity | Settings | Update | UserSelect

  // ---------------------------------------------------------------------
  // Screen stack (setScreen / pushScreen / popScreen)
  // ---------------------------------------------------------------------

  /** The current screen and the screens to return to; the top of the
      stack is the last element. */
  datatype Navigation = Navigation(screen: ScreenID, stack: seq<ScreenID>)

  /** One navigation call. */
  datatype NavOp = Push | Pop | SetTo(target: ScreenID)

  /** The effect of one navigation call: `SetTo` shows a screen, `Push`
      remembers the current screen, `Pop` returns to the remembered one
      and does nothing when there is none. */
  function Apply(n: Navigation, op: NavOp): (r: Navigation)
  {
    match op
    case SetTo(s) => n.(screen := s)
    case Push => n.(stack := n.stack + [n.screen])
    case Pop =>
      if n.stack == [] then n
      else Navigation(n.stack[|n.stack| - 1], n.stack[..|n.stack| - 1])
  }

  /** The navigation state after the calls `ops`, in order. */
  function Replay(n: Navigation, ops: seq<NavOp>): (r: Navigation)
    decreases |ops|
  {
    if ops == [] then n else Apply(Replay(n, ops[..|ops| - 1]), ops[|ops| - 1])
  }

  /** Pushes minus pops in `ops`. */
  function Depth(ops: seq<NavOp>): (d: int)
    decreases |ops|
  {
    if ops == [] then 0
    else Depth(ops[..|ops| - 1]) + (match ops[|ops| - 1] case Push => 1 case Pop => -1 case SetTo(_) => 0)
  }

  /** No prefix of `ops` pops more screens than it pushed. */
  predicate NeverUnderflows(ops: seq<NavOp>)
  {
    forall k :: 0 <= k <= |ops| ==> Depth(ops[..k]) >= 0
  }

  /** Pushing and then popping restores both the screen and the stack. */
  lemma PushPopRestores(n: Navigation)
    ensures Apply(Apply(n, Push), Pop) == n
  {
  }

  /** Replaying two call sequences one after the other is replaying their
      concatenation. */
  lemma {:induction false} ReplayAppend(n: Navigation, a: seq<NavOp>, b: seq<NavOp>)
    ensures Replay(n, a + b) == Replay(Replay(n, a), b)
    decreases |b|
  {
    if b == [] {
      assert a + b == a;
    } else {
      var b' := b[..|b| - 1];
      assert (a + b)[..|a + b| - 1] == a + b';
      assert (a + b)[|a + b| - 1] == b[|b| - 1];
      ReplayAppend(n, a, b');
    }
  }

  /** Calls that never pop more than they push leave the stack they started
      on untouched underneath, with as many new entries as their depth. */
  lemma {:induction false} ReplayKeepsBase(n: Navigation, ops: seq<NavOp>)
    requires NeverUnderflows(ops)
    ensures |Replay(n, ops).stack| == |n.stack| + Depth(ops)
    ensures n.stack <= Replay(n, ops).stack
    decreases |ops|
  {
    if ops != [] {
      var ops' := ops[..|ops| - 1];
      forall k | 0 <= k <= |ops'| ensures Depth(ops'[..k]) >= 0 {
        assert ops'[..k] == ops[..k];
      }
      ReplayKeepsBase(n, ops');
      assert ops[..|ops|] == ops;
      var m := Replay(n, ops');
      match ops[|ops| - 1]
      case Push =>
        assert n.stack <= m.stack + [m.screen];
      case Pop =>
        assert n.stack <= m.stack[..|m.stack| - 1];
      case SetTo(_) =>
    }
  }

  /** A visit: push the current screen, navigate in any way that returns to
      the pushed level, then pop. Afterwards the screen and the stack are
      exactly as before the visit. */
  lemma VisitRestores(n: Navigation, inner: seq<NavOp>)
    requires NeverUnderflows(inner) && Depth(inner) == 0
    ensures Replay(n, [Push] + inner + [Pop]) == n
  {
    var m := Apply(n, Push);
    assert Replay(n, [Push]) == m by {
      assert [Push][..0] == [];
    }
    ReplayAppend(n, [Push], inner);
    ReplayKeepsBase(m, inner);
    var m' := Replay(m, inner);
    assert m'.stack == n.stack + [n.screen];
    ReplayAppend(n, [Push] + inner, [Pop]);
    assert Replay(m', [Pop]) == Apply(m', Pop) by {
      assert [Pop][..0] == [];
    }
  }

  // ---------------------------------------------------------------------
  // Deferred rebuild of the screens (reinitScreens / run)
  // ---------------------------------------------------------------------

  /** The rebuild countdown: `Wait` after a request, `True` one loop
      iteration later, `False` when nothing is pending. */
  datatype ReinitState = False | Wait | True

  /** The outcome of one main-loop iteration: the next state and whether
      the screens were recreated in it. */
  datatype Tick = Tick(next: ReinitState, rebuild: bool)

  /** One main-loop iteration of the countdown. */
  function ReinitStep(s: ReinitState): (t: Tick)
  {
    match s
    case Wait => Tick(True, false)
    case True => Tick(False, true)
    case False => Tick(False, false)
  }

  /** The countdown state after some iterations and the number of times
      the screens were recreated during them. */
  datatype Countdown = Countdown(state: ReinitState, rebuilds: nat)

  /** The countdown after `n` main-loop iterations starting from `s`. */
  function AfterIterations(s: ReinitState, n: nat): (c: Countdown)
    decreases n
  {
    if n == 0 then Countdown(s, 0)
    else
      var c := AfterIterations(s, n - 1);
      var t := ReinitStep(c.state);
      Countdown(t.next, c.rebuilds + if t.rebuild then 1 else 0)
  }

  /** Screens still to be recreated from state `s`: one unless idle. */
  function Pending(s: ReinitState): nat
  {
    if s == False then 0 else 1
  }

  /** With no request pending, the main loop never recreates the screens. */
  lemma {:induction false} IdleStaysIdle(n: nat)
    ensures AfterIterations(False, n) == Countdown(False, 0)
  {
    if n > 0 {
      IdleStaysIdle(n - 1);
    }
  }

  /** From any state, two iterations settle the countdown; a pending
      request has then been served by exactly one rebuild, and the
      countdown stays idle afterwards. */
  lemma {:induction false} CountdownSettles(s: ReinitState, n: nat)
    requires n >= 2
    ensures AfterIterations(s, n) == Countdown(False, Pending(s))
  {
    if n > 2 {
      CountdownSettles(s, n - 1);
    }
  }

  /** A rebuild request is served on the second iteration after it and not
      before. */
  lemma RequestServedOnSecondIteration(n: nat)
    ensures AfterIterations(Wait, n).rebuilds == if n >= 2 then 1 else 0
    ensures AfterIterations(Wait, n).state == if n == 0 then Wait else if n == 1 then True else False
  {
  }
}
