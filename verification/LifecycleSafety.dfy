/** What every run of the life-cycle machine keeps. */
module LifecycleSafety {
  import opened Wrappers
  import opened Lifecycle

  predicate Active(phase: Phase) {
    phase != FatalSet
  }

  /** The state that a monitor in this phase has set. */
  function StateOf(phase: Phase): FSMState
    requires Active(phase)
  {
    match phase
    case Spawned => Running
    case Watching => Running
    case Killing => Stopping
    case RetrySet => RetryWait
    case Delaying => RetryWait
  }

  predicate MayLive(phase: Phase) {
    phase == Spawned || phase == Watching || phase == Killing
  }

  /** Between its Add and its Done. */
  predicate InGroups(phase: Phase) {
    phase == Watching || phase == Killing || phase == FatalSet || phase == RetrySet
  }

  ghost function Counted(s: Proc): set<nat> {
    set m | m in s.monitors && InGroups(s.monitors[m])
  }

  ghost predicate MonitorsAgree(s: Proc) {
    && (forall m | m in s.monitors :: m < s.next)
    && (forall a, b | a in s.monitors && b in s.monitors && Active(s.monitors[a]) && Active(s.monitors[b]) :: a == b)
    && (forall m | m in s.monitors && Active(s.monitors[m]) :: s.state == StateOf(s.monitors[m]))
    && (s.state != Stopped && s.state != Fatal ==> exists m :: m in s.monitors && Active(s.monitors[m]))
  }

  ghost predicate ChildrenWatched(s: Proc) {
    forall m | m in s.live :: m in s.monitors && MayLive(s.monitors[m])
  }

  /** A monitor never follows a command pointer that is nil or another's. */
  ghost predicate CommandsMatch(s: Proc) {
    forall m | m in s.monitors && Active(s.monitors[m]) ::
      s.cmd == if MayLive(s.monitors[m]) then Some(m) else None
  }

  ghost predicate RetriesBounded(s: Proc, retries: int) {
    && 0 <= s.retryLeft <= retries + 1
    && (forall m | m in s.monitors && s.monitors[m] == RetrySet :: s.retryLeft >= 1)
    && (s.retryLeft == retries + 1 ==> exists m :: m in s.monitors && s.monitors[m] == RetrySet)
  }

  ghost predicate Inv(s: Proc, retries: int) {
    && MonitorsAgree(s)
    && ChildrenWatched(s)
    && CommandsMatch(s)
    && RetriesBounded(s, retries)
    && s.stopWg == |Counted(s)|
  }

  lemma InitInv(retries: int)
    requires retries >= 0
    ensures Inv(Init(retries), retries)
  {
    assert Counted(Init(retries)) == {};
  }

  // ----- starting -----

  /** No monitor is active and no child lives; the state is about to change. */
  ghost predicate Quiet(s: Proc, retries: int) {
    && (forall m | m in s.monitors :: m < s.next && !Active(s.monitors[m]))
    && s.live == {}
    && 0 <= s.retryLeft <= retries
    && s.stopWg == |Counted(s)|
  }

  lemma IdleIsQuiet(s: Proc, retries: int)
    requires Inv(s, retries) && (s.state == Stopped || s.state == Fatal)
    ensures Quiet(s, retries)
  {}

  lemma StartKeepsInv(s: Proc, ok: bool, retries: int)
    requires Quiet(s, retries)
    ensures Inv(StartCommand(s, ok), retries)
  {
    var t := StartCommand(s, ok);
    assert s.next !in s.monitors;
    assert Counted(t) == Counted(s);
    if ok {
      assert s.next in t.monitors && Active(t.monitors[s.next]);
    }
  }

  // ----- the monitor's steps -----

  /** Replacing the phase of the active monitor m, and the state with it. */
  lemma MoveKeepsInv(s: Proc, t: Proc, m: nat, phase: Phase, retries: int)
    requires Inv(s, retries) && m in s.monitors && Active(s.monitors[m])
    requires t.monitors == s.monitors[m := phase] && t.next == s.next
    requires t.state == if Active(phase) then StateOf(phase) else Fatal
    requires Active(phase) ==> t.cmd == if MayLive(phase) then Some(m) else None
    requires t.live == s.live && (m in s.live ==> MayLive(phase))
    requires RetriesBounded(t, retries)
    requires t.stopWg == s.stopWg + (if InGroups(phase) then 1 else 0) - (if InGroups(s.monitors[m]) then 1 else 0)
    ensures Inv(t, retries)
  {
    MoveCount(s, t, m, phase);
    hide Counted, StateOf, InGroups;
    if Active(phase) { assert m in t.monitors && Active(t.monitors[m]); }
  }

  lemma MoveCount(s: Proc, t: Proc, m: nat, phase: Phase)
    requires m in s.monitors && t.monitors == s.monitors[m := phase]
    ensures |Counted(t)| == |Counted(s)| + (if InGroups(phase) then 1 else 0) - (if InGroups(s.monitors[m]) then 1 else 0)
  {
    if InGroups(phase) && !InGroups(s.monitors[m]) {
      assert Counted(t) == Counted(s) + {m};
    } else if !InGroups(phase) && InGroups(s.monitors[m]) {
      assert Counted(t) == Counted(s) - {m};
    } else {
      assert Counted(t) == Counted(s);
    }
  }

  /** The goroutine of m ends, leaving the given state. */
  lemma EndKeepsInv(s: Proc, t: Proc, m: nat, retries: int)
    requires Inv(s, retries) && m in s.monitors && m !in s.live && s.monitors[m] != RetrySet
    requires t.monitors == Without(s.monitors, m) && t.next == s.next && t.live == s.live
    requires t.retryLeft == s.retryLeft
    requires if Active(s.monitors[m]) then t.state == Stopped else t.state == s.state && t.cmd == s.cmd
    requires t.stopWg == s.stopWg - (if InGroups(s.monitors[m]) then 1 else 0)
    ensures Inv(t, retries)
  {
    if InGroups(s.monitors[m]) {
      assert Counted(t) == Counted(s) - {m};
    } else {
      assert Counted(t) == Counted(s);
    }
    if t.state != Stopped && t.state != Fatal {
      var k :| k in s.monitors && Active(s.monitors[k]);
      assert k in t.monitors && Active(t.monitors[k]);
    }
    if s.retryLeft == retries + 1 {
      var k :| k in s.monitors && s.monitors[k] == RetrySet;
      assert k in t.monitors && t.monitors[k] == RetrySet;
    }
  }

  lemma SeeExitKeepsInv(s: Proc, m: nat, lived: Lifetime, retries: int)
    requires Inv(s, retries) && At(s, m, Watching) && m !in s.live && retries >= 0
    ensures Inv(SeeExit(s, m, lived, retries), retries)
  {
    var t := SeeExit(s, m, lived, retries);
    assert s.retryLeft <= retries;
    assert m in t.monitors;
    MoveKeepsInv(s, t, m, t.monitors[m], retries);
  }

  /** Steps that touch only the counts of waiting callers. */
  lemma SameCore(s: Proc, t: Proc, retries: int)
    requires Inv(s, retries)
    requires t.state == s.state && t.cmd == s.cmd && t.retryLeft == s.retryLeft && t.live == s.live
    requires t.monitors == s.monitors && t.stopWg == s.stopWg && t.next == s.next
    ensures Inv(t, retries)
  {
    assert Counted(t) == Counted(s);
  }

  lemma BeginStopKeepsInv(s: Proc, m: nat, retries: int)
    requires Inv(s, retries) && (At(s, m, Watching) || At(s, m, Delaying))
    ensures Inv(BeginStop(s, m), retries)
  {
    var t := BeginStop(s, m);
    if At(s, m, Watching) {
      MoveKeepsInv(s, t, m, Killing, retries);
    } else {
      EndKeepsInv(s, t, m, retries);
    }
  }

  lemma LeavesGroupsKeepsInv(s: Proc, m: nat, retries: int)
    requires Inv(s, retries) && Enabled(s, LeavesGroups(m))
    ensures Inv(Apply(s, LeavesGroups(m), retries), retries)
  {
    var t := Apply(s, LeavesGroups(m), retries);
    if s.monitors[m] == FatalSet {
      EndKeepsInv(s, t, m, retries);
    } else {
      forall k | k in t.monitors ensures t.monitors[k] != RetrySet {
        if k != m { assert Active(s.monitors[m]); }
      }
      MoveKeepsInv(s, t, m, Delaying, retries);
    }
  }

  lemma TimerFiresKeepsInv(s: Proc, m: nat, ok: bool, retries: int)
    requires Inv(s, retries) && At(s, m, Delaying)
    ensures Inv(Apply(s, TimerFires(m, ok), retries), retries)
  {
    var q := s.(monitors := Without(s.monitors, m));
    assert Counted(q) == Counted(s);
    StartKeepsInv(q, ok, retries);
  }

  lemma ChildExitsKeepsInv(s: Proc, m: nat, retries: int)
    requires Inv(s, retries)
    ensures Inv(s.(live := s.live - {m}), retries)
  {
    assert Counted(s.(live := s.live - {m})) == Counted(s);
  }

  /** A start handler may run late: another caller can have started the process
      since the state was read. */
  predicate RunsInTime(s: Proc, step: Step) {
    step.RunStart? ==> s.state == Stopped || s.state == Fatal
  }

  lemma TimelyStepKeepsInv(s: Proc, step: Step, retries: int)
    requires retries >= 0 && Inv(s, retries) && Enabled(s, step) && RunsInTime(s, step)
    ensures Inv(Apply(s, step, retries), retries)
  {
    hide Inv;
    var t := Apply(s, step, retries);
    match step
    case RunStart(FreshStart, ok) =>
      IdleIsQuiet(s, retries);
      QuietRestart(s, retries);
      StartKeepsInv(s.(freshStarts := s.freshStarts - 1, retryLeft := retries), ok, retries);
    case RunStart(PlainStart, ok) =>
      IdleIsQuiet(s, retries);
      QuietRestart(s, retries);
      StartKeepsInv(s.(plainStarts := s.plainStarts - 1), ok, retries);
    case AddsToGroups(m) => AddKeepsInv(s, m, retries);
    case ChildExits(m) => ChildExitsKeepsInv(s, m, retries);
    case SeesExit(m, lived) => SeeExitKeepsInv(s, m, lived, retries);
    case LeavesGroups(m) => LeavesGroupsKeepsInv(s, m, retries);
    case TimerFires(m, ok) => TimerFiresKeepsInv(s, m, ok, retries);
    case TakesStop(m, ofRestart) =>
      var u := if ofRestart then s.(restartSenders := s.restartSenders - 1, restartWaits := s.restartWaits + 1)
               else s.(senders := s.senders - 1);
      SameCore(s, u, retries);
      BeginStopKeepsInv(u, m, retries);
    case FinishesStop(m) => FinishKeepsInv(s, m, retries);
    case _ => SameCore(s, t, retries);
  }

  lemma QuietRestart(s: Proc, retries: int)
    requires Quiet(s, retries) && s.freshStarts >= 0
    ensures s.freshStarts > 0 ==> Quiet(s.(freshStarts := s.freshStarts - 1, retryLeft := retries), retries)
    ensures s.plainStarts > 0 ==> Quiet(s.(plainStarts := s.plainStarts - 1), retries)
  {
    if s.freshStarts > 0 {
      assert Counted(s.(freshStarts := s.freshStarts - 1, retryLeft := retries)) == Counted(s);
    }
    if s.plainStarts > 0 {
      assert Counted(s.(plainStarts := s.plainStarts - 1)) == Counted(s);
    }
  }

  lemma AddKeepsInv(s: Proc, m: nat, retries: int)
    requires Inv(s, retries) && At(s, m, Spawned)
    ensures Inv(Apply(s, AddsToGroups(m), retries), retries)
  {
    MoveKeepsInv(s, Apply(s, AddsToGroups(m), retries), m, Watching, retries);
  }

  lemma FinishKeepsInv(s: Proc, m: nat, retries: int)
    requires Inv(s, retries) && At(s, m, Killing) && m !in s.live
    ensures Inv(Apply(s, FinishesStop(m), retries), retries)
  {
    EndKeepsInv(s, Apply(s, FinishesStop(m), retries), m, retries);
  }

  /** The proviso is exact: a start handler keeps the invariant if and only if
      the process is still stopped or failed when it runs. */
  lemma LateStartBreaks(s: Proc, handler: Handler, ok: bool, retries: int)
    requires retries >= 0 && Inv(s, retries) && Enabled(s, RunStart(handler, ok))
    ensures Inv(Apply(s, RunStart(handler, ok), retries), retries) <==> s.state == Stopped || s.state == Fatal
  {
    if s.state == Stopped || s.state == Fatal {
      TimelyStepKeepsInv(s, RunStart(handler, ok), retries);
    } else {
      var a :| a in s.monitors && Active(s.monitors[a]);
      var t := Apply(s, RunStart(handler, ok), retries);
      assert a in t.monitors && Active(t.monitors[a]) && a != s.next;
      if ok { assert s.next in t.monitors && Active(t.monitors[s.next]); }
    }
  }

  /** A step keeps the invariant if and only if it is no late start. */
  lemma StepKeepsInv(s: Proc, step: Step, retries: int)
    requires retries >= 0 && Inv(s, retries) && Enabled(s, step)
    ensures Inv(Apply(s, step, retries), retries) <==> RunsInTime(s, step)
  {
    hide Inv;
    if RunsInTime(s, step) {
      TimelyStepKeepsInv(s, step, retries);
    } else {
      LateStartBreaks(s, step.handler, step.ok, retries);
    }
  }

  // ----- runs -----

  /** The steps happen one after the other and start handlers run in time. */
  ghost predicate Run(s: Proc, steps: seq<Step>, t: Proc, retries: int)
    decreases |steps|
  {
    if steps == [] then s == t
    else Enabled(s, steps[0]) && RunsInTime(s, steps[0]) && Run(Apply(s, steps[0], retries), steps[1..], t, retries)
  }

  lemma {:induction false} RunKeepsInv(s: Proc, steps: seq<Step>, t: Proc, retries: int)
    requires retries >= 0 && Inv(s, retries) && Run(s, steps, t, retries)
    ensures Inv(t, retries)
    decreases |steps|
  {
    hide Inv;
    if steps != [] {
      StepKeepsInv(s, steps[0], retries);
      RunKeepsInv(Apply(s, steps[0], retries), steps[1..], t, retries);
    }
  }

  /** What the invariant says about a process at any moment of any run. */
  lemma ProcessSafety(steps: seq<Step>, t: Proc, retries: int)
    requires retries >= 0 && Run(Init(retries), steps, t, retries)
    ensures |t.live| <= 1
    ensures t.state == Stopped || t.state == Fatal || t.state == RetryWait ==> t.live == {}
    ensures t.stopWg == |Counted(t)| >= 0
    ensures (forall m: nat :: !At(t, m, FatalSet)) ==> t.stopWg <= 1
    ensures forall m: nat | At(t, m, Watching) || At(t, m, Killing) :: t.cmd == Some(m)
    ensures 0 <= t.retryLeft <= retries || (t.retryLeft == retries + 1 && exists m: nat :: At(t, m, RetrySet))
  {
    InitInv(retries);
    RunKeepsInv(Init(retries), steps, t, retries);
    AtMostOneElement(t.live);
    if forall m: nat :: !At(t, m, FatalSet) {
      assert forall m | m in t.monitors :: t.monitors[m] != FatalSet by {
        forall m | m in t.monitors ensures t.monitors[m] != FatalSet { assert !At(t, m, FatalSet); }
      }
      AtMostOneElement(Counted(t));
    }
    if t.retryLeft == retries + 1 {
      var m :| m in t.monitors && t.monitors[m] == RetrySet;
      assert At(t, m, RetrySet);
    }
  }

  lemma AtMostOneElement<T>(s: set<T>)
    requires forall a, b | a in s && b in s :: a == b
    ensures |s| <= 1
  {
    if s != {} {
      var a :| a in s;
      assert s == {a};
    }
  }

  lemma TwoElements<T>(s: set<T>, a: T, b: T)
    requires a in s && b in s && a != b
    ensures |s| >= 2
  {
    assert |s - {a}| == |s| - 1;
    assert b in s - {a};
  }

  /** Two callers that both read Stopped before either handler runs end with two
      live children: the dispatcher reads the state and runs the handler in two
      separate moments. */
  lemma TwoCallersCanStartTwice() returns (s0: Proc, s1: Proc, s2: Proc, s3: Proc, s4: Proc)
    ensures s0 == Init(3)
    ensures Enabled(s0, DecideStart) && s1 == Apply(s0, DecideStart, 3)
    ensures Enabled(s1, DecideStart) && s2 == Apply(s1, DecideStart, 3)
    ensures Enabled(s2, RunStart(FreshStart, true)) && s3 == Apply(s2, RunStart(FreshStart, true), 3)
    ensures Enabled(s3, RunStart(FreshStart, true)) && s4 == Apply(s3, RunStart(FreshStart, true), 3)
    ensures |s4.live| == 2
  {
    s0 := Init(3);
    s1 := Apply(s0, DecideStart, 3);
    s2 := Apply(s1, DecideStart, 3);
    s3 := Apply(s2, RunStart(FreshStart, true), 3);
    s4 := Apply(s3, RunStart(FreshStart, true), 3);
    assert s4.live == {0, 1};
  }
}
