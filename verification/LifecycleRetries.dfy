/** How often a process restarts by itself, and why it comes to rest. */
module LifecycleRetries {
  import opened Lifecycle
  import opened LifecycleSafety

  /** Automatic restarts that one monitor may still make. */
  function CreditOf(phase: Phase, retryLeft: int): int {
    match phase
    case Spawned => retryLeft
    case Watching => retryLeft
    case RetrySet => retryLeft
    case Delaying => retryLeft + 1
    case Killing => 0
    case FatalSet => 0
  }

  /** c bounds the automatic restarts still possible without a new start. */
  ghost predicate CreditAtMost(s: Proc, c: int) {
    c >= 0 && forall m | m in s.monitors :: CreditOf(s.monitors[m], s.retryLeft) <= c
  }

  /** A start by a caller or by a restart goroutine. */
  predicate IsStart(step: Step) {
    step.RunStart?
  }

  function AutoRestart(step: Step): nat {
    if step.TimerFires? then 1 else 0
  }

  function LongLife(step: Step): nat {
    if step.SeesExit? && step.lived.Long? then 1 else 0
  }

  function AutoRestarts(steps: seq<Step>): nat {
    if steps == [] then 0 else AutoRestart(steps[0]) + AutoRestarts(steps[1..])
  }

  function LongLives(steps: seq<Step>): nat {
    if steps == [] then 0 else LongLife(steps[0]) + LongLives(steps[1..])
  }

  ghost predicate NoStarts(steps: seq<Step>) {
    forall i | 0 <= i < |steps| :: !IsStart(steps[i])
  }

  /** Each automatic restart uses up one unit of credit; only a child that lived
      600 s gives one back. */
  lemma StepUsesCredit(s: Proc, step: Step, c: int, retries: int)
    requires retries >= 0 && Inv(s, retries) && Enabled(s, step) && !IsStart(step)
    requires CreditAtMost(s, c)
    ensures c + LongLife(step) - AutoRestart(step) >= 0
    ensures CreditAtMost(Apply(s, step, retries), c + LongLife(step) - AutoRestart(step))
  {
    var t := Apply(s, step, retries);
    var c' := c + LongLife(step) - AutoRestart(step);
    match step
    case TimerFires(m, _) =>
      assert CreditOf(s.monitors[m], s.retryLeft) == s.retryLeft + 1;
      forall k | k in t.monitors ensures CreditOf(t.monitors[k], t.retryLeft) <= c' {
        if k != s.next { assert k in s.monitors && !Active(s.monitors[k]) by { assert Active(s.monitors[m]); } }
      }
    case SeesExit(m, _) => OthersHaveNoCredit(s, m);
    case LeavesGroups(m) => if s.monitors[m] == RetrySet { OthersHaveNoCredit(s, m); }
    case AddsToGroups(m) =>
      assert CreditOf(Watching, s.retryLeft) == CreditOf(s.monitors[m], s.retryLeft);
    case _ =>
  }

  lemma OthersHaveNoCredit(s: Proc, m: nat)
    requires MonitorsAgree(s) && m in s.monitors && Active(s.monitors[m])
    ensures forall k | k in s.monitors && k != m :: s.monitors[k] == FatalSet
  {}

  lemma {:induction false} RestartsBounded(s: Proc, steps: seq<Step>, t: Proc, c: int, retries: int)
    requires retries >= 0 && Inv(s, retries) && Run(s, steps, t, retries) && NoStarts(steps)
    requires CreditAtMost(s, c)
    ensures AutoRestarts(steps) <= c + LongLives(steps)
    decreases |steps|
  {
    hide Inv, CreditAtMost, Enabled, Apply;
    if steps == [] {
      CreditNonNegative(s, c);
    } else {
      StepUsesCredit(s, steps[0], c, retries);
      StepKeepsInv(s, steps[0], retries);
      RestartsBounded(Apply(s, steps[0], retries), steps[1..], t,
                      c + LongLife(steps[0]) - AutoRestart(steps[0]), retries);
    }
  }

  lemma CreditNonNegative(s: Proc, c: int)
    requires CreditAtMost(s, c)
    ensures c >= 0
  {}

  /** The retries that a start handler leaves: all of them from Stopped, what was
      left from Fatal. */
  function CreditAfter(s: Proc, handler: Handler, retries: int): int {
    if handler.FreshStart? then retries else s.retryLeft
  }

  lemma StartSetsCredit(s: Proc, handler: Handler, ok: bool, retries: int)
    requires retries >= 0 && Inv(s, retries) && Enabled(s, RunStart(handler, ok)) && RunsInTime(s, RunStart(handler, ok))
    ensures CreditAtMost(Apply(s, RunStart(handler, ok), retries), CreditAfter(s, handler, retries))
    ensures 0 <= CreditAfter(s, handler, retries) <= retries
  {
    IdleIsQuiet(s, retries);
  }

  /** After any start, from Stopped or from Fatal, there are at most as many
      automatic restarts before the next start as retries were left, plus one for
      every child that lived 600 s; StartRetries of them when none did. */
  lemma AtMostStartRetriesRestarts(s: Proc, handler: Handler, ok: bool, steps: seq<Step>, t: Proc, retries: int)
    requires retries >= 0 && Inv(s, retries) && Enabled(s, RunStart(handler, ok)) && RunsInTime(s, RunStart(handler, ok))
    requires Run(Apply(s, RunStart(handler, ok), retries), steps, t, retries) && NoStarts(steps)
    ensures AutoRestarts(steps) <= CreditAfter(s, handler, retries) + LongLives(steps)
    ensures LongLives(steps) == 0 ==> AutoRestarts(steps) <= retries
  {
    hide Inv, Apply, Enabled, RunsInTime, Run, CreditAtMost, CreditAfter;
    TimelyStepKeepsInv(s, RunStart(handler, ok), retries);
    StartSetsCredit(s, handler, ok, retries);
    RestartsBounded(Apply(s, RunStart(handler, ok), retries), steps, t, CreditAfter(s, handler, retries), retries);
  }

  function Starts(steps: seq<Step>): nat {
    if steps == [] then 0 else (if IsStart(steps[0]) then 1 else 0) + Starts(steps[1..])
  }

  lemma {:induction false} RunRestartsBounded(s: Proc, steps: seq<Step>, t: Proc, c: int, retries: int)
    requires retries >= 0 && Inv(s, retries) && Run(s, steps, t, retries) && CreditAtMost(s, c)
    ensures AutoRestarts(steps) <= c + retries * Starts(steps) + LongLives(steps)
    decreases |steps|
  {
    hide Inv, CreditAtMost, Enabled, Apply, RunsInTime;
    CreditNonNegative(s, c);
    if steps != [] {
      var next := Apply(s, steps[0], retries);
      TimelyStepKeepsInv(s, steps[0], retries);
      if IsStart(steps[0]) {
        StartSetsCredit(s, steps[0].handler, steps[0].ok, retries);
        RunRestartsBounded(next, steps[1..], t, CreditAfter(s, steps[0].handler, retries), retries);
        assert retries * Starts(steps) == retries + retries * Starts(steps[1..]);
      } else {
        StepUsesCredit(s, steps[0], c, retries);
        RunRestartsBounded(next, steps[1..], t, c + LongLife(steps[0]) - AutoRestart(steps[0]), retries);
      }
    }
  }

  /** In every run from the beginning the automatic restarts are at most
      StartRetries for each start, plus one for every child that lived 600 s. */
  lemma RestartsPerStart(steps: seq<Step>, t: Proc, retries: int)
    requires retries >= 0 && Run(Init(retries), steps, t, retries)
    ensures AutoRestarts(steps) <= retries * Starts(steps) + LongLives(steps)
  {
    InitInv(retries);
    RunRestartsBounded(Init(retries), steps, t, 0, retries);
  }

  // ----- coming to rest -----

  /** Steps of the machine itself: no caller, no restart goroutine, no timeout of
      a sender. */
  predicate Internal(step: Step) {
    || step.AddsToGroups? || step.ChildExits? || step.SeesExit? || step.LeavesGroups?
    || step.TimerFires? || step.TakesStop? || step.FinishesStop?
  }

  /** An upper bound for the steps that the active monitor still takes, the exit
      of a child it has yet to start included. */
  function WorkOf(phase: Phase, retryLeft: int): int {
    match phase
    case Spawned => 8 * retryLeft + 5
    case Watching => 8 * retryLeft + 4
    case RetrySet => 8 * retryLeft + 3
    case Delaying => 8 * retryLeft + 9
    case Killing => 3
    case FatalSet => 0
  }

  ghost function ActiveWork(s: Proc): int {
    if exists m :: m in s.monitors && Active(s.monitors[m]) then
      var m :| m in s.monitors && Active(s.monitors[m]);
      WorkOf(s.monitors[m], s.retryLeft)
    else 0
  }

  ghost function Leftovers(s: Proc): set<nat> {
    set m | m in s.monitors && s.monitors[m] == FatalSet
  }

  ghost function Measure(s: Proc): int {
    ActiveWork(s) + |s.live| + |Leftovers(s)|
  }

  lemma ActiveWorkIs(s: Proc, m: nat)
    requires MonitorsAgree(s) && m in s.monitors && Active(s.monitors[m])
    ensures ActiveWork(s) == WorkOf(s.monitors[m], s.retryLeft)
  {}

  lemma MeasureNonNegative(s: Proc, retries: int)
    requires Inv(s, retries)
    ensures Measure(s) >= 0
  {}

  /** The active monitor m moves on to another active phase. */
  lemma MoveMeasure(s: Proc, t: Proc, m: nat, phase: Phase)
    requires MonitorsAgree(s) && MonitorsAgree(t) && m in s.monitors && Active(s.monitors[m])
    requires Active(phase) && t.monitors == s.monitors[m := phase] && t.live == s.live
    ensures Measure(t) - Measure(s) == WorkOf(phase, t.retryLeft) - WorkOf(s.monitors[m], s.retryLeft)
  {
    ActiveWorkIs(s, m);
    ActiveWorkIs(t, m);
    assert Leftovers(t) == Leftovers(s);
  }

  /** The active monitor m is gone or only has its WaitGroups to leave. */
  lemma RestMeasure(s: Proc, t: Proc, m: nat)
    requires MonitorsAgree(s) && m in s.monitors && Active(s.monitors[m]) && t.live == s.live
    requires t.monitors == Without(s.monitors, m) || t.monitors == s.monitors[m := FatalSet]
    ensures Measure(t) - Measure(s) <= 1 - WorkOf(s.monitors[m], s.retryLeft)
  {
    ActiveWorkIs(s, m);
    OthersHaveNoCredit(s, m);
    assert ActiveWork(t) == 0;
    if t.monitors == Without(s.monitors, m) {
      assert Leftovers(t) == Leftovers(s);
    } else {
      assert Leftovers(t) == Leftovers(s) + {m};
    }
  }

  lemma TimerMeasure(s: Proc, m: nat, ok: bool, retries: int)
    requires Inv(s, retries) && At(s, m, Delaying)
    ensures Measure(Apply(s, TimerFires(m, ok), retries)) < Measure(s)
  {
    var t := Apply(s, TimerFires(m, ok), retries);
    TimerFiresKeepsInv(s, m, ok, retries);
    ActiveWorkIs(s, m);
    OthersHaveNoCredit(s, m);
    assert Leftovers(t) == Leftovers(s);
    if ok {
      assert s.next !in s.live;
      ActiveWorkIs(t, s.next);
    } else {
      assert ActiveWork(t) == 0;
    }
  }

  lemma LeaveMeasure(s: Proc, m: nat, retries: int)
    requires Inv(s, retries) && Enabled(s, LeavesGroups(m))
    ensures Measure(Apply(s, LeavesGroups(m), retries)) < Measure(s)
  {
    var t := Apply(s, LeavesGroups(m), retries);
    LeavesGroupsKeepsInv(s, m, retries);
    if s.monitors[m] == RetrySet {
      MoveMeasure(s, t, m, Delaying);
    } else {
      assert Leftovers(t) == Leftovers(s) - {m};
      if a :| a in s.monitors && Active(s.monitors[a]) {
        assert a in t.monitors && Active(t.monitors[a]);
        ActiveWorkIs(s, a);
        ActiveWorkIs(t, a);
      }
    }
  }

  lemma StopMeasure(s: Proc, m: nat, ofRestart: bool, retries: int)
    requires retries >= 0 && Inv(s, retries) && Enabled(s, TakesStop(m, ofRestart))
    ensures Measure(Apply(s, TakesStop(m, ofRestart), retries)) < Measure(s)
  {
    var t := Apply(s, TakesStop(m, ofRestart), retries);
    StepKeepsInv(s, TakesStop(m, ofRestart), retries);
    if At(s, m, Watching) {
      MoveMeasure(s, t, m, Killing);
    } else {
      RestMeasure(s, t, m);
    }
  }

  lemma ExitMeasure(s: Proc, m: nat, lived: Lifetime, retries: int)
    requires retries >= 0 && Inv(s, retries) && Enabled(s, SeesExit(m, lived)) && !lived.Long?
    ensures Measure(Apply(s, SeesExit(m, lived), retries)) < Measure(s)
  {
    var t := Apply(s, SeesExit(m, lived), retries);
    SeeExitKeepsInv(s, m, lived, retries);
    if t.monitors == s.monitors[m := FatalSet] {
      RestMeasure(s, t, m);
    } else {
      MoveMeasure(s, t, m, RetrySet);
    }
  }

  lemma ChildMeasure(s: Proc, m: nat, retries: int)
    requires Inv(s, retries) && m in s.live
    ensures Measure(s.(live := s.live - {m})) < Measure(s)
  {
    var t := s.(live := s.live - {m});
    ChildExitsKeepsInv(s, m, retries);
    assert Leftovers(t) == Leftovers(s);
    if a :| a in s.monitors && Active(s.monitors[a]) {
      ActiveWorkIs(s, a);
      ActiveWorkIs(t, a);
    }
  }

  /** Every step of the machine itself brings it closer to rest, as long as no
      child lives for 600 s. */
  lemma MeasureFalls(s: Proc, step: Step, retries: int)
    requires retries >= 0 && Inv(s, retries) && Enabled(s, step)
    requires Internal(step) && LongLife(step) == 0
    ensures Measure(Apply(s, step, retries)) < Measure(s)
  {
    hide Measure;
    match step
    case AddsToGroups(m) =>
      AddKeepsInv(s, m, retries);
      MoveMeasure(s, Apply(s, step, retries), m, Watching);
    case ChildExits(m) => ChildMeasure(s, m, retries);
    case SeesExit(m, lived) => ExitMeasure(s, m, lived, retries);
    case LeavesGroups(m) => LeaveMeasure(s, m, retries);
    case TimerFires(m, ok) => TimerMeasure(s, m, ok, retries);
    case TakesStop(m, ofRestart) => StopMeasure(s, m, ofRestart, retries);
    case FinishesStop(m) =>
      FinishKeepsInv(s, m, retries);
      RestMeasure(s, Apply(s, step, retries), m);
  }

  function InternalSteps(steps: seq<Step>): nat {
    if steps == [] then 0 else (if Internal(steps[0]) then 1 else 0) + InternalSteps(steps[1..])
  }

  /** Requests, timeouts of senders and the restart goroutine move no monitor. */
  lemma RequestsKeepMeasure(s: Proc, step: Step, retries: int)
    requires Inv(s, retries) && Enabled(s, step) && !Internal(step) && !IsStart(step)
    ensures Measure(Apply(s, step, retries)) == Measure(s)
  {
    var t := Apply(s, step, retries);
    assert t.monitors == s.monitors && t.live == s.live && t.retryLeft == s.retryLeft && t.state == s.state;
    assert Leftovers(t) == Leftovers(s);
    if a :| a in s.monitors && Active(s.monitors[a]) {
      ActiveWorkIs(s, a);
      ActiveWorkIs(t, a);
    }
  }

  /** Until the next start the machine itself takes a bounded number of steps,
      whatever stops and restarts are requested meanwhile. */
  lemma {:induction false} RunsAreBounded(s: Proc, steps: seq<Step>, t: Proc, retries: int)
    requires retries >= 0 && Inv(s, retries) && Run(s, steps, t, retries)
    requires NoStarts(steps) && LongLives(steps) == 0
    ensures InternalSteps(steps) <= Measure(s) - Measure(t) && Measure(t) >= 0
    decreases |steps|
  {
    hide Inv, Measure, Enabled, Apply;
    if steps == [] {
      MeasureNonNegative(s, retries);
    } else {
      if Internal(steps[0]) {
        MeasureFalls(s, steps[0], retries);
      } else {
        RequestsKeepMeasure(s, steps[0], retries);
      }
      TimelyStepKeepsInv(s, steps[0], retries);
      RunsAreBounded(Apply(s, steps[0], retries), steps[1..], t, retries);
    }
  }

  /** A goroutine that exists has a step to take, or its child has. */
  lemma NextStep(s: Proc, m: nat, retries: int) returns (step: Step)
    requires Inv(s, retries) && m in s.monitors
    ensures Internal(step) && Enabled(s, step)
  {
    if m in s.live {
      step := ChildExits(m);
    } else {
      match s.monitors[m]
      case Spawned => step := AddsToGroups(m);
      case Watching => step := SeesExit(m, Normal);
      case Killing => step := FinishesStop(m);
      case FatalSet => step := LeavesGroups(m);
      case RetrySet => step := LeavesGroups(m);
      case Delaying => step := TimerFires(m, true);
    }
  }

  /** Where it stops, the process has stopped or failed, every goroutine is gone
      and the WaitGroup is free. */
  lemma RestIsFinal(s: Proc, retries: int)
    requires Inv(s, retries)
    requires forall step: Step | Internal(step) :: !Enabled(s, step)
    ensures s.state == Stopped || s.state == Fatal
    ensures s.monitors == map[] && s.live == {} && s.stopWg == 0
  {
    if m :| m in s.monitors {
      var step := NextStep(s, m, retries);
    }
    assert s.monitors == map[];
    assert Counted(s) == {};
  }

  // ----- several processes -----

  /** All processes share one more WaitGroup, moved by the same steps. */
  datatype System = System(procs: seq<Proc>, processWg: int)

  /** StartRetries of the program that each process belongs to. */
  type Settings = seq<int>

  ghost function SumOfGroups(procs: seq<Proc>): int {
    if procs == [] then 0 else procs[0].stopWg + SumOfGroups(procs[1..])
  }

  /** ProcessWg.Add and Done accompany every stopWg.Add and Done. */
  function GroupChange(step: Step): int {
    match step
    case AddsToGroups(_) => 1
    case LeavesGroups(_) => -1
    case FinishesStop(_) => -1
    case _ => 0
  }

  function SystemInit(settings: Settings): System {
    System(seq(|settings|, i requires 0 <= i < |settings| => Init(settings[i])), 0)
  }

  predicate SystemEnabled(y: System, settings: Settings, i: nat, step: Step) {
    i < |y.procs| == |settings| && Enabled(y.procs[i], step)
  }

  function SystemStep(y: System, settings: Settings, i: nat, step: Step): System
    requires SystemEnabled(y, settings, i, step)
  {
    System(y.procs[i := Apply(y.procs[i], step, settings[i])], y.processWg + GroupChange(step))
  }

  ghost predicate SystemInv(y: System, settings: Settings) {
    && |y.procs| == |settings|
    && (forall k | 0 <= k < |settings| :: settings[k] >= 0 && Inv(y.procs[k], settings[k]))
    && y.processWg == SumOfGroups(y.procs)
  }

  lemma {:induction false} SumUpdate(procs: seq<Proc>, i: nat, p: Proc)
    requires i < |procs|
    ensures SumOfGroups(procs[i := p]) == SumOfGroups(procs) - procs[i].stopWg + p.stopWg
  {
    if i == 0 {
      assert procs[0 := p][1..] == procs[1..];
    } else {
      assert procs[i := p][1..] == procs[1..][i - 1 := p];
      SumUpdate(procs[1..], i - 1, p);
    }
  }

  lemma StepMovesGroups(s: Proc, step: Step, retries: int)
    requires Enabled(s, step)
    ensures Apply(s, step, retries).stopWg == s.stopWg + GroupChange(step)
  {}

  /** The shared WaitGroup stays the sum over all processes. */
  lemma SystemStepKeepsSum(y: System, settings: Settings, i: nat, step: Step)
    requires SystemInv(y, settings) && SystemEnabled(y, settings, i, step) && RunsInTime(y.procs[i], step)
    ensures SystemInv(SystemStep(y, settings, i, step), settings)
  {
    hide Inv, Apply, Enabled, RunsInTime, GroupChange, SumOfGroups;
    TimelyStepKeepsInv(y.procs[i], step, settings[i]);
    StepMovesGroups(y.procs[i], step, settings[i]);
    SumUpdate(y.procs, i, Apply(y.procs[i], step, settings[i]));
  }

  /** Steps of any processes in any order; start handlers run in time. */
  ghost predicate SystemRun(y: System, settings: Settings, steps: seq<(nat, Step)>, z: System)
    decreases |steps|
  {
    if steps == [] then y == z
    else SystemEnabled(y, settings, steps[0].0, steps[0].1) && RunsInTime(y.procs[steps[0].0], steps[0].1)
         && SystemRun(SystemStep(y, settings, steps[0].0, steps[0].1), settings, steps[1..], z)
  }

  lemma {:induction false} SystemRunKeepsInv(y: System, settings: Settings, steps: seq<(nat, Step)>, z: System)
    requires SystemInv(y, settings) && SystemRun(y, settings, steps, z)
    ensures SystemInv(z, settings)
    decreases |steps|
  {
    hide SystemInv, SystemStep, SystemEnabled, RunsInTime;
    if steps != [] {
      SystemStepKeepsSum(y, settings, steps[0].0, steps[0].1);
      SystemRunKeepsInv(SystemStep(y, settings, steps[0].0, steps[0].1), settings, steps[1..], z);
    }
  }

  lemma {:induction false} SumIsNonNegative(procs: seq<Proc>)
    requires forall k | 0 <= k < |procs| :: procs[k].stopWg >= 0
    ensures SumOfGroups(procs) >= 0
  {
    if procs != [] { SumIsNonNegative(procs[1..]); }
  }

  lemma {:induction false} SumOfInitial(procs: seq<Proc>)
    requires forall k | 0 <= k < |procs| :: procs[k].stopWg == 0
    ensures SumOfGroups(procs) == 0
  {
    if procs != [] { SumOfInitial(procs[1..]); }
  }

  /** In every run of any number of processes, each with its own StartRetries,
      ProcessWg is the sum of their WaitGroups and never negative. */
  lemma ProcessWgIsSum(settings: Settings, steps: seq<(nat, Step)>, z: System)
    requires forall k | 0 <= k < |settings| :: settings[k] >= 0
    requires SystemRun(SystemInit(settings), settings, steps, z)
    ensures z.processWg == SumOfGroups(z.procs) >= 0
    ensures |z.procs| == |settings| && forall k | 0 <= k < |settings| :: Inv(z.procs[k], settings[k])
  {
    var y := SystemInit(settings);
    forall k | 0 <= k < |settings| ensures Inv(y.procs[k], settings[k]) { InitInv(settings[k]); }
    SumOfInitial(y.procs);
    SystemRunKeepsInv(y, settings, steps, z);
    assert forall k | 0 <= k < |z.procs| :: Inv(z.procs[k], settings[k]) ==> z.procs[k].stopWg >= 0;
    SumIsNonNegative(z.procs);
  }
}
