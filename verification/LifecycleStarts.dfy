/** Start handlers that run too late or too early: the exact guards under which a
    process has at most one child and its WaitGroup counts one monitor. */
module LifecycleStarts {
  import opened Lifecycle
  import opened LifecycleSafety

  // ----- children -----

  /** At most one child, and none where the process is at rest. */
  predicate ChildSafe(s: Proc) {
    |s.live| <= 1 && (s.state == Stopped || s.state == Fatal || s.state == RetryWait ==> s.live == {})
  }

  lemma InvIsChildSafe(s: Proc, retries: int)
    requires Inv(s, retries)
    ensures ChildSafe(s)
  {
    AtMostOneElement(s.live);
  }

  /** Whatever happens from here on, short of a late start, children are safe. */
  ghost predicate StaysChildSafe(s: Proc, retries: int) {
    forall steps: seq<Step>, t: Proc | Run(s, steps, t, retries) :: ChildSafe(t)
  }

  lemma InvStaysChildSafe(s: Proc, retries: int)
    requires retries >= 0 && Inv(s, retries)
    ensures StaysChildSafe(s, retries)
  {
    hide Inv, ChildSafe, Run;
    forall steps: seq<Step>, t: Proc | Run(s, steps, t, retries) ensures ChildSafe(t) {
      RunKeepsInv(s, steps, t, retries);
      InvIsChildSafe(t, retries);
    }
  }

  lemma RunCons(s: Proc, step: Step, steps: seq<Step>, t: Proc, retries: int)
    requires Enabled(s, step) && RunsInTime(s, step) && Run(Apply(s, step, retries), steps, t, retries)
    ensures Run(s, [step] + steps, t, retries)
  {
    hide Enabled, Apply, RunsInTime;
    assert ([step] + steps)[1..] == steps;
  }

  /** A caller or a restart goroutine picks a start handler. */
  predicate Decision(step: Step) {
    step.DecideStart? || step.RestartDecides?
  }

  ghost predicate NoDecisions(steps: seq<Step>) {
    forall i | 0 <= i < |steps| :: !Decision(steps[i])
  }

  /** From s these steps, in time, lead to t, where children are not safe. */
  ghost predicate LeadsToUnsafe(s: Proc, steps: seq<Step>, t: Proc, retries: int) {
    Run(s, steps, t, retries) && !ChildSafe(t)
  }

  lemma UnsafeNow(s: Proc, retries: int)
    requires !ChildSafe(s)
    ensures LeadsToUnsafe(s, [], s, retries)
  {}

  lemma UnsafeAfter(s: Proc, step: Step, steps: seq<Step>, t: Proc, retries: int)
    requires Enabled(s, step) && RunsInTime(s, step) && LeadsToUnsafe(Apply(s, step, retries), steps, t, retries)
    ensures LeadsToUnsafe(s, [step] + steps, t, retries)
    ensures NoDecisions(steps) && !Decision(step) ==> NoDecisions([step] + steps)
  {
    hide Enabled, Apply, RunsInTime, Run, ChildSafe;
    RunCons(s, step, steps, t, retries);
  }

  lemma TwoChildren(s: Proc, a: nat, b: nat)
    requires a in s.live && b in s.live && a != b
    ensures !ChildSafe(s)
  {
    TwoElements(s.live, a, b);
  }

  /** A second monitor that is still active undoes the safety of child n, within
      two steps of its own. */
  lemma SecondMonitorIsUnsafe(s: Proc, a: nat, n: nat, retries: int) returns (steps: seq<Step>, t: Proc)
    requires a in s.monitors && Active(s.monitors[a]) && n in s.live && a != n && n < s.next
    ensures LeadsToUnsafe(s, steps, t, retries) && NoDecisions(steps)
  {
    hide LeadsToUnsafe;
    if a in s.live {
      TwoChildren(s, a, n);
      UnsafeNow(s, retries);
      steps, t := [], s;
    } else {
      match s.monitors[a]
      case Spawned =>
        steps, t := WatcherIsUnsafe(Apply(s, AddsToGroups(a), retries), a, n, retries);
        UnsafeAfter(s, AddsToGroups(a), steps, t, retries);
        steps := [AddsToGroups(a)] + steps;
      case Watching => steps, t := WatcherIsUnsafe(s, a, n, retries);
      case Killing =>
        t := Apply(s, FinishesStop(a), retries);
        UnsafeNow(t, retries);
        UnsafeAfter(s, FinishesStop(a), [], t, retries);
        steps := [FinishesStop(a)] + [];
      case RetrySet =>
        steps, t := TimerIsUnsafe(Apply(s, LeavesGroups(a), retries), a, n, retries);
        UnsafeAfter(s, LeavesGroups(a), steps, t, retries);
        steps := [LeavesGroups(a)] + steps;
      case Delaying => steps, t := TimerIsUnsafe(s, a, n, retries);
    }
  }

  lemma WatcherIsUnsafe(s: Proc, a: nat, n: nat, retries: int) returns (steps: seq<Step>, t: Proc)
    requires At(s, a, Watching) && a !in s.live && n in s.live
    ensures LeadsToUnsafe(s, steps, t, retries) && NoDecisions(steps)
  {
    t := Apply(s, SeesExit(a, Normal), retries);
    UnsafeNow(t, retries);
    UnsafeAfter(s, SeesExit(a, Normal), [], t, retries);
    steps := [SeesExit(a, Normal)] + [];
  }

  lemma TimerIsUnsafe(s: Proc, a: nat, n: nat, retries: int) returns (steps: seq<Step>, t: Proc)
    requires At(s, a, Delaying) && n in s.live && n < s.next
    ensures LeadsToUnsafe(s, steps, t, retries) && NoDecisions(steps)
  {
    t := Apply(s, TimerFires(a, true), retries);
    TwoChildren(t, n, s.next);
    UnsafeNow(t, retries);
    UnsafeAfter(s, TimerFires(a, true), [], t, retries);
    steps := [TimerFires(a, true)] + [];
  }

  /** A late start that succeeds adds a child beside an active monitor, and no
      further start is needed. */
  lemma LateStartMeetsMonitor(s: Proc, handler: Handler, retries: int) returns (steps: seq<Step>, t: Proc)
    requires Inv(s, retries) && Enabled(s, RunStart(handler, true)) && s.state != Stopped && s.state != Fatal
    ensures LeadsToUnsafe(Apply(s, RunStart(handler, true), retries), steps, t, retries) && NoDecisions(steps)
  {
    hide LeadsToUnsafe;
    var a :| a in s.monitors && Active(s.monitors[a]);
    steps, t := SecondMonitorIsUnsafe(Apply(s, RunStart(handler, true), retries), a, s.next, retries);
  }

  /** One that fails sets Fatal, from where a further start, in time, does so. */
  lemma LateStartIsUnsafe(s: Proc, handler: Handler, ok: bool, retries: int)
    requires Inv(s, retries) && Enabled(s, RunStart(handler, ok)) && s.state != Stopped && s.state != Fatal
    ensures !StaysChildSafe(Apply(s, RunStart(handler, ok), retries), retries)
  {
    var u := Apply(s, RunStart(handler, ok), retries);
    if ok {
      var steps, t := LateStartMeetsMonitor(s, handler, retries);
      assert Run(u, steps, t, retries) && !ChildSafe(t);
    } else {
      hide LeadsToUnsafe;
      var a :| a in s.monitors && Active(s.monitors[a]);
      var v := Apply(u, DecideStart, retries);
      var w := Apply(v, RunStart(PlainStart, true), retries);
      var steps, t := SecondMonitorIsUnsafe(w, a, v.next, retries);
      UnsafeAfter(v, RunStart(PlainStart, true), steps, t, retries);
      steps := [RunStart(PlainStart, true)] + steps;
      UnsafeAfter(u, DecideStart, steps, t, retries);
      UnsafeRun(u, [DecideStart] + steps, t, retries);
    }
  }

  lemma UnsafeRun(s: Proc, steps: seq<Step>, t: Proc, retries: int)
    requires LeadsToUnsafe(s, steps, t, retries)
    ensures !StaysChildSafe(s, retries)
  {}

  /** The exact guard: after a start handler has run, children stay safe in every
      continuation if and only if it found the process stopped or failed. */
  lemma TimelyStartIsExact(s: Proc, handler: Handler, ok: bool, retries: int)
    requires retries >= 0 && Inv(s, retries) && Enabled(s, RunStart(handler, ok))
    ensures StaysChildSafe(Apply(s, RunStart(handler, ok), retries), retries)
       <==> s.state == Stopped || s.state == Fatal
  {
    hide StaysChildSafe, Inv;
    if s.state == Stopped || s.state == Fatal {
      TimelyStepKeepsInv(s, RunStart(handler, ok), retries);
      InvStaysChildSafe(Apply(s, RunStart(handler, ok), retries), retries);
    } else {
      LateStartIsUnsafe(s, handler, ok, retries);
    }
  }

  // ----- starts in flight -----

  /** Callers and restart goroutines that hold a start handler they have not run. */
  function InFlight(s: Proc): nat {
    s.freshStarts + s.plainStarts
  }

  /** A run of the machine, with no assumption on when start handlers run. */
  ghost predicate FreeRun(s: Proc, steps: seq<Step>, t: Proc, retries: int)
    decreases |steps|
  {
    if steps == [] then s == t
    else Enabled(s, steps[0]) && FreeRun(Apply(s, steps[0], retries), steps[1..], t, retries)
  }

  /** At every moment of the run at most one start is in flight. */
  ghost predicate OneAtATime(s: Proc, steps: seq<Step>, retries: int)
    decreases |steps|
  {
    InFlight(s) <= 1
    && (steps != [] && Enabled(s, steps[0]) ==> OneAtATime(Apply(s, steps[0], retries), steps[1..], retries))
  }

  predicate AtRest(s: Proc) {
    s.state == Stopped || s.state == Fatal
  }

  /** The only start in flight will still find the process at rest. */
  predicate Serial(s: Proc) {
    InFlight(s) == 0 || (InFlight(s) == 1 && AtRest(s))
  }

  /** While the process is at rest nothing but a start handler ends that; so as
      long as there is only one it runs in time. */
  lemma SerialStep(s: Proc, step: Step, retries: int)
    requires Inv(s, retries) && Serial(s) && Enabled(s, step)
    ensures RunsInTime(s, step)
    ensures !Decision(step) ==> Serial(Apply(s, step, retries))
    ensures InFlight(Apply(s, step, retries)) <= 1 ==> Serial(Apply(s, step, retries))
  {
    if AtRest(s) { RestHasNoMonitor(s, retries); }
  }

  lemma RestHasNoMonitor(s: Proc, retries: int)
    requires Inv(s, retries) && AtRest(s)
    ensures forall m: nat :: m in s.monitors ==> s.monitors[m] == FatalSet
  {}

  lemma {:induction false} SerialRunIsTimely(s: Proc, steps: seq<Step>, t: Proc, retries: int)
    requires retries >= 0 && Inv(s, retries) && Serial(s)
    requires FreeRun(s, steps, t, retries)
    requires OneAtATime(s, steps, retries) || NoDecisions(steps)
    ensures Run(s, steps, t, retries)
    decreases |steps|
  {
    hide Inv, Serial, Enabled, Apply, RunsInTime, Decision;
    if steps != [] {
      SerialStep(s, steps[0], retries);
      TimelyStepKeepsInv(s, steps[0], retries);
      hide InFlight;
      if NoDecisions(steps) {
        assert !Decision(steps[0]) && NoDecisions(steps[1..]);
      }
      SerialRunIsTimely(Apply(s, steps[0], retries), steps[1..], t, retries);
    }
  }

  /** Without any assumption on time: if callers see to it that no two starts are
      in flight at once, every run is safe. */
  lemma OneStartAtATimeIsSafe(steps: seq<Step>, t: Proc, retries: int)
    requires retries >= 0 && FreeRun(Init(retries), steps, t, retries) && OneAtATime(Init(retries), steps, retries)
    ensures Run(Init(retries), steps, t, retries)
    ensures Inv(t, retries) && ChildSafe(t)
  {
    InitInv(retries);
    SerialRunIsTimely(Init(retries), steps, t, retries);
    RunKeepsInv(Init(retries), steps, t, retries);
    InvIsChildSafe(t, retries);
  }

  /** Children are safe whatever happens and whenever it does, short of further
      decisions to start. */
  ghost predicate SafeAsItStands(s: Proc, retries: int) {
    forall steps: seq<Step>, t: Proc | FreeRun(s, steps, t, retries) && NoDecisions(steps) :: ChildSafe(t)
  }

  /** The exact condition, for every state of the invariant: no start is in flight,
      or just one and the process is at rest. */
  lemma InFlightIsExact(s: Proc, retries: int)
    requires retries >= 0 && Inv(s, retries)
    ensures SafeAsItStands(s, retries) <==> InFlight(s) == 0 || (InFlight(s) == 1 && AtRest(s))
  {
    if Serial(s) {
      hide Inv, Serial, ChildSafe, FreeRun, Run, NoDecisions;
      forall steps: seq<Step>, t: Proc | FreeRun(s, steps, t, retries) && NoDecisions(steps) ensures ChildSafe(t) {
        SerialRunIsTimely(s, steps, t, retries);
        RunKeepsInv(s, steps, t, retries);
        InvIsChildSafe(t, retries);
      }
    } else {
      var steps, t := SecondStartIsUnsafe(s, retries);
    }
  }

  lemma {:induction false} RunIsFree(s: Proc, steps: seq<Step>, t: Proc, retries: int)
    requires Run(s, steps, t, retries)
    ensures FreeRun(s, steps, t, retries)
    decreases |steps|
  {
    hide Enabled, Apply, RunsInTime;
    if steps != [] { RunIsFree(Apply(s, steps[0], retries), steps[1..], t, retries); }
  }

  lemma FreeRunCons(s: Proc, step: Step, steps: seq<Step>, t: Proc, retries: int)
    requires Enabled(s, step) && !Decision(step) && NoDecisions(steps)
    requires FreeRun(Apply(s, step, retries), steps, t, retries)
    ensures FreeRun(s, [step] + steps, t, retries) && NoDecisions([step] + steps)
  {
    hide Enabled, Apply, Decision;
    assert ([step] + steps)[1..] == steps;
  }

  function PickHandler(s: Proc): Handler {
    if s.freshStarts > 0 then FreshStart else PlainStart
  }

  /** A start in flight while the process is not at rest, or a second one, can be
      carried out too late. */
  lemma SecondStartIsUnsafe(s: Proc, retries: int) returns (steps: seq<Step>, t: Proc)
    requires retries >= 0 && Inv(s, retries) && !Serial(s)
    ensures FreeRun(s, steps, t, retries) && NoDecisions(steps) && !ChildSafe(t)
  {
    var step := RunStart(PickHandler(s), true);
    if AtRest(s) {
      TimelyStepKeepsInv(s, step, retries);
      hide Inv, FreeRun, NoDecisions, ChildSafe;
      steps, t := LateStartInFlight(Apply(s, step, retries), retries);
      FreeRunCons(s, step, steps, t, retries);
      steps := [step] + steps;
    } else {
      steps, t := LateStartInFlight(s, retries);
    }
  }

  lemma LateStartInFlight(s: Proc, retries: int) returns (steps: seq<Step>, t: Proc)
    requires Inv(s, retries) && !AtRest(s) && InFlight(s) > 0
    ensures FreeRun(s, steps, t, retries) && NoDecisions(steps) && !ChildSafe(t)
  {
    var step := RunStart(PickHandler(s), true);
    var rest: seq<Step>;
    rest, t := LateStartMeetsMonitor(s, PickHandler(s), retries);
    hide Inv, FreeRun, Run, NoDecisions, ChildSafe;
    RunIsFree(Apply(s, step, retries), rest, t, retries);
    FreeRunCons(s, step, rest, t, retries);
    steps := [step] + rest;
  }

  // ----- the WaitGroup -----

  /** stopWg is 1 exactly while a monitor is between its Add and its Done, and 0
      otherwise. */
  ghost predicate CountsOne(s: Proc) {
    s.stopWg == if exists m: nat :: m in s.monitors && InGroups(s.monitors[m]) then 1 else 0
  }

  lemma CountsOneIff(s: Proc, retries: int)
    requires Inv(s, retries)
    ensures CountsOne(s) <==> s.stopWg <= 1
  {
    if m: nat :| m in s.monitors && InGroups(s.monitors[m]) {
      assert m in Counted(s);
    } else {
      assert Counted(s) == {};
    }
  }

  /** A start handler finds the WaitGroup free. */
  predicate StartsAlone(s: Proc, step: Step) {
    step.RunStart? ==> s.stopWg == 0
  }

  /** A run whose start handlers also wait for the WaitGroup. */
  ghost predicate PatientRun(s: Proc, steps: seq<Step>, t: Proc, retries: int)
    decreases |steps|
  {
    if steps == [] then s == t
    else Enabled(s, steps[0]) && RunsInTime(s, steps[0]) && StartsAlone(s, steps[0])
         && PatientRun(Apply(s, steps[0], retries), steps[1..], t, retries)
  }

  ghost predicate OneMonitor(s: Proc) {
    forall a, b | a in s.monitors && b in s.monitors :: a == b
  }

  lemma StepKeepsOneMonitor(s: Proc, step: Step, retries: int)
    requires Inv(s, retries) && OneMonitor(s) && Enabled(s, step)
    requires RunsInTime(s, step) && StartsAlone(s, step)
    ensures OneMonitor(Apply(s, step, retries))
  {
    if step.RunStart? { FreeMeansNoMonitor(s, retries); }
  }

  lemma FreeMeansNoMonitor(s: Proc, retries: int)
    requires Inv(s, retries) && (s.state == Stopped || s.state == Fatal) && s.stopWg == 0
    ensures s.monitors == map[]
  {
    RestIsCounted(s, retries);
    assert s.monitors.Keys == {};
  }

  /** Where the process is at rest every monitor left is counted. */
  lemma RestIsCounted(s: Proc, retries: int)
    requires Inv(s, retries) && (s.state == Stopped || s.state == Fatal)
    ensures s.monitors.Keys == Counted(s)
  {}

  lemma OneMonitorCounts(s: Proc, retries: int)
    requires Inv(s, retries) && OneMonitor(s)
    ensures CountsOne(s)
  {
    AtMostOneElement(Counted(s));
    CountsOneIff(s, retries);
  }

  lemma {:induction false} PatientRunKeeps(s: Proc, steps: seq<Step>, t: Proc, retries: int)
    requires retries >= 0 && Inv(s, retries) && OneMonitor(s) && PatientRun(s, steps, t, retries)
    ensures Inv(t, retries) && OneMonitor(t)
    decreases |steps|
  {
    hide Inv, OneMonitor, Enabled, Apply, RunsInTime, StartsAlone;
    if steps != [] {
      TimelyStepKeepsInv(s, steps[0], retries);
      StepKeepsOneMonitor(s, steps[0], retries);
      PatientRunKeeps(Apply(s, steps[0], retries), steps[1..], t, retries);
    }
  }

  /** In every patient run stopWg counts one monitor. */
  lemma PatientRunsCountOne(steps: seq<Step>, t: Proc, retries: int)
    requires retries >= 0 && PatientRun(Init(retries), steps, t, retries)
    ensures CountsOne(t)
  {
    hide PatientRun;
    InitInv(retries);
    PatientRunKeeps(Init(retries), steps, t, retries);
    OneMonitorCounts(t, retries);
  }

  ghost predicate StaysCountingOne(s: Proc, retries: int) {
    forall steps: seq<Step>, t: Proc | PatientRun(s, steps, t, retries) :: CountsOne(t)
  }

  /** The exact guard, for a start handler that is in time: stopWg counts one
      monitor from there on if and only if it was 0, or was 1 and the command did
      not start. */
  lemma PatientStartIsExact(s: Proc, handler: Handler, ok: bool, retries: int)
    requires retries >= 0 && Inv(s, retries) && Enabled(s, RunStart(handler, ok))
    requires s.state == Stopped || s.state == Fatal
    ensures StaysCountingOne(Apply(s, RunStart(handler, ok), retries), retries)
       <==> s.stopWg <= if ok then 0 else 1
  {
    hide StaysCountingOne, Inv;
    if s.stopWg <= if ok then 0 else 1 {
      PatientStartCountsOne(s, handler, ok, retries);
    } else {
      HastyStartCountsTwo(s, handler, ok, retries);
    }
  }

  lemma PatientStartCountsOne(s: Proc, handler: Handler, ok: bool, retries: int)
    requires retries >= 0 && Inv(s, retries) && Enabled(s, RunStart(handler, ok))
    requires (s.state == Stopped || s.state == Fatal) && s.stopWg <= if ok then 0 else 1
    ensures StaysCountingOne(Apply(s, RunStart(handler, ok), retries), retries)
  {
    var u := Apply(s, RunStart(handler, ok), retries);
    TimelyStepKeepsInv(s, RunStart(handler, ok), retries);
    FewMonitors(s, retries);
    assert OneMonitor(u);
    hide Inv, OneMonitor, CountsOne, PatientRun;
    forall steps: seq<Step>, t: Proc | PatientRun(u, steps, t, retries) ensures CountsOne(t) {
      PatientRunKeeps(u, steps, t, retries);
      OneMonitorCounts(t, retries);
    }
  }

  lemma FewMonitors(s: Proc, retries: int)
    requires Inv(s, retries) && (s.state == Stopped || s.state == Fatal)
    ensures s.stopWg == 0 ==> s.monitors == map[]
    ensures s.stopWg <= 1 ==> OneMonitor(s)
  {
    if s.stopWg == 0 { FreeMeansNoMonitor(s, retries); }
    RestIsCounted(s, retries);
    if a, b :| a in s.monitors.Keys && b in s.monitors.Keys && a != b {
      TwoElements(s.monitors.Keys, a, b);
    }
  }

  lemma HastyStartCountsTwo(s: Proc, handler: Handler, ok: bool, retries: int)
    requires retries >= 0 && Inv(s, retries) && Enabled(s, RunStart(handler, ok))
    requires (s.state == Stopped || s.state == Fatal) && s.stopWg > if ok then 0 else 1
    ensures !StaysCountingOne(Apply(s, RunStart(handler, ok), retries), retries)
  {
    var u := Apply(s, RunStart(handler, ok), retries);
    if ok {
      var v := Apply(u, AddsToGroups(s.next), retries);
      assert v.stopWg >= 2;
      assert [AddsToGroups(s.next)][1..] == [];
      assert PatientRun(v, [], v, retries);
      assert PatientRun(u, [AddsToGroups(s.next)], v, retries);
    } else {
      assert PatientRun(u, [], u, retries) && u.stopWg >= 2;
    }
  }

  /** Without patience stopWg has no bound: a failed process that is started again
      before its last monitor has called Done adds one more, k times over. */
  lemma {:induction false} StopWgGrows(s: Proc, k: nat, retries: int) returns (steps: seq<Step>, t: Proc)
    requires (s.state == Stopped || s.state == Fatal) && s.retryLeft == retries && s.next !in s.live
    requires forall m | m in s.live :: m < s.next
    ensures Run(s, steps, t, retries) && t.stopWg == s.stopWg + k
    decreases k
  {
    if k == 0 {
      steps, t := [], s;
    } else {
      var handler := if s.state == Stopped then FreshStart else PlainStart;
      var s1 := Apply(s, DecideStart, retries);
      var s2 := Apply(s1, RunStart(handler, true), retries);
      var s3 := Apply(s2, AddsToGroups(s.next), retries);
      var s4 := Apply(s3, ChildExits(s.next), retries);
      var s5 := Apply(s4, SeesExit(s.next, Quick), retries);
      steps, t := StopWgGrows(s5, k - 1, retries);
      hide Run;
      RunCons(s4, SeesExit(s.next, Quick), steps, t, retries);
      steps := [SeesExit(s.next, Quick)] + steps;
      RunCons(s3, ChildExits(s.next), steps, t, retries);
      steps := [ChildExits(s.next)] + steps;
      RunCons(s2, AddsToGroups(s.next), steps, t, retries);
      steps := [AddsToGroups(s.next)] + steps;
      RunCons(s1, RunStart(handler, true), steps, t, retries);
      steps := [RunStart(handler, true)] + steps;
      RunCons(s, DecideStart, steps, t, retries);
      steps := [DecideStart] + steps;
    }
  }

  lemma StopWgIsUnbounded(k: nat, retries: int) returns (steps: seq<Step>, t: Proc)
    ensures Run(Init(retries), steps, t, retries) && t.stopWg == k
  {
    hide Run;
    steps, t := StopWgGrows(Init(retries), k, retries);
  }

  // ----- the retries -----

  ghost predicate WithinRetries(s: Proc, retries: int) {
    0 <= s.retryLeft <= retries
  }

  /** The one step that takes retryLeft past StartRetries is the exit of a child
      of 600 s when no retry had been used. */
  predicate EarnsExcess(s: Proc, step: Step, retries: int) {
    step.SeesExit? && step.lived.Long? && s.retryLeft == retries
  }

  lemma ExcessIsExact(s: Proc, step: Step, retries: int)
    requires retries >= 0 && Inv(s, retries) && Enabled(s, step) && RunsInTime(s, step) && WithinRetries(s, retries)
    ensures !WithinRetries(Apply(s, step, retries), retries) <==> EarnsExcess(s, step, retries)
  {
    TimelyStepKeepsInv(s, step, retries);
  }

  /** No step of the run earns an excess. */
  ghost predicate NoExcess(s: Proc, steps: seq<Step>, retries: int)
    decreases |steps|
  {
    steps != [] && Enabled(s, steps[0]) ==>
      !EarnsExcess(s, steps[0], retries) && NoExcess(Apply(s, steps[0], retries), steps[1..], retries)
  }

  /** The retries are within bounds at every moment of the run. */
  ghost predicate AlwaysWithin(s: Proc, steps: seq<Step>, retries: int)
    decreases |steps|
  {
    WithinRetries(s, retries)
    && (steps != [] && Enabled(s, steps[0]) ==> AlwaysWithin(Apply(s, steps[0], retries), steps[1..], retries))
  }

  /** Over runs: retryLeft stays between 0 and StartRetries at every moment if and
      only if no child lives 600 s with all retries left. */
  lemma {:induction false} RetriesWithinIsExact(s: Proc, steps: seq<Step>, t: Proc, retries: int)
    requires retries >= 0 && Inv(s, retries) && WithinRetries(s, retries) && Run(s, steps, t, retries)
    ensures AlwaysWithin(s, steps, retries) <==> NoExcess(s, steps, retries)
    decreases |steps|
  {
    hide Inv, Enabled, Apply, RunsInTime, WithinRetries, EarnsExcess;
    if steps != [] {
      var next := Apply(s, steps[0], retries);
      ExcessIsExact(s, steps[0], retries);
      TimelyStepKeepsInv(s, steps[0], retries);
      if WithinRetries(next, retries) {
        RetriesWithinIsExact(next, steps[1..], t, retries);
      }
    }
  }

  /** Such a run exists for every StartRetries. */
  lemma RetriesCanExceed(retries: int) returns (steps: seq<Step>, t: Proc)
    requires retries >= 0
    ensures Run(Init(retries), steps, t, retries) && t.retryLeft == retries + 1
  {
    var s := Init(retries);
    var s1 := Apply(s, DecideStart, retries);
    var s2 := Apply(s1, RunStart(FreshStart, true), retries);
    var s3 := Apply(s2, AddsToGroups(0), retries);
    var s4 := Apply(s3, ChildExits(0), retries);
    t := Apply(s4, SeesExit(0, Long), retries);
    assert Run(t, [], t, retries);
    hide Run;
    RunCons(s4, SeesExit(0, Long), [], t, retries);
    steps := [SeesExit(0, Long)] + [];
    RunCons(s3, ChildExits(0), steps, t, retries);
    steps := [ChildExits(0)] + steps;
    RunCons(s2, AddsToGroups(0), steps, t, retries);
    steps := [AddsToGroups(0)] + steps;
    RunCons(s1, RunStart(FreshStart, true), steps, t, retries);
    steps := [RunStart(FreshStart, true)] + steps;
    RunCons(s, DecideStart, steps, t, retries);
    steps := [DecideStart] + steps;
  }
}
