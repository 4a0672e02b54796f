/** What the process does do: exits lead to restarts, starts to a child, stops to
    rest, and the bound on automatic restarts is reached. */
module LifecycleProgress {
  import opened Wrappers
  import opened Lifecycle
  import opened LifecycleSafety
  import opened LifecycleStarts
  import opened LifecycleRetries

  // ----- exits -----

  /** A process waits for a retry exactly if one is left, or has just been earned,
      and the exit was not a quick one before any retry; otherwise it has failed,
      and a failed process has all its retries again. */
  lemma ExitIsExact(s: Proc, m: nat, lived: Lifetime, retries: int)
    requires retries >= 0 && Inv(s, retries) && Enabled(s, SeesExit(m, lived))
    ensures var t := Apply(s, SeesExit(m, lived), retries);
            && (t.state == RetryWait <==> (lived.Long? || s.retryLeft > 0) && !(lived.Quick? && s.retryLeft == retries))
            && (t.state != RetryWait ==> t.state == Fatal && t.retryLeft == retries)
            && (t.state == RetryWait ==> t.retryLeft == s.retryLeft + LongLife(SeesExit(m, lived)))
            && t.live == {}
  {
    SeeExitKeepsInv(s, m, lived, retries);
  }

  /** The process runs, and m is the monitor of its only child. */
  ghost predicate RunsUnder(s: Proc, m: nat, phase: Phase) {
    s.state == Running && At(s, m, phase) && s.cmd == Some(m) && s.live == {m} && m < s.next
  }

  /** An exit between StartSeconds and 600 s with a retry left: the child is
      replaced and one retry used. */
  lemma NormalExitRestarts(s: Proc, m: nat, retries: int) returns (t: Proc)
    requires retries >= 0 && Inv(s, retries) && At(s, m, Watching) && m !in s.live && s.retryLeft >= 1
    ensures Run(s, [SeesExit(m, Normal), LeavesGroups(m), TimerFires(m, true)], t, retries)
    ensures RunsUnder(t, s.next, Spawned) && t.retryLeft == s.retryLeft - 1
  {
    var s1 := Apply(s, SeesExit(m, Normal), retries);
    var s2 := Apply(s1, LeavesGroups(m), retries);
    t := Apply(s2, TimerFires(m, true), retries);
    ExitIsExact(s, m, Normal, retries);
    RunOfThree(s, SeesExit(m, Normal), s1, LeavesGroups(m), s2, TimerFires(m, true), t, retries);
  }

  lemma RunOfThree(s: Proc, a: Step, s1: Proc, b: Step, s2: Proc, c: Step, t: Proc, retries: int)
    requires Enabled(s, a) && RunsInTime(s, a) && s1 == Apply(s, a, retries)
    requires Enabled(s1, b) && RunsInTime(s1, b) && s2 == Apply(s1, b, retries)
    requires Enabled(s2, c) && RunsInTime(s2, c) && t == Apply(s2, c, retries)
    ensures Run(s, [a, b, c], t, retries)
  {
    hide Enabled, Apply, RunsInTime;
    assert [a, b, c][1..] == [b, c] && [b, c][1..] == [c] && [c][1..] == [];
    assert Run(t, [], t, retries);
    assert Run(s2, [c], t, retries);
    assert Run(s1, [b, c], t, retries);
  }

  // ----- the bound is reached -----

  /** A run of so many automatic restarts, with no start and no long life. */
  ghost predicate Restarting(s: Proc, steps: seq<Step>, t: Proc, count: int, retries: int) {
    Run(s, steps, t, retries) && AutoRestarts(steps) == count && Starts(steps) == 0 && LongLives(steps) == 0
  }

  lemma CountsJoin(a: seq<Step>, b: seq<Step>)
    ensures AutoRestarts(a + b) == AutoRestarts(a) + AutoRestarts(b)
    ensures Starts(a + b) == Starts(a) + Starts(b) && LongLives(a + b) == LongLives(a) + LongLives(b)
  {
    if a == [] {
      assert a + b == b;
    } else {
      assert (a + b)[1..] == a[1..] + b;
      CountsJoin(a[1..], b);
    }
  }

  lemma {:induction false} RunsJoin(s: Proc, a: seq<Step>, t: Proc, b: seq<Step>, u: Proc, retries: int)
    requires Run(s, a, t, retries) && Run(t, b, u, retries)
    ensures Run(s, a + b, u, retries)
    decreases |a|
  {
    hide Enabled, Apply, RunsInTime;
    if a == [] {
      assert a + b == b;
    } else {
      assert (a + b)[1..] == a[1..] + b;
      RunsJoin(Apply(s, a[0], retries), a[1..], t, b, u, retries);
    }
  }

  lemma RestartingJoins(s: Proc, a: seq<Step>, t: Proc, c: int, b: seq<Step>, u: Proc, d: int, retries: int)
    requires Restarting(s, a, t, c, retries) && Restarting(t, b, u, d, retries)
    ensures Restarting(s, a + b, u, c + d, retries)
  {
    hide Run;
    RunsJoin(s, a, t, b, u, retries);
    CountsJoin(a, b);
  }

  lemma RunOfTwo(s: Proc, a: Step, s1: Proc, b: Step, t: Proc, retries: int)
    requires Enabled(s, a) && RunsInTime(s, a) && s1 == Apply(s, a, retries)
    requires Enabled(s1, b) && RunsInTime(s1, b) && t == Apply(s1, b, retries)
    ensures Run(s, [a, b], t, retries)
  {
    hide Enabled, Apply, RunsInTime;
    assert [a, b][1..] == [b] && [b][1..] == [];
    assert Run(t, [], t, retries);
    assert Run(s1, [b], t, retries);
  }

  function Ending(m: nat): seq<Step> {
    [AddsToGroups(m), ChildExits(m)]
  }

  lemma EndingCounts(m: nat)
    ensures AutoRestarts(Ending(m)) == 0 && Starts(Ending(m)) == 0 && LongLives(Ending(m)) == 0
  {
    CountsJoin([AddsToGroups(m)], [ChildExits(m)]);
    assert Ending(m) == [AddsToGroups(m)] + [ChildExits(m)];
  }

  /** A new child is joined by its monitor and exits. */
  lemma ChildEnds(s: Proc, m: nat, retries: int) returns (t: Proc)
    requires retries >= 0 && Inv(s, retries) && RunsUnder(s, m, Spawned)
    ensures Restarting(s, Ending(m), t, 0, retries) && Inv(t, retries)
    ensures At(t, m, Watching) && m !in t.live && t.retryLeft == s.retryLeft && t.next == s.next
  {
    var s1 := Apply(s, AddsToGroups(m), retries);
    TimelyStepKeepsInv(s, AddsToGroups(m), retries);
    t := Apply(s1, ChildExits(m), retries);
    TimelyStepKeepsInv(s1, ChildExits(m), retries);
    RunOfTwo(s, AddsToGroups(m), s1, ChildExits(m), t, retries);
    EndingCounts(m);
    hide Inv, Run, Apply, AutoRestarts, Starts, LongLives;
  }

  function Replacing(m: nat): seq<Step> {
    [SeesExit(m, Normal), LeavesGroups(m), TimerFires(m, true)]
  }

  lemma ReplacingCounts(m: nat)
    ensures AutoRestarts(Replacing(m)) == 1 && Starts(Replacing(m)) == 0 && LongLives(Replacing(m)) == 0
  {
    CountsJoin([SeesExit(m, Normal), LeavesGroups(m)], [TimerFires(m, true)]);
    CountsJoin([SeesExit(m, Normal)], [LeavesGroups(m)]);
    assert [SeesExit(m, Normal)] + [LeavesGroups(m)] == [SeesExit(m, Normal), LeavesGroups(m)];
    assert Replacing(m) == [SeesExit(m, Normal), LeavesGroups(m)] + [TimerFires(m, true)];
  }

  /** One child ends and the next one is there. */
  lemma OneCycle(s: Proc, m: nat, retries: int) returns (t: Proc)
    requires retries >= 0 && Inv(s, retries) && RunsUnder(s, m, Spawned) && s.retryLeft >= 1
    ensures Restarting(s, Ending(m) + Replacing(m), t, 1, retries) && Inv(t, retries)
    ensures RunsUnder(t, s.next, Spawned) && t.retryLeft == s.retryLeft - 1
  {
    hide Inv, Run, Ending, Replacing, RunsUnder;
    var mid := ChildEnds(s, m, retries);
    t := NormalExitRestarts(mid, m, retries);
    assert Run(mid, Replacing(m), t, retries) by { ReplacingIs(m); }
    ReplacingCounts(m);
    RunKeepsInv(mid, Replacing(m), t, retries);
    RestartingJoins(s, Ending(m), mid, 0, Replacing(m), t, 1, retries);
  }

  lemma ReplacingIs(m: nat)
    ensures Replacing(m) == [SeesExit(m, Normal), LeavesGroups(m), TimerFires(m, true)]
  {}

  /** With no retry left the exit of the child is the end. */
  lemma LastExit(s: Proc, m: nat, retries: int) returns (t: Proc)
    requires retries >= 0 && Inv(s, retries) && At(s, m, Watching) && m !in s.live && s.retryLeft <= 0
    ensures Restarting(s, [SeesExit(m, Normal)], t, 0, retries) && t.state == Fatal
  {
    t := Apply(s, SeesExit(m, Normal), retries);
    ExitIsExact(s, m, Normal, retries);
    assert [SeesExit(m, Normal)][1..] == [];
    assert Run(t, [], t, retries);
  }

  /** As long as children keep exiting in the normal way, every retry left is used
      and then the process fails. */
  lemma {:induction false} RetriesAreUsedUp(s: Proc, m: nat, retries: int) returns (steps: seq<Step>, t: Proc)
    requires retries >= 0 && Inv(s, retries) && RunsUnder(s, m, Spawned)
    ensures Restarting(s, steps, t, s.retryLeft, retries) && t.state == Fatal
    decreases s.retryLeft
  {
    RetriesNotNegative(s, retries);
    hide Inv, Restarting, RunsUnder, Ending, Replacing;
    if s.retryLeft >= 1 {
      var mid := OneCycle(s, m, retries);
      steps, t := RetriesAreUsedUp(mid, s.next, retries);
      RestartingJoins(s, Ending(m) + Replacing(m), mid, 1, steps, t, mid.retryLeft, retries);
      steps := Ending(m) + Replacing(m) + steps;
    } else {
      var mid := ChildEnds(s, m, retries);
      t := LastExit(mid, m, retries);
      RestartingJoins(s, Ending(m), mid, 0, [SeesExit(m, Normal)], t, 0, retries);
      steps := Ending(m) + [SeesExit(m, Normal)];
    }
  }

  lemma RetriesNotNegative(s: Proc, retries: int)
    requires Inv(s, retries)
    ensures s.retryLeft >= 0
  {}

  /** The bound is sharp: for every StartRetries there is a run with one start, no
      long life and just as many automatic restarts, and it ends in Fatal. */
  lemma BoundIsReached(retries: int) returns (steps: seq<Step>, t: Proc)
    requires retries >= 0
    ensures Run(Init(retries), steps, t, retries) && t.state == Fatal
    ensures Starts(steps) == 1 && LongLives(steps) == 0 && AutoRestarts(steps) == retries
  {
    InitInv(retries);
    var s := Init(retries);
    var s1 := Apply(s, DecideStart, retries);
    TimelyStepKeepsInv(s, DecideStart, retries);
    var s2 := Apply(s1, RunStart(FreshStart, true), retries);
    TimelyStepKeepsInv(s1, RunStart(FreshStart, true), retries);
    steps, t := RetriesAreUsedUp(s2, 0, retries);
    hide Inv, Run;
    RunCons(s1, RunStart(FreshStart, true), steps, t, retries);
    assert ([RunStart(FreshStart, true)] + steps)[1..] == steps;
    steps := [RunStart(FreshStart, true)] + steps;
    RunCons(s, DecideStart, steps, t, retries);
    assert ([DecideStart] + steps)[1..] == steps;
    steps := [DecideStart] + steps;
  }

  // ----- starts -----

  function HandlerFor(s: Proc): Handler {
    if s.state == Stopped then FreshStart else PlainStart
  }

  /** A start of a process at rest: the handler runs and brings one child, with all
      retries after a stop and those left after a failure; a command that does not
      start leaves it failed, without a child. */
  lemma StartBringsChild(s: Proc, ok: bool, retries: int) returns (t: Proc)
    requires retries >= 0 && Inv(s, retries) && AtRest(s)
    ensures var s1 := Apply(s, DecideStart, retries);
            && Enabled(s1, RunStart(HandlerFor(s), ok)) && t == Apply(s1, RunStart(HandlerFor(s), ok), retries)
            && Run(s, [DecideStart, RunStart(HandlerFor(s), ok)], t, retries)
    ensures if ok then RunsUnder(t, s.next, Spawned) else t.state == Fatal && t.live == {}
    ensures t.retryLeft == if s.state == Stopped then retries else s.retryLeft
  {
    var s1 := Apply(s, DecideStart, retries);
    IdleIsQuiet(s, retries);
    t := Apply(s1, RunStart(HandlerFor(s), ok), retries);
    assert [DecideStart, RunStart(HandlerFor(s), ok)][1..] == [RunStart(HandlerFor(s), ok)];
    assert [RunStart(HandlerFor(s), ok)][1..] == [];
    assert Run(t, [], t, retries);
    assert Run(s1, [RunStart(HandlerFor(s), ok)], t, retries);
  }

  /** Requests that the handler table has no entry for change nothing. */
  lemma OtherRequestsDoNothing(s: Proc, retries: int)
    ensures !AtRest(s) ==> Apply(s, DecideStart, retries) == s
    ensures s.state != Running ==> Apply(s, RequestStop, retries) == s && Apply(s, RequestRestart, retries) == s
  {}

  // ----- stops and restarts -----

  /** The steps from a stop signal to the end of the child. */
  lemma SignalStops(s: Proc, m: nat, ofRestart: bool, retries: int) returns (t: Proc)
    requires retries >= 0 && Inv(s, retries) && RunsUnder(s, m, Watching)
    requires if ofRestart then s.restartSenders > 0 else s.senders > 0
    ensures Run(s, [TakesStop(m, ofRestart), ChildExits(m), FinishesStop(m)], t, retries) && Inv(t, retries)
    ensures t.state == Stopped && t.live == {} && t.stopWg == s.stopWg - 1
    ensures if ofRestart then t.restartWaits == s.restartWaits + 1 && t.restartSenders == s.restartSenders - 1
            else t.senders == s.senders - 1
    ensures t.freshStarts == s.freshStarts && t.plainStarts == s.plainStarts && t.next == s.next
    ensures ofRestart ==> t.restartStarts == s.restartStarts
  {
    var s1 := Apply(s, TakesStop(m, ofRestart), retries);
    TimelyStepKeepsInv(s, TakesStop(m, ofRestart), retries);
    var s2 := Apply(s1, ChildExits(m), retries);
    TimelyStepKeepsInv(s1, ChildExits(m), retries);
    t := Apply(s2, FinishesStop(m), retries);
    TimelyStepKeepsInv(s2, FinishesStop(m), retries);
    RunOfThree(s, TakesStop(m, ofRestart), s1, ChildExits(m), s2, FinishesStop(m), t, retries);
  }

  /** A stop of a running process: the signal reaches its monitor, the child ends
      and the process is stopped. */
  lemma StopBringsRest(s: Proc, m: nat, retries: int) returns (t: Proc)
    requires retries >= 0 && Inv(s, retries) && RunsUnder(s, m, Watching)
    ensures Run(s, [RequestStop] + [TakesStop(m, false), ChildExits(m), FinishesStop(m)], t, retries)
    ensures t.state == Stopped && t.live == {} && t.senders == s.senders
  {
    TimelyStepKeepsInv(s, RequestStop, retries);
    var s1 := Apply(s, RequestStop, retries);
    t := SignalStops(s1, m, false, retries);
    hide Inv, Run;
    RunCons(s, RequestStop, [TakesStop(m, false), ChildExits(m), FinishesStop(m)], t, retries);
  }

  /** A signal that comes while the process waits for a retry ends the wait. */
  lemma StopEndsWait(s: Proc, m: nat, retries: int)
    requires retries >= 0 && Inv(s, retries) && At(s, m, Delaying) && s.senders > 0
    ensures Enabled(s, TakesStop(m, false))
    ensures var t := Apply(s, TakesStop(m, false), retries);
            t.state == Stopped && t.live == {} && m !in t.monitors && t.senders == s.senders - 1
  {}

  ghost predicate RestartPath(m: nat, steps: seq<Step>) {
    steps == [RequestRestart, RestartChecks, RestartRequests]
             + [TakesStop(m, true), ChildExits(m), FinishesStop(m)]
             + [RestartProceeds, RestartDecides, RunStart(FreshStart, true)]
  }

  /** The goroutine checks and asks for the stop. */
  lemma RestartAsks(s: Proc, m: nat, retries: int) returns (t: Proc)
    requires retries >= 0 && Inv(s, retries) && RunsUnder(s, m, Watching)
    ensures Run(s, [RequestRestart, RestartChecks, RestartRequests], t, retries) && Inv(t, retries)
    ensures RunsUnder(t, m, Watching) && t.restartSenders == s.restartSenders + 1
    ensures t.stopWg == s.stopWg && t.next == s.next && t.restartWaits == s.restartWaits
  {
    var s1 := Apply(s, RequestRestart, retries);
    TimelyStepKeepsInv(s, RequestRestart, retries);
    var s2 := Apply(s1, RestartChecks, retries);
    TimelyStepKeepsInv(s1, RestartChecks, retries);
    t := Apply(s2, RestartRequests, retries);
    TimelyStepKeepsInv(s2, RestartRequests, retries);
    hide Inv;
    RunOfThree(s, RequestRestart, s1, RestartChecks, s2, RestartRequests, t, retries);
  }

  /** The WaitGroup is free and the goroutine starts the process. */
  lemma RestartStarts(s: Proc, retries: int) returns (t: Proc)
    requires retries >= 0 && Inv(s, retries) && s.state == Stopped && s.stopWg == 0 && s.restartWaits > 0
    ensures Run(s, [RestartProceeds, RestartDecides, RunStart(FreshStart, true)], t, retries)
    ensures RunsUnder(t, s.next, Spawned) && t.retryLeft == retries
  {
    IdleIsQuiet(s, retries);
    hide Inv;
    var s1 := Apply(s, RestartProceeds, retries);
    var s2 := Apply(s1, RestartDecides, retries);
    t := Apply(s2, RunStart(FreshStart, true), retries);
    RunOfThree(s, RestartProceeds, s1, RestartDecides, s2, RunStart(FreshStart, true), t, retries);
  }

  /** A restart of a running process: the child is stopped, the goroutine waits
      until the WaitGroup is free, and a new child is started with all retries. */
  lemma RestartBringsNewChild(s: Proc, m: nat, retries: int) returns (steps: seq<Step>, t: Proc)
    requires retries >= 0 && Inv(s, retries) && RunsUnder(s, m, Watching) && s.stopWg == 1
    ensures RestartPath(m, steps) && Run(s, steps, t, retries)
    ensures RunsUnder(t, s.next, Spawned) && t.retryLeft == retries
  {
    hide Inv, Run, RunsUnder;
    var mid := RestartAsks(s, m, retries);
    var rest := SignalStops(mid, m, true, retries);
    t := RestartStarts(rest, retries);
    RunsJoin(s, [RequestRestart, RestartChecks, RestartRequests], mid,
             [TakesStop(m, true), ChildExits(m), FinishesStop(m)], rest, retries);
    steps := [RequestRestart, RestartChecks, RestartRequests] + [TakesStop(m, true), ChildExits(m), FinishesStop(m)];
    RunsJoin(s, steps, rest, [RestartProceeds, RestartDecides, RunStart(FreshStart, true)], t, retries);
    steps := steps + [RestartProceeds, RestartDecides, RunStart(FreshStart, true)];
  }

  /** The restart goes on after the WaitGroup only when no monitor is counted, and
      when its stop signal found no taker it still waits for that. */
  lemma RestartWaitsForMonitors(s: Proc, retries: int)
    requires Inv(s, retries)
    ensures Enabled(s, RestartProceeds) <==> s.restartWaits > 0 && Counted(s) == {}
    ensures Enabled(s, SendTimesOut(true)) ==>
              var t := Apply(s, SendTimesOut(true), retries);
              t.restartWaits == s.restartWaits + 1 && t.restartSenders == s.restartSenders - 1 && t.state == s.state
  {
    if s.stopWg == 0 { assert |Counted(s)| == 0; }
  }
}
