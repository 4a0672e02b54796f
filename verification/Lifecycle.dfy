/** The life of one supervised process: the callers of start, stop and restart,
    the monitor goroutine of each child, the retry timer, the child itself and
    the WaitGroups, as a state machine over atomic steps. */
module Lifecycle {
  import opened Wrappers

  datatype FSMState = Running | Stopped | Fatal | RetryWait | Stopping

  /** Where the goroutine that watches one child stands. */
  datatype Phase =
    | Spawned    // started, WaitGroups not yet incremented
    | Watching   // waiting for the exit or for a stop signal
    | Killing    // inside stopCommand, waiting for the child to end
    | FatalSet   // state set to Fatal, WaitGroups not yet decremented
    | RetrySet   // state set to RetryWait, WaitGroups not yet decremented
    | Delaying   // waiting for the retry timer or for a stop signal

  /** A caller of start that has read the state and picked its handler. */
  datatype Handler = FreshStart | PlainStart

  /** Children and their monitors carry the number of the command that made
      them.  Blocked senders on stopC, callers about to start, and restart
      goroutines by position are counted. */
  datatype Proc = Proc(
    state: FSMState,
    cmd: Option<nat>,
    retryLeft: int,
    live: set<nat>,
    monitors: map<nat, Phase>,
    stopWg: int,
    senders: nat,
    freshStarts: nat,
    plainStarts: nat,
    restartChecks: nat,
    restartRequests: nat,
    restartSenders: nat,
    restartWaits: nat,
    restartStarts: nat,
    next: nat)

  /** How long a child lived: below StartSeconds, in between, 600 s and more. */
  datatype Lifetime = Quick | Normal | Long

  datatype Step =
    | DecideStart                        // Operate(StartEvent) reads the state
    | RunStart(handler: Handler, ok: bool)
    | RequestStop                        // Operate(StopEvent)
    | SendTimesOut(ofRestart: bool)
    | RequestRestart                     // Operate(RestartEvent)
    | RestartChecks
    | RestartRequests
    | RestartProceeds                    // stopWg.Wait returns
    | RestartDecides                     // Operate(StartEvent) of the goroutine
    | AddsToGroups(m: nat)
    | ChildExits(m: nat)
    | SeesExit(m: nat, lived: Lifetime)
    | LeavesGroups(m: nat)
    | TimerFires(m: nat, ok: bool)
    | TakesStop(m: nat, ofRestart: bool)
    | FinishesStop(m: nat)

  function Init(retries: int): Proc {
    Proc(Stopped, None, retries, {}, map[], 0, 0, 0, 0, 0, 0, 0, 0, 0, 0)
  }

  // ----- the code between two blocking points -----

  /** startCommand, with the outcome of cmd.Start. */
  function StartCommand(s: Proc, ok: bool): Proc {
    if ok then
      s.(cmd := Some(s.next), state := Running, live := s.live + {s.next},
         monitors := s.monitors[s.next := Spawned], next := s.next + 1)
    else
      s.(cmd := Some(s.next), state := Fatal, next := s.next + 1)
  }

  function Without(monitors: map<nat, Phase>, m: nat): map<nat, Phase> {
    map k | k in monitors && k != m :: monitors[k]
  }

  /** waitNextRetry up to the WaitGroup calls. */
  function WaitNextRetry(s: Proc, m: nat, retries: int): Proc {
    if s.retryLeft <= 0 then s.(retryLeft := retries, state := Fatal, monitors := s.monitors[m := FatalSet])
    else s.(state := RetryWait, monitors := s.monitors[m := RetrySet])
  }

  /** The exit branch of the monitor's select. */
  function SeeExit(s: Proc, m: nat, lived: Lifetime, retries: int): Proc {
    if lived.Quick? && s.retryLeft == retries then
      s.(state := Fatal, monitors := s.monitors[m := FatalSet])
    else
      var left := if lived.Long? then s.retryLeft + 1 else s.retryLeft;
      WaitNextRetry(s.(retryLeft := left, cmd := None), m, retries)
  }

  /** stopCommand up to the wait for the child. */
  function BeginStop(s: Proc, m: nat): Proc {
    if s.cmd == None then s.(state := Stopped, monitors := Without(s.monitors, m))
    else s.(state := Stopping, monitors := s.monitors[m := Killing])
  }

  // ----- steps -----

  function At(s: Proc, m: nat, phase: Phase): bool {
    m in s.monitors && s.monitors[m] == phase
  }

  predicate Enabled(s: Proc, step: Step) {
    match step
    case DecideStart => true
    case RunStart(handler, _) => if handler.FreshStart? then s.freshStarts > 0 else s.plainStarts > 0
    case RequestStop => true
    case SendTimesOut(ofRestart) => if ofRestart then s.restartSenders > 0 else s.senders > 0
    case RequestRestart => true
    case RestartChecks => s.restartChecks > 0
    case RestartRequests => s.restartRequests > 0
    case RestartProceeds => s.restartWaits > 0 && s.stopWg == 0
    case RestartDecides => s.restartStarts > 0
    case AddsToGroups(m) => At(s, m, Spawned)
    case ChildExits(m) => m in s.live
    case SeesExit(m, _) => At(s, m, Watching) && m !in s.live
    case LeavesGroups(m) => At(s, m, FatalSet) || At(s, m, RetrySet)
    case TimerFires(m, _) => At(s, m, Delaying)
    case TakesStop(m, ofRestart) =>
      (At(s, m, Watching) || At(s, m, Delaying)) && (if ofRestart then s.restartSenders > 0 else s.senders > 0)
    case FinishesStop(m) => At(s, m, Killing) && m !in s.live
  }

  /** Operate(StartEvent): the handler table has a start for Stopped and Fatal. */
  function Decide(s: Proc): Proc {
    if s.state == Stopped then s.(freshStarts := s.freshStarts + 1)
    else if s.state == Fatal then s.(plainStarts := s.plainStarts + 1)
    else s
  }

  function Apply(s: Proc, step: Step, retries: int): Proc
    requires Enabled(s, step)
  {
    match step
    case DecideStart => Decide(s)
    case RunStart(FreshStart, ok) =>
      StartCommand(s.(freshStarts := s.freshStarts - 1, retryLeft := retries), ok)
    case RunStart(PlainStart, ok) => StartCommand(s.(plainStarts := s.plainStarts - 1), ok)
    case RequestStop => if s.state == Running then s.(senders := s.senders + 1) else s
    case SendTimesOut(ofRestart) =>
      if ofRestart then s.(restartSenders := s.restartSenders - 1, restartWaits := s.restartWaits + 1)
      else s.(senders := s.senders - 1)
    case RequestRestart => if s.state == Running then s.(restartChecks := s.restartChecks + 1) else s
    case RestartChecks =>
      var s' := s.(restartChecks := s.restartChecks - 1);
      if s.state == Running || s.state == RetryWait then s'.(restartRequests := s.restartRequests + 1) else s'
    case RestartRequests =>
      var s' := s.(restartRequests := s.restartRequests - 1);
      if s.state == Running then s'.(restartSenders := s.restartSenders + 1)
      else s'.(restartWaits := s.restartWaits + 1)
    case RestartProceeds =>
      s.(restartWaits := s.restartWaits - 1, restartStarts := s.restartStarts + 1)
    case RestartDecides => Decide(s.(restartStarts := s.restartStarts - 1))
    case AddsToGroups(m) => s.(stopWg := s.stopWg + 1, monitors := s.monitors[m := Watching])
    case ChildExits(m) => s.(live := s.live - {m})
    case SeesExit(m, lived) => SeeExit(s, m, lived, retries)
    case LeavesGroups(m) =>
      if s.monitors[m] == FatalSet then s.(stopWg := s.stopWg - 1, monitors := Without(s.monitors, m))
      else s.(stopWg := s.stopWg - 1, retryLeft := s.retryLeft - 1, monitors := s.monitors[m := Delaying])
    case TimerFires(m, ok) => StartCommand(s.(monitors := Without(s.monitors, m)), ok)
    case TakesStop(m, ofRestart) =>
      BeginStop(if ofRestart then s.(restartSenders := s.restartSenders - 1, restartWaits := s.restartWaits + 1)
                else s.(senders := s.senders - 1), m)
    case FinishesStop(m) =>
      s.(state := Stopped, stopWg := s.stopWg - 1, cmd := None, monitors := Without(s.monitors, m))
  }
}
