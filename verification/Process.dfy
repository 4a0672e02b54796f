/** The Process object: its fields, its event table, and the code between two
    blocking points of its goroutines.  Each method performs one step of the
    life-cycle machine, keeps what the machine keeps, and says what the caller
    then knows about child, monitor, command and WaitGroup. */
module Process {
  import opened Wrappers
  import opened Lifecycle
  import opened LifecycleSafety
  import opened LifecycleStarts
  import opened LifecycleProgress

  datatype FSMEvent = StartEvent | StopEvent | RestartEvent

  /** The closures that NewProcess registers. */
  datatype EventHandler = StartFresh | StartAgain | SendStop | SpawnRestart

  type HandlerTable = map<FSMState, map<FSMEvent, EventHandler>>

  /** The handler that a state has for an event, if any. */
  function Lookup(table: HandlerTable, state: FSMState, event: FSMEvent): Option<EventHandler> {
    if state in table && event in table[state] then Some(table[state][event]) else None
  }

  /** Exactly four entries. */
  ghost predicate StandardTable(table: HandlerTable) {
    forall s, e :: Lookup(table, s, e) == (
      if e == StartEvent && s == Stopped then Some(StartFresh)
      else if e == StartEvent && s == Fatal then Some(StartAgain)
      else if e == StopEvent && s == Running then Some(SendStop)
      else if e == RestartEvent && s == Running then Some(SpawnRestart)
      else None)
  }

  lemma EmptyTable()
    ensures forall s, e :: Lookup(map[], s, e) == None
  {}

  // ----- what a step means to a caller -----

  /** A monitor is active and not stopping its child. */
  ghost predicate Supervised(s: Proc) {
    exists m :: m in s.monitors && Active(s.monitors[m]) && s.monitors[m] != Killing
  }

  /** A monitor stands where it can receive a stop signal, or will soon. */
  ghost predicate ChildRuns(s: Proc) {
    exists m :: m in s.monitors && (s.monitors[m] == Spawned || s.monitors[m] == Watching)
  }

  /** No goroutine looks after the process any more. */
  ghost predicate Unattended(s: Proc) {
    s.live == {} && forall m | m in s.monitors :: !Active(s.monitors[m])
  }

  lemma StatesMeanMonitors(s: Proc, retries: int)
    requires Inv(s, retries)
    ensures Supervised(s) <==> s.state == Running || s.state == RetryWait
    ensures ChildRuns(s) <==> s.state == Running
    ensures Unattended(s) <==> s.state == Stopped || s.state == Fatal
  {}

  /** The one child, if there is any, is the one behind the command, and only its
      monitor is active. */
  ghost predicate Runs(s: Proc, ok: bool) {
    && s.cmd.Some? && s.live == (if ok then {s.cmd.value} else {}) && s.state == (if ok then Running else Fatal)
    && (forall m | m in s.monitors && Active(s.monitors[m]) :: ok && m == s.cmd.value)
    && (ok ==> s.cmd.value in s.monitors && Active(s.monitors[s.cmd.value]))
  }

  lemma AfterStart(s: Proc, ok: bool, retries: int)
    requires Quiet(s, retries)
    ensures Inv(StartCommand(s, ok), retries) && Runs(StartCommand(s, ok), ok)
  {
    StartKeepsInv(s, ok, retries);
  }

  lemma AfterTimer(s: Proc, m: nat, ok: bool, retries: int)
    requires Inv(s, retries) && At(s, m, Delaying)
    ensures Runs(Apply(s, TimerFires(m, ok), retries), ok)
  {
    var q := s.(monitors := Without(s.monitors, m));
    assert Counted(q) == Counted(s);
    AfterStart(q, ok, retries);
  }

  lemma AfterJoin(s: Proc, m: nat, retries: int)
    requires Inv(s, retries) && At(s, m, Spawned)
    ensures var t := Apply(s, AddsToGroups(m), retries);
            m in Counted(t) && m !in Counted(s) && t.cmd == Some(m)
  {}

  /** After an exit the monitor is still counted, and a wait for a retry means that
      there is one. */
  lemma AfterExit(s: Proc, m: nat, lived: Lifetime, retries: int)
    requires retries >= 0 && Inv(s, retries) && Enabled(s, SeesExit(m, lived))
    ensures var t := Apply(s, SeesExit(m, lived), retries);
            && m in Counted(t) && (t.state == RetryWait ==> t.retryLeft >= 1)
            && (t.retryLeft > retries <==> lived.Long? && s.retryLeft == retries)
  {
    SeeExitKeepsInv(s, m, lived, retries);
  }

  lemma AfterLeaving(s: Proc, m: nat, retries: int)
    requires Inv(s, retries) && Enabled(s, LeavesGroups(m))
    ensures var t := Apply(s, LeavesGroups(m), retries);
            && m in Counted(s) && m !in Counted(t)
            && (if At(s, m, RetrySet) then
                  0 <= t.retryLeft <= retries && t.retryLeft == s.retryLeft - 1 && t.state == RetryWait
                else t.retryLeft == s.retryLeft && t.state == s.state)
  {}

  /** A stop signal reaches the monitor's own child, or ends the wait. */
  lemma AfterStopSignal(s: Proc, m: nat, ofRestart: bool, retries: int)
    requires retries >= 0 && Inv(s, retries) && Enabled(s, TakesStop(m, ofRestart))
    ensures var t := Apply(s, TakesStop(m, ofRestart), retries);
            if At(s, m, Watching) then t.state == Stopping && t.cmd == Some(m) && t.live <= {m}
            else t.state == Stopped && Unattended(t)
  {
    TimelyStepKeepsInv(s, TakesStop(m, ofRestart), retries);
  }

  lemma AfterStop(s: Proc, m: nat, retries: int)
    requires Inv(s, retries) && Enabled(s, FinishesStop(m))
    ensures var t := Apply(s, FinishesStop(m), retries);
            t.state == Stopped && Unattended(t) && m in Counted(s) && m !in Counted(t)
  {}

  class Process {
    // The finite-state machine and the record of it that clients see.
    var handlers: HandlerTable
    var state: FSMState
    var status: FSMState
    // The fields of the process proper.
    var cmd: Option<nat>
    var retryLeft: int
    var stopWg: int
    const startRetries: int
    // Goroutines and children.
    var live: set<nat>
    var monitors: map<nat, Phase>
    var senders: nat
    var freshStarts: nat
    var plainStarts: nat
    var restartChecks: nat
    var restartRequests: nat
    var restartSenders: nat
    var restartWaits: nat
    var restartStarts: nat
    var next: nat

    ghost function View(): Proc
      reads this
    {
      Proc(state, cmd, retryLeft, live, monitors, stopWg, senders, freshStarts, plainStarts,
           restartChecks, restartRequests, restartSenders, restartWaits, restartStarts, next)
    }

    /** Clients see the current state, and the table is the standard one. */
    ghost predicate Wired()
      reads this
    {
      status == state && StandardTable(handlers)
    }

    /** The object satisfies all that runs of the machine keep. */
    ghost predicate Valid()
      reads this
    {
      Wired() && startRetries >= 0 && Inv(View(), startRetries)
    }

    /** What a valid process looks like from outside. */
    lemma ValidIsSafe()
      requires Valid()
      ensures ChildSafe(View()) && 0 <= stopWg == |Counted(View())|
      ensures Supervised(View()) <==> state == Running || state == RetryWait
      ensures Unattended(View()) <==> state == Stopped || state == Fatal
      ensures forall m: nat | At(View(), m, Watching) || At(View(), m, Killing) :: cmd == Some(m)
      ensures 0 <= retryLeft <= startRetries + 1
    {
      InvIsChildSafe(View(), startRetries);
      StatesMeanMonitors(View(), startRetries);
    }

    constructor (startRetries: int)
      ensures Wired() && View() == Init(startRetries) && this.startRetries == startRetries
      ensures startRetries >= 0 ==> Valid()
    {
      state, status := Stopped, Stopped;
      cmd, retryLeft, stopWg := None, startRetries, 0;
      this.startRetries := startRetries;
      live, monitors, next := {}, map[], 0;
      senders, freshStarts, plainStarts := 0, 0, 0;
      restartChecks, restartRequests, restartSenders, restartWaits, restartStarts := 0, 0, 0, 0, 0;
      handlers := map[];
      new;
      AddStandardHandlers();
      if startRetries >= 0 { InitInv(startRetries); }
    }

    /** The registrations of NewProcess; none of them panics. */
    method AddStandardHandlers()
      requires handlers == map[]
      modifies `handlers
      ensures StandardTable(handlers)
    {
      hide Lookup;
      EmptyTable();
      var p1 := AddHandler(Stopped, StartEvent, StartFresh);
      var p2 := AddHandler(Fatal, StartEvent, StartAgain);
      var p3 := AddHandler(Running, StopEvent, SendStop);
      var p4 := AddHandler(Running, RestartEvent, SpawnRestart);
      assert !p1 && !p2 && !p3 && !p4;
    }

    /** A second handler for the same state and event is a panic. */
    method AddHandler(s: FSMState, event: FSMEvent, handler: EventHandler) returns (panicked: bool)
      modifies `handlers
      ensures panicked <==> Lookup(old(handlers), s, event).Some?
      ensures panicked ==> forall s', e' :: Lookup(handlers, s', e') == Lookup(old(handlers), s', e')
      ensures !panicked ==> forall s', e' ::
                Lookup(handlers, s', e') == (if s' == s && e' == event then Some(handler) else Lookup(old(handlers), s', e'))
    {
      if s !in handlers {
        handlers := handlers[s := map[]];
      }
      if event in handlers[s] { return true; }
      handlers := handlers[s := handlers[s][event := handler]];
      return false;
    }

    method SetState(newState: FSMState)
      modifies `state, `status
      ensures state == newState && status == newState
    {
      status := newState;
      state := newState;
    }

    /** What Operate does before the handler runs: read the state, look up.  A
        valid process offers a start exactly when nothing looks after it, and a
        stop or restart exactly when a child is supposed to run. */
    method Dispatch(event: FSMEvent) returns (handler: Option<EventHandler>)
      ensures handler == Lookup(handlers, state, event)
      ensures Valid() ==> (handler.Some? <==> if event == StartEvent then Unattended(View()) else ChildRuns(View()))
    {
      handler := None;
      if state in handlers {
        var eventMap := handlers[state];
        if event in eventMap {
          handler := Some(eventMap[event]);
        }
      }
      if Valid() { StatesMeanMonitors(View(), startRetries); }
      hide Inv, Supervised, ChildRuns, Unattended;
    }

    /** Operate(StartEvent): the caller holds the handler it found, and finds one
        exactly when nothing looks after the process. */
    method OperateStart()
      requires Wired()
      modifies this
      ensures Wired() && View() == Apply(old(View()), DecideStart, startRetries)
      ensures old(Valid()) ==> Valid()
      ensures old(Valid()) ==>
                freshStarts + plainStarts == old(freshStarts + plainStarts) + if old(Unattended(View())) then 1 else 0
    {
      hide Inv, Unattended, ChildRuns, Supervised;
      if Valid() {
        TimelyStepKeepsInv(View(), DecideStart, startRetries);
        StatesMeanMonitors(View(), startRetries);
      }
      var handler := Dispatch(StartEvent);
      if handler == Some(StartFresh) {
        freshStarts := freshStarts + 1;
      } else if handler == Some(StartAgain) {
        plainStarts := plainStarts + 1;
      }
    }

    /** Operate(StopEvent): the caller blocks on stopC. */
    method OperateStop()
      requires Wired()
      modifies this
      ensures Wired() && View() == Apply(old(View()), RequestStop, startRetries)
      ensures old(Valid()) ==> Valid()
      ensures old(Valid()) ==> senders == old(senders) + if old(ChildRuns(View())) then 1 else 0
    {
      hide Inv, Unattended, ChildRuns, Supervised;
      if Valid() {
        TimelyStepKeepsInv(View(), RequestStop, startRetries);
        StatesMeanMonitors(View(), startRetries);
      }
      var handler := Dispatch(StopEvent);
      if handler == Some(SendStop) {
        senders := senders + 1;
      }
    }

    /** Operate(RestartEvent): a goroutine is spawned. */
    method OperateRestart()
      requires Wired()
      modifies this
      ensures Wired() && View() == Apply(old(View()), RequestRestart, startRetries)
      ensures old(Valid()) ==> Valid()
      ensures old(Valid()) ==> restartChecks == old(restartChecks) + if old(ChildRuns(View())) then 1 else 0
    {
      hide Inv, Unattended, ChildRuns, Supervised;
      if Valid() {
        TimelyStepKeepsInv(View(), RequestRestart, startRetries);
        StatesMeanMonitors(View(), startRetries);
      }
      var handler := Dispatch(RestartEvent);
      if handler == Some(SpawnRestart) {
        restartChecks := restartChecks + 1;
      }
    }

    /** The body of a start handler.  It keeps a valid process valid exactly when
        it still finds it at rest, and then the new child is the only one. */
    method RunStartHandler(handler: Handler, ok: bool)
      requires Wired() && Enabled(View(), RunStart(handler, ok))
      modifies this
      ensures Wired() && View() == Apply(old(View()), RunStart(handler, ok), startRetries)
      ensures old(Valid()) ==> (Valid() <==> old(Unattended(View())))
      ensures old(Valid()) ==> (StaysChildSafe(View(), startRetries) <==> old(Unattended(View())))
      ensures old(Valid() && Unattended(View())) ==> Runs(View(), ok)
      ensures retryLeft == if handler.FreshStart? then startRetries else old(retryLeft)
    {
      hide StandardTable, Inv, Unattended, Runs, StaysChildSafe, Quiet;
      if Valid() {
        StepKeepsInv(View(), RunStart(handler, ok), startRetries);
        TimelyStartIsExact(View(), handler, ok, startRetries);
        StatesMeanMonitors(View(), startRetries);
        if Unattended(View()) { IdleIsQuiet(View(), startRetries); QuietRestart(View(), startRetries); }
      }
      if handler.FreshStart? {
        freshStarts := freshStarts - 1;
        retryLeft := startRetries;
      } else {
        plainStarts := plainStarts - 1;
      }
      RunCommand(ok);
    }

    /** startCommand.  From a quiet process it leads to one child, watched by the
        only active monitor, or to none. */
    method RunCommand(ok: bool)
      requires Wired()
      modifies this
      ensures Wired() && View() == StartCommand(old(View()), ok)
      ensures startRetries >= 0 && old(Quiet(View(), startRetries)) ==> Valid() && Runs(View(), ok)
    {
      hide StandardTable, Inv, Quiet, Runs;
      if Quiet(View(), startRetries) { AfterStart(View(), ok, startRetries); }
      var id := next;
      next := next + 1;
      cmd := Some(id);
      SetState(Running);
      if !ok {
        SetState(Fatal);
        return;
      }
      live := live + {id};
      monitors := monitors[id := Spawned];
    }

    /** Running means that a monitor looks after the process and is not busy
        stopping it. */
    method IsRunning() returns (r: bool)
      ensures r == (state == Running || state == RetryWait)
      ensures Valid() ==> (r <==> Supervised(View()))
    {
      if Valid() { StatesMeanMonitors(View(), startRetries); }
      r := state == Running || state == RetryWait;
    }

    /** The first two lines of the monitor goroutine: from here on it is counted,
        and the command is its own. */
    method MonitorJoinsGroups(m: nat)
      requires Wired() && Enabled(View(), AddsToGroups(m))
      modifies `stopWg, `monitors
      ensures Wired() && View() == Apply(old(View()), AddsToGroups(m), startRetries)
      ensures old(Valid()) ==> Valid() && cmd == Some(m) && old(m !in Counted(View())) && m in Counted(View())
    {
      hide StandardTable, Inv, Counted;
      if Valid() {
        TimelyStepKeepsInv(View(), AddsToGroups(m), startRetries);
        AfterJoin(View(), m, startRetries);
      }
      stopWg := stopWg + 1;
      monitors := monitors[m := Watching];
    }

    /** The errC branch of the monitor, up to the WaitGroup calls. */
    method MonitorSeesExit(m: nat, lived: Lifetime)
      requires Wired() && Enabled(View(), SeesExit(m, lived))
      modifies this
      ensures Wired() && View() == Apply(old(View()), SeesExit(m, lived), startRetries)
      ensures old(Valid()) ==> Valid() && m in Counted(View()) && live == {}
      ensures old(Valid()) ==> (state == RetryWait <==> (lived.Long? || old(retryLeft) > 0)
                                                        && !(lived.Quick? && old(retryLeft) == startRetries))
      ensures old(Valid()) && state == RetryWait ==>
                retryLeft >= 1 && retryLeft == old(retryLeft) + if lived.Long? then 1 else 0
      ensures old(Valid()) && state != RetryWait ==> state == Fatal && retryLeft == startRetries
      ensures old(Valid()) ==> (retryLeft > startRetries <==> lived.Long? && old(retryLeft) == startRetries)
    {
      hide StandardTable, Inv, Counted;
      if Valid() {
        TimelyStepKeepsInv(View(), SeesExit(m, lived), startRetries);
        ExitIsExact(View(), m, lived, startRetries);
        AfterExit(View(), m, lived, startRetries);
      }
      if lived.Quick? {
        if retryLeft == startRetries {
          SetState(Fatal);
          monitors := monitors[m := FatalSet];
          return;
        }
      } else if lived.Long? {
        retryLeft := retryLeft + 1;
      }
      cmd := None;
      StartWaiting(m);
    }

    /** waitNextRetry up to the WaitGroup calls. */
    method StartWaiting(m: nat)
      requires Wired()
      modifies this
      ensures Wired() && View() == WaitNextRetry(old(View()), m, startRetries)
      ensures state == RetryWait ==> retryLeft >= 1
    {
      hide StandardTable;
      if retryLeft <= 0 {
        retryLeft := startRetries;
        SetState(Fatal);
        monitors := monitors[m := FatalSet];
      } else {
        SetState(RetryWait);
        monitors := monitors[m := RetrySet];
      }
    }

    /** stopWg.Done, and the retry that waitNextRetry then takes, which puts the
        retries back within bounds. */
    method MonitorLeavesGroups(m: nat)
      requires Wired() && Enabled(View(), LeavesGroups(m))
      modifies this
      ensures Wired() && View() == Apply(old(View()), LeavesGroups(m), startRetries)
      ensures old(Valid()) ==> Valid() && old(m in Counted(View())) && m !in Counted(View())
      ensures old(Valid() && At(View(), m, RetrySet)) ==>
                state == RetryWait && retryLeft == old(retryLeft) - 1 && 0 <= retryLeft <= startRetries
      ensures old(Valid() && At(View(), m, FatalSet)) ==> state == old(state) && retryLeft == old(retryLeft)
    {
      hide StandardTable, Inv, Counted, Without;
      if Valid() {
        TimelyStepKeepsInv(View(), LeavesGroups(m), startRetries);
        AfterLeaving(View(), m, startRetries);
      }
      stopWg := stopWg - 1;
      if monitors[m] == FatalSet {
        monitors := Without(monitors, m);
      } else {
        retryLeft := retryLeft - 1;
        monitors := monitors[m := Delaying];
      }
    }

    /** The retry timer of waitNextRetry: the new child is the only one. */
    method RetryTimerFires(m: nat, ok: bool)
      requires Wired() && Enabled(View(), TimerFires(m, ok))
      modifies this
      ensures Wired() && View() == Apply(old(View()), TimerFires(m, ok), startRetries)
      ensures old(Valid()) ==> Valid() && Runs(View(), ok)
    {
      hide StandardTable, Inv, Runs, Without;
      if Valid() {
        TimelyStepKeepsInv(View(), TimerFires(m, ok), startRetries);
        AfterTimer(View(), m, ok, startRetries);
      }
      monitors := Without(monitors, m);
      RunCommand(ok);
    }

    /** A stop signal is received: stopCommand up to the wait for the child.  It is
        the monitor's own child that is stopped. */
    method MonitorTakesStop(m: nat, ofRestart: bool)
      requires Wired() && Enabled(View(), TakesStop(m, ofRestart))
      modifies this
      ensures Wired() && View() == Apply(old(View()), TakesStop(m, ofRestart), startRetries)
      ensures old(Valid()) ==> Valid()
      ensures old(Valid() && At(View(), m, Watching)) ==> state == Stopping && cmd == Some(m) && live <= {m}
      ensures old(Valid() && At(View(), m, Delaying)) ==> state == Stopped && Unattended(View())
    {
      hide StandardTable, Inv, Unattended, Without;
      if Valid() {
        TimelyStepKeepsInv(View(), TakesStop(m, ofRestart), startRetries);
        AfterStopSignal(View(), m, ofRestart, startRetries);
      }
      if ofRestart {
        restartSenders := restartSenders - 1;
        restartWaits := restartWaits + 1;
      } else {
        senders := senders - 1;
      }
      StopChild(m);
    }

    /** stopCommand up to the wait for the child. */
    method StopChild(m: nat)
      requires Wired()
      modifies this
      ensures Wired() && View() == BeginStop(old(View()), m)
    {
      hide StandardTable;
      if cmd == None {
        SetState(Stopped);
        monitors := Without(monitors, m);
        return;
      }
      SetState(Stopping);
      monitors := monitors[m := Killing];
    }

    /** The end of stopCommand: nothing looks after the process any more. */
    method MonitorFinishesStop(m: nat)
      requires Wired() && Enabled(View(), FinishesStop(m))
      modifies this
      ensures Wired() && View() == Apply(old(View()), FinishesStop(m), startRetries)
      ensures old(Valid()) ==> Valid() && state == Stopped && Unattended(View())
      ensures old(Valid()) ==> old(m in Counted(View())) && m !in Counted(View())
    {
      hide StandardTable, Inv, Counted, Unattended, Without;
      if Valid() {
        TimelyStepKeepsInv(View(), FinishesStop(m), startRetries);
        AfterStop(View(), m, startRetries);
      }
      SetState(Stopped);
      stopWg := stopWg - 1;
      cmd := None;
      monitors := Without(monitors, m);
    }

    /** The restart goroutine between its blocking points: it gives up unless the
        process is running, asks for a stop exactly while a child is supposed to
        run, and in the end starts exactly a process at rest. */
    method RestartGoroutine(step: Step)
      requires Wired() && Enabled(View(), step)
      requires step.RestartChecks? || step.RestartRequests? || step.RestartProceeds? || step.RestartDecides?
      modifies this
      ensures Wired() && View() == Apply(old(View()), step, startRetries)
      ensures old(Valid()) ==> Valid()
      ensures old(Valid()) && step.RestartChecks? ==>
                restartRequests == old(restartRequests) + if old(Supervised(View())) then 1 else 0
      ensures old(Valid()) && step.RestartRequests? ==>
                if old(ChildRuns(View())) then restartSenders == old(restartSenders) + 1 && restartWaits == old(restartWaits)
                else restartSenders == old(restartSenders) && restartWaits == old(restartWaits) + 1
      ensures old(Valid()) && step.RestartDecides? ==>
                freshStarts + plainStarts == old(freshStarts + plainStarts) + if old(Unattended(View())) then 1 else 0
    {
      hide Inv, Supervised, ChildRuns, Unattended;
      if Valid() {
        TimelyStepKeepsInv(View(), step, startRetries);
        StatesMeanMonitors(View(), startRetries);
      }
      match step
      case RestartChecks =>
        restartChecks := restartChecks - 1;
        var running := IsRunning();
        if running { restartRequests := restartRequests + 1; }
      case RestartRequests =>
        restartRequests := restartRequests - 1;
        var handler := Dispatch(StopEvent);
        if handler == Some(SendStop) {
          restartSenders := restartSenders + 1;
        } else {
          restartWaits := restartWaits + 1;
        }
      case RestartProceeds =>
        restartWaits := restartWaits - 1;
        restartStarts := restartStarts + 1;
      case RestartDecides =>
        restartStarts := restartStarts - 1;
        OperateStart();
    }

    /** The environment: a child exits, or a blocked sender gives up. */
    method Environment(step: Step)
      requires Wired() && Enabled(View(), step)
      requires step.ChildExits? || step.SendTimesOut?
      modifies this
      ensures Wired() && View() == Apply(old(View()), step, startRetries)
      ensures old(Valid()) ==> Valid()
    {
      hide StandardTable, Inv;
      if Valid() { TimelyStepKeepsInv(View(), step, startRetries); }
      match step
      case ChildExits(m) => live := live - {m};
      case SendTimesOut(ofRestart) =>
        if ofRestart {
          restartSenders := restartSenders - 1;
          restartWaits := restartWaits + 1;
        } else {
          senders := senders - 1;
        }
    }

    /** One step, whoever makes it. */
    method Perform(step: Step)
      requires Wired() && Enabled(View(), step)
      modifies this
      ensures Wired() && View() == Apply(old(View()), step, startRetries)
      ensures old(Valid()) ==> (Valid() <==> RunsInTime(old(View()), step))
    {
      hide StandardTable, Inv, Counted, Unattended, Runs, StaysChildSafe, Apply, Enabled, RunsInTime;
      if Valid() { StepKeepsInv(View(), step, startRetries); }
      match step
      case DecideStart => OperateStart();
      case RunStart(handler, ok) => RunStartHandler(handler, ok);
      case RequestStop => OperateStop();
      case SendTimesOut(_) => Environment(step);
      case RequestRestart => OperateRestart();
      case AddsToGroups(m) => MonitorJoinsGroups(m);
      case ChildExits(_) => Environment(step);
      case SeesExit(m, lived) => MonitorSeesExit(m, lived);
      case LeavesGroups(m) => MonitorLeavesGroups(m);
      case TimerFires(m, ok) => RetryTimerFires(m, ok);
      case TakesStop(m, ofRestart) => MonitorTakesStop(m, ofRestart);
      case FinishesStop(m) => MonitorFinishesStop(m);
      case _ => RestartGoroutine(step);
    }

    /** Any sequence of steps that the machine allows, made by the methods above:
        the object goes where the machine goes and is valid at the end. */
    method PerformAll(steps: seq<Step>, ghost t: Proc)
      requires Valid() && Run(View(), steps, t, startRetries)
      modifies this
      ensures Valid() && View() == t && ChildSafe(View())
      decreases |steps|
    {
      hide StandardTable, Inv, ChildSafe, Enabled, Apply;
      if |steps| > 0 {
        Perform(steps[0]);
        PerformAll(steps[1..], t);
      } else {
        ValidIsSafe();
      }
    }

    /** The same without any assumption on when start handlers run, as long as no
        two starts are in flight at once. */
    method PerformSerially(steps: seq<Step>, ghost t: Proc)
      requires Valid() && Serial(View())
      requires FreeRun(View(), steps, t, startRetries) && OneAtATime(View(), steps, startRetries)
      modifies this
      ensures Valid() && View() == t && ChildSafe(View())
    {
      hide StandardTable, Inv, ChildSafe, Serial, FreeRun, Run, OneAtATime;
      SerialRunIsTimely(View(), steps, t, startRetries);
      PerformAll(steps, t);
    }
  }
}
