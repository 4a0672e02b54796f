/** The queue of start and stop requests of a process. */
module PendingActions {

  datatype ProcessState = StateStopped | StateFatal | StateRetryWait | StateStopping | StateRunning

  datatype ProcessAction = ActionNone | ActionStop | ActionStart

  /** The states in which the process counts as running. */
  predicate Up(state: ProcessState) {
    state == StateRunning || state == StateRetryWait
  }

  function Last(list: seq<ProcessAction>): ProcessAction {
    if |list| > 0 then list[|list| - 1] else ActionNone
  }

  function First(list: seq<ProcessAction>): ProcessAction {
    if |list| > 0 then list[0] else ActionNone
  }

  function DropLast(list: seq<ProcessAction>): seq<ProcessAction> {
    if |list| > 0 then list[..|list| - 1] else []
  }

  /** The queue after a request, by the branches of AddAction. */
  function Added(state: ProcessState, list: seq<ProcessAction>, action: ProcessAction): seq<ProcessAction> {
    if !Up(state) then
      if action == ActionStop then
        if Last(list) == ActionStart then DropLast(list) else list
      else if Last(list) != ActionStart then
        if |list| >= 2 then DropLast(list) else list + [ActionStart]
      else list
    else if action == ActionStart then
      if Last(list) == ActionStop then list + [ActionStart] else list
    else if |list| >= 2 then DropLast(list)
    else if Last(list) != ActionStop then list + [ActionStop]
    else list
  }

  // ----- runs -----

  /** Requests arrive; a running process pops a Stop and begins to stop; a process
      that is down drops a Stop or pops a Start and runs; and a process changes
      between the other states by itself without touching the queue. */
  datatype Step =
    | Request(action: ProcessAction)
    | Pop
    | Moves(to: ProcessState)

  datatype Machine = Machine(state: ProcessState, list: seq<ProcessAction>)

  predicate Enabled(m: Machine, step: Step) {
    match step
    case Request(action) => action != ActionNone
    case Pop => m.list != []
    case Moves(to) => Up(to) ==> Up(m.state)
  }

  function Apply(m: Machine, step: Step): Machine
    requires Enabled(m, step)
  {
    match step
    case Request(action) => Machine(m.state, Added(m.state, m.list, action))
    case Pop =>
      var state := if m.list[0] == ActionStart then StateRunning
                   else if Up(m.state) then StateStopping else m.state;
      Machine(state, m.list[1..])
    case Moves(to) => Machine(to, m.list)
  }

  ghost predicate Run(m: Machine, steps: seq<Step>, n: Machine)
    decreases |steps|
  {
    if steps == [] then m == n
    else Enabled(m, steps[0]) && Run(Apply(m, steps[0]), steps[1..], n)
  }

  /** At most two actions, Stop before Start, and nothing to start when running. */
  predicate Orderly(m: Machine) {
    || m.list == []
    || m.list == [ActionStop]
    || m.list == [ActionStop, ActionStart]
    || (m.list == [ActionStart] && !Up(m.state))
  }

  lemma {:induction false} RunKeepsOrder(m: Machine, steps: seq<Step>, n: Machine)
    requires Orderly(m) && Run(m, steps, n)
    ensures Orderly(n)
    decreases |steps|
  {
    if steps != [] {
      var next := Apply(m, steps[0]);
      assert Orderly(next);
      RunKeepsOrder(next, steps[1..], n);
    }
  }

  /** Where the process ends up when the queue is drained. */
  function Outcome(m: Machine): bool
    decreases |m.list|
  {
    if m.list == [] then Up(m.state) else Outcome(Apply(m, Pop))
  }

  lemma OutcomeByLast(m: Machine)
    requires Orderly(m)
    ensures Outcome(m) == if m.list == [] then Up(m.state) else Last(m.list) == ActionStart
  {
    if m.list == [ActionStop, ActionStart] {
      var n := Apply(m, Pop);
      assert n.list == [ActionStart];
      var o := Apply(n, Pop);
      assert o.list == [] && Outcome(n) == Outcome(o);
    } else if m.list != [] {
      var n := Apply(m, Pop);
      assert n.list == [] && Outcome(m) == Outcome(n);
    }
  }

  /** In every run the last request decides where draining the queue ends, and
      repeating it changes nothing. */
  lemma LastRequestDecides(steps: seq<Step>, m: Machine, action: ProcessAction)
    requires Run(Machine(StateStopped, []), steps, m) && action != ActionNone
    ensures Orderly(m) && |m.list| <= 2
    ensures var n := Apply(m, Request(action));
            && Outcome(n) == (action == ActionStart)
            && Apply(n, Request(action)) == n
  {
    RunKeepsOrder(Machine(StateStopped, []), steps, m);
    var n := Apply(m, Request(action));
    assert Orderly(n);
    OutcomeByLast(n);
  }

  /** The queue after a request, from what draining it would do: untouched if that
      is what is asked for; otherwise a Start at its end is withdrawn, or else the
      action is appended. */
  function Corrected(m: Machine, action: ProcessAction): seq<ProcessAction> {
    if Outcome(m) == (action == ActionStart) then m.list
    else if Last(m.list) == ActionStart then DropLast(m.list)
    else m.list + [action]
  }

  /** The branches of AddAction amount to that correction. */
  lemma AddedIsCorrection(m: Machine, action: ProcessAction)
    requires Orderly(m) && action != ActionNone
    ensures Added(m.state, m.list, action) == Corrected(m, action)
    ensures var n := Machine(m.state, Added(m.state, m.list, action));
            Orderly(n) && Outcome(n) == (action == ActionStart)
  {
    OutcomeByLast(m);
    var n := Machine(m.state, Added(m.state, m.list, action));
    assert Orderly(n);
    OutcomeByLast(n);
  }

  // ----- the object -----

  class StateMachine {
    var list: seq<ProcessAction>
    var State: ProcessState

    constructor ()
      ensures list == [] && State == StateStopped
    {
      list := [];
      State := StateStopped;
    }

    method LastAction() returns (action: ProcessAction)
      ensures action == Last(list)
    {
      if |list| > 0 {
        action := list[|list| - 1];
      } else {
        action := ActionNone;
      }
    }

    method PopNextAction() returns (action: ProcessAction)
      modifies `list
      ensures action == First(old(list))
      ensures list == if |old(list)| > 0 then old(list)[1..] else []
    {
      if |list| > 0 {
        action := list[0];
        list := list[1..];
      } else {
        action := ActionNone;
      }
    }

    ghost function Now(): Machine
      reads this
    {
      Machine(State, list)
    }

    /** A request changes an orderly queue only where draining it would not end as
        requested: then a pending Start is withdrawn or the action is appended.
        The queue stays orderly, and draining it ends as requested. */
    method AddAction(action: ProcessAction)
      modifies `list
      ensures list == Added(State, old(list), action)
      ensures Orderly(old(Now())) && action != ActionNone ==>
                && Orderly(Now()) && Outcome(Now()) == (action == ActionStart)
                && list == Corrected(old(Now()), action)
      ensures old(list) == [] && action == ActionStart ==>
                list == if State in {StateStopped, StateFatal, StateStopping} then [ActionStart] else []
      ensures old(list) == [] && action == ActionStop ==>
                list == if State in {StateRunning, StateRetryWait} then [ActionStop] else []
    {
      if Orderly(Now()) && action != ActionNone { AddedIsCorrection(Now(), action); }
      hide Orderly, Outcome, Corrected;
      var last := LastAction();
      match State
      case StateStopping | StateStopped | StateFatal =>
        if action == ActionStop {
          if last == ActionStart {
            if |list| >= 1 { list := list[..|list| - 1]; }
          }
        } else {
          if last != ActionStart {
            if |list| >= 2 {
              list := list[..|list| - 1];
            } else {
              list := list + [ActionStart];
            }
          }
        }
      case StateRetryWait | StateRunning =>
        if action == ActionStart {
          if last == ActionStop {
            list := list + [ActionStart];
          }
        } else {
          if |list| >= 2 {
            list := list[..|list| - 1];
          } else if last != ActionStop {
            list := list + [ActionStop];
          }
        }
    }
  }
}
