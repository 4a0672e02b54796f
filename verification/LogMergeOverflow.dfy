/** A run that loses a buffer: more callers of WriteStrLine hold buffers at once
    than the pool has room for when the drainer gives them back. */
module LogMergeOverflow {
  import opened Wrappers
  import opened LogMerge
  import opened LogMergeSafety

  // ----- joining runs -----

  lemma {:induction false} RunsJoin(s: State, a: seq<Step>, t: State, b: seq<Step>, u: State)
    requires Run(s, a, t) && Run(t, b, u)
    ensures Run(s, a + b, u)
    decreases |a|
  {
    hide Enabled, Apply;
    if a == [] {
      assert a + b == b;
    } else {
      assert (a + b)[1..] == a[1..] + b;
      RunsJoin(Apply(s, a[0]), a[1..], t, b, u);
    }
  }

  lemma {:induction false} OverflowJoins(s: State, a: seq<Step>, t: State, b: seq<Step>)
    requires Run(s, a, t) && Overflows(t, b)
    ensures Overflows(s, a + b)
    decreases |a|
  {
    hide Enabled, Apply, Overflow;
    if a == [] {
      assert a + b == b;
    } else {
      assert (a + b)[1..] == a[1..] + b;
      OverflowJoins(Apply(s, a[0]), a[1..], t, b);
    }
  }

  lemma OneStep(s: State, step: Step)
    requires Enabled(s, step)
    ensures Run(s, [step], Apply(s, step))
  {
    hide Enabled, Apply;
    var next := Apply(s, step);
    assert [step][1..] == [];
    assert Run(next, [], next);
  }

  /** One more step at the end of a run. */
  lemma StepJoins(s: State, a: seq<Step>, t: State, step: Step)
    requires Run(s, a, t) && Enabled(t, step)
    ensures Run(s, a + [step], Apply(t, step))
  {
    hide Enabled, Apply, Run;
    OneStep(t, step);
    RunsJoin(s, a, t, [step], Apply(t, step));
  }

  // ----- every caller gets a buffer -----

  /** Callers k to n - 1 hold a buffer each and have yet to write; nothing is in
      the channel or with the drainer, and the pool holds k buffers. */
  ghost predicate Holding(s: State, n: nat, k: nat) {
    && (forall a: nat | k <= a < n ::
          a in s.agents && s.agents[a] == Caller([], Heading, Some(a)) && a in s.heap)
    && s.channel == [] && s.drain == Waiting && |s.pool| == k
  }

  /** Agents and buffers are numbered alike. */
  ghost predicate Numbered(s: State, n: nat) {
    s.next == n && forall a | a in s.agents :: a < n
  }

  lemma NextGets(s: State, n: nat)
    requires Holding(s, n, 0) && Numbered(s, n)
    ensures Enabled(s, NewCaller(n, [])) && Enabled(Apply(s, NewCaller(n, [])), Get(n))
    ensures var t := Apply(Apply(s, NewCaller(n, [])), Get(n));
            Holding(t, n + 1, 0) && Numbered(t, n + 1)
  {}

  lemma {:induction false} AllGet(n: nat) returns (steps: seq<Step>, t: State)
    ensures Run(Init(), steps, t) && Holding(t, n, 0) && Numbered(t, n)
  {
    if n == 0 {
      steps, t := [], Init();
    } else {
      var s: State;
      steps, s := AllGet(n - 1);
      NextGets(s, n - 1);
      hide Run, Holding, Numbered, Enabled, Apply;
      var s1 := Apply(s, NewCaller(n - 1, []));
      StepJoins(Init(), steps, s, NewCaller(n - 1, []));
      steps := steps + [NewCaller(n - 1, [])];
      StepJoins(Init(), steps, s1, Get(n - 1));
      steps, t := steps + [Get(n - 1)], Apply(s1, Get(n - 1));
    }
  }

  // ----- every buffer comes back -----

  /** Buffer k is with the drainer; callers k + 1 to n - 1 still hold theirs. */
  ghost predicate Draining(s: State, n: nat, k: nat) {
    && (forall a: nat | k < a < n ::
          a in s.agents && s.agents[a] == Caller([], Heading, Some(a)) && a in s.heap)
    && s.channel == [] && s.drain == Taken(k) && k in s.heap && |s.pool| == k
  }

  /** The text is appended and the buffer sent and received. */
  lemma Handover(s: State, n: nat, k: nat)
    requires Holding(s, n, k) && k < n
    ensures Enabled(s, Append(k)) && Enabled(Apply(s, Append(k)), Send(k))
    ensures Enabled(Apply(Apply(s, Append(k)), Send(k)), Receive)
    ensures Draining(Apply(Apply(Apply(s, Append(k)), Send(k)), Receive), n, k)
  {
    hide EntryOf;
  }

  lemma Drained(s: State, n: nat, k: nat)
    requires Draining(s, n, k) && k < n
    ensures Enabled(s, Output) && Enabled(Apply(s, Output), PutBack) && Apply(s, Output).pool == s.pool
    ensures k < POOL_SIZE ==> Holding(Apply(Apply(s, Output), PutBack), n, k + 1)
  {}

  lemma DrainingPool(s: State, n: nat, k: nat)
    requires Draining(s, n, k)
    ensures |s.pool| == k
  {}

  /** The way of buffer k through the channel and the drainer, up to the moment
      before it is put back. */
  lemma Travel(s: State, n: nat, k: nat) returns (steps: seq<Step>, t: State)
    requires Holding(s, n, k) && k < n
    ensures Run(s, steps, t) && Enabled(t, PutBack) && |t.pool| == k
    ensures k < POOL_SIZE ==> Holding(Apply(t, PutBack), n, k + 1)
  {
    assert Run(s, [], s);
    hide Run, Holding, Draining, Enabled, Apply;
    Handover(s, n, k);
    var s1 := Apply(s, Append(k));
    var s2 := Apply(s1, Send(k));
    var s3 := Apply(s2, Receive);
    Drained(s3, n, k);
    DrainingPool(s3, n, k);
    t := Apply(s3, Output);
    StepJoins(s, [], s, Append(k));
    StepJoins(s, [] + [Append(k)], s1, Send(k));
    StepJoins(s, [] + [Append(k)] + [Send(k)], s2, Receive);
    StepJoins(s, [] + [Append(k)] + [Send(k)] + [Receive], s3, Output);
    steps := [] + [Append(k)] + [Send(k)] + [Receive] + [Output];
  }

  lemma {:induction false} AllReturn(s: State, n: nat, k: nat) returns (steps: seq<Step>, t: State)
    requires Holding(s, n, 0) && k <= n && k <= POOL_SIZE
    ensures Run(s, steps, t) && Holding(t, n, k)
  {
    if k == 0 {
      steps, t := [], s;
    } else {
      var s1, s2: State;
      var more: seq<Step>;
      steps, s1 := AllReturn(s, n, k - 1);
      hide Run, Holding, Enabled, Apply;
      more, s2 := Travel(s1, n, k - 1);
      RunsJoin(s, steps, s1, more, s2);
      steps := steps + more;
      StepJoins(s, steps, s2, PutBack);
      steps, t := steps + [PutBack], Apply(s2, PutBack);
    }
  }

  lemma OverflowNow(s: State)
    requires Enabled(s, PutBack) && |s.pool| == POOL_SIZE
    ensures Overflows(s, [PutBack])
  {}

  /** One caller more than the pool has room for: the last buffer is given up. */
  lemma BuffersCanBeLost() returns (steps: seq<Step>, t: State)
    ensures Run(Init(), steps, t) && Overflows(Init(), steps) && !NoneDropped(t)
  {
    var n := POOL_SIZE + 1;
    var s1, s2, s3: State;
    var back, last: seq<Step>;
    InitInv();
    hide Run, Holding, Enabled, Apply, Inv, Overflows, NoneDropped;
    steps, s1 := AllGet(n);
    back, s2 := AllReturn(s1, n, POOL_SIZE);
    last, s3 := Travel(s2, n, POOL_SIZE);
    RunsJoin(Init(), steps, s1, back, s2);
    RunsJoin(Init(), steps + back, s2, last, s3);
    OverflowNow(s3);
    OverflowJoins(Init(), steps + back + last, s3, [PutBack]);
    StepJoins(Init(), steps + back + last, s3, PutBack);
    steps, t := steps + back + last + [PutBack], Apply(s3, PutBack);
    RunDropsOnlyOnOverflow(Init(), steps, t);
  }
}
