/** The invariant of the log machine, step by step, and what it means for the
    output. */
module LogMergeSafety {
  import opened Wrappers
  import opened Lines
  import opened LogMerge

  // ----- histories -----

  lemma {:induction false} SentByNone(es: seq<Entry>, a: AgentId)
    requires forall k | 0 <= k < |es| :: es[k].who != a
    ensures SentBy(es, a) == []
  {
    if es != [] { SentByNone(es[..|es| - 1], a); }
  }

  lemma SentBySnoc(es: seq<Entry>, e: Entry, a: AgentId)
    ensures SentBy(es + [e], a) == SentBy(es, a) + if e.who == a then [e.payload] else []
  {
    assert (es + [e])[..|es|] == es;
  }

  lemma ContentsSnoc(es: seq<Entry>, k: nat)
    requires k < |es|
    ensures Contents(es[..k + 1]) == Contents(es[..k]) + Content(es[k])
  {
    assert es[..k + 1][..k] == es[..k];
  }

  /** One entry: the header, then the payload. */
  lemma OneEntry(e: Entry, who: AgentId)
    ensures Contents([e]) == e.header + e.payload
    ensures SentBy([e], who) == if e.who == who then [e.payload] else []
  {
    assert [e][..0] == [];
    assert [] + [e.payload] == [e.payload] && [] + Content(e) == Content(e);
  }

  lemma HistoryUnfold(es: seq<Entry>, who: AgentId)
    requires es != []
    ensures var front, e := es[..|es| - 1], es[|es| - 1];
            && Contents(es) == Contents(front) + Content(e)
            && SentBy(es, who) == SentBy(front, who) + (if e.who == who then [e.payload] else [])
  {}

  lemma Regroup<T>(a: seq<T>, b: seq<T>, c: seq<T>)
    ensures a + b + c == a + (b + c)
  {}

  /** Entries appear one after the other, and each agent's payloads in the order of
      sending. */
  lemma {:induction false} HistoriesJoin(a: seq<Entry>, b: seq<Entry>, who: AgentId)
    ensures Contents(a + b) == Contents(a) + Contents(b)
    ensures SentBy(a + b, who) == SentBy(a, who) + SentBy(b, who)
  {
    if b == [] {
      assert a + b == a;
    } else {
      hide Content, Contents, SentBy;
      var front, e := b[..|b| - 1], b[|b| - 1];
      HistoriesJoin(a, front, who);
      HistoryUnfold(b, who);
      HistoryUnfold(a + b, who);
      assert (a + b)[..|a + b| - 1] == a + front;
      Regroup(Contents(a), Contents(front), Content(e));
      Regroup(SentBy(a, who), SentBy(front, who), if e.who == who then [e.payload] else []);
    }
  }

  // ----- what a step does not touch -----

  /** An agent with the same record, the same buffer content and the same lines
      sent is as well as before. */
  lemma AgentKept(s: State, t: State, a: AgentId)
    requires Owned(s) && Owned(t) && a in s.agents && AgentOk(s, a)
    requires a in t.agents && t.agents[a] == s.agents[a] && SentBy(t.sent, a) == SentBy(s.sent, a)
    requires s.agents[a].own.Some? ==> t.heap[s.agents[a].own.value] == s.heap[s.agents[a].own.value]
    ensures AgentOk(t, a)
  {
    hide SentBy, LinesOf, Rest, WholeLine;
  }

  /** The drainer's steps touch no agent and no buffer of an agent. */
  lemma AgentsKept(s: State, t: State)
    requires Owned(s) && Owned(t) && AgentsOk(s) && t.agents == s.agents && t.sent == s.sent
    requires forall a | a in s.agents && s.agents[a].own.Some? ::
               t.heap[s.agents[a].own.value] == s.heap[s.agents[a].own.value]
    ensures AgentsOk(t)
  {
    hide Owned, AgentOk, SentBy;
    forall a | a in t.agents ensures AgentOk(t, a) { AgentKept(s, t, a); }
  }

  lemma SendersKept(s: State, t: State)
    requires SendersKnown(s) && t.sent == s.sent && t.agents.Keys >= s.agents.Keys
    requires forall a | a in s.agents :: t.agents[a].Writer? == s.agents[a].Writer?
    ensures SendersKnown(t)
  {
    hide WholeLine;
  }

  // ----- steps of the drainer -----

  lemma ReceiveParts(s: State)
    requires Owned(s) && Bounded(s) && ContentsKept(s) && Enabled(s, Receive)
    ensures var t := Apply(s, Receive);
            Owned(t) && Bounded(t) && ContentsKept(t)
  {
    hide Contents, Content;
    var t := Apply(s, Receive);
    assert Owned(t);
    assert t.channel == s.channel[1..];
  }

  lemma ReceiveKeepsCore(s: State)
    requires Core(s) && Enabled(s, Receive)
    ensures Core(Apply(s, Receive))
  {
    ReceiveParts(s);
    hide Owned, Bounded, ContentsKept, AgentsOk, SendersKnown;
    OthersHold(s);
    AgentsKept(s, Apply(s, Receive));
    SendersKept(s, Apply(s, Receive));
  }

  lemma OutputParts(s: State)
    requires Owned(s) && Bounded(s) && ContentsKept(s) && Enabled(s, Output)
    ensures var t := Apply(s, Output);
            Owned(t) && Bounded(t) && ContentsKept(t)
  {
    ContentsSnoc(s.sent, s.received - 1);
    hide Contents, Content;
    assert Owned(Apply(s, Output));
  }

  lemma OutputKeepsCore(s: State)
    requires Core(s) && Enabled(s, Output)
    ensures Core(Apply(s, Output))
  {
    OutputParts(s);
    hide Owned, Bounded, ContentsKept, AgentsOk, SendersKnown;
    OthersHold(s);
    AgentsKept(s, Apply(s, Output));
    SendersKept(s, Apply(s, Output));
  }

  lemma PutBackParts(s: State)
    requires Owned(s) && Bounded(s) && ContentsKept(s) && Enabled(s, PutBack)
    ensures var t := Apply(s, PutBack);
            Owned(t) && Bounded(t) && ContentsKept(t)
  {
    hide Contents, Content;
    assert Owned(Apply(s, PutBack));
  }

  lemma PutBackKeepsCore(s: State)
    requires Core(s) && Enabled(s, PutBack)
    ensures Core(Apply(s, PutBack))
  {
    PutBackParts(s);
    DrainedElsewhere(s);
    hide Owned, Bounded, ContentsKept, AgentsOk, SendersKnown;
    AgentsKept(s, Apply(s, PutBack));
    SendersKept(s, Apply(s, PutBack));
  }

  lemma DrainedElsewhere(s: State)
    requires Owned(s) && !s.drain.Waiting?
    ensures forall a | a in s.agents && s.agents[a].own.Some? ::
              s.agents[a].own.value != s.drain.id && s.agents[a].own.value in s.heap
  {}

  // ----- steps of one agent -----

  /** An agent step leaves the others alone. */
  lemma OthersKept(s: State, t: State, a: AgentId)
    requires Owned(s) && AgentsOk(s) && Owned(t)
    requires t.agents.Keys == s.agents.Keys + {a} && AgentOk(t, a)
    requires forall b | b in s.agents && b != a :: t.agents[b] == s.agents[b] && SentBy(t.sent, b) == SentBy(s.sent, b)
    requires forall b | b in s.agents && b != a && s.agents[b].own.Some? ::
               t.heap[s.agents[b].own.value] == s.heap[s.agents[b].own.value]
    ensures AgentsOk(t)
  {
    hide Owned, AgentOk, SentBy;
    forall b | b in t.agents ensures AgentOk(t, b) {
      if b != a { AgentKept(s, t, b); }
    }
  }

  lemma NewAgentOwned(s: State, t: State, a: AgentId, g: Agent)
    requires Owned(s) && t == s.(agents := s.agents[a := g]) && a !in s.agents && g.own == None
    ensures Owned(t)
  {}

  lemma NoEntryYet(s: State, a: AgentId)
    requires SendersKnown(s) && a !in s.agents
    ensures SentBy(s.sent, a) == []
  {
    hide WholeLine;
    SentByNone(s.sent, a);
  }

  lemma NewAgentParts(s: State, t: State, a: AgentId, g: Agent)
    requires Owned(s) && Bounded(s) && ContentsKept(s) && SendersKnown(s)
    requires t == s.(agents := s.agents[a := g]) && a !in s.agents && g.own == None
    ensures Owned(t) && Bounded(t) && ContentsKept(t) && SendersKnown(t)
    ensures SentBy(t.sent, a) == []
  {
    hide SentBy, Contents, Content, WholeLine, Owned, SendersKnown;
    NewAgentOwned(s, t, a, g);
    NoEntryYet(s, a);
    SendersKept(s, t);
  }

  lemma NewAgentKeepsCore(s: State, step: Step)
    requires Core(s) && (step.NewWriter? || step.NewCaller?) && Enabled(s, step)
    ensures Core(Apply(s, step))
  {
    hide Owned, Bounded, ContentsKept, SendersKnown, AgentsOk, SentBy, LinesOf, Rest;
    var t := Apply(s, step);
    NewAgentParts(s, t, step.a, t.agents[step.a]);
    SplitPlain([]);
    assert AgentOk(t, step.a);
    hide AgentOk;
    OthersHold(s);
    OthersKept(s, t, step.a);
  }

  lemma WriteKeepsCore(s: State, a: AgentId, p: seq<Byte>)
    requires Core(s) && Enabled(s, Write(a, p))
    ensures Core(Apply(s, Write(a, p)))
  {
    hide SentBy, Contents, LinesOf, Rest, Bounded, ContentsKept, SendersKnown;
    var t := Apply(s, Write(a, p));
    assert AgentOk(s, a);
    OthersHold(s);
    WriteParts(s, a, p);
    hide Owned, AgentsOk;
    assert AgentOk(t, a);
    hide AgentOk;
    OthersKept(s, t, a);
    SendersKept(s, t);
  }

  lemma WriteParts(s: State, a: AgentId, p: seq<Byte>)
    requires Owned(s) && Bounded(s) && ContentsKept(s) && Enabled(s, Write(a, p))
    ensures var t := Apply(s, Write(a, p));
            Owned(t) && Bounded(t) && ContentsKept(t)
  {
    hide Contents, Content;
    assert Owned(Apply(s, Write(a, p)));
  }

  /** A buffer held by an agent is nowhere else. */
  lemma HeldAlone(s: State, a: AgentId)
    requires Owned(s) && a in s.agents && s.agents[a].own.Some?
    ensures var id := s.agents[a].own.value;
            && id in s.heap && id !in s.channel && id !in s.pool && (!s.drain.Waiting? ==> s.drain.id != id)
            && forall b | b in s.agents && b != a && s.agents[b].own.Some? :: s.agents[b].own.value != id
  {}

  lemma OwnBufferParts(s: State, t: State, a: AgentId, content: seq<Byte>)
    requires Owned(s) && Bounded(s) && ContentsKept(s) && a in s.agents && s.agents[a].own.Some? && a in t.agents
    requires t == s.(heap := s.heap[s.agents[a].own.value := content], agents := s.agents[a := t.agents[a]])
    requires t.agents[a].own == s.agents[a].own
    ensures Owned(t) && Bounded(t) && ContentsKept(t)
  {
    hide Contents, Content;
    HeldAlone(s, a);
    assert Owned(t);
  }

  /** An agent changes its record and the content of its own buffer. */
  lemma OwnBufferKeepsCore(s: State, t: State, a: AgentId, content: seq<Byte>)
    requires Core(s) && a in s.agents && s.agents[a].own.Some? && a in t.agents
    requires s.agents[a].own.value in s.heap
    requires t == s.(heap := s.heap[s.agents[a].own.value := content], agents := s.agents[a := t.agents[a]])
    requires t.agents[a].Writer? == s.agents[a].Writer? && t.agents[a].own == s.agents[a].own
    requires Owned(t) ==> AgentOk(t, a)
    ensures Core(t)
  {
    OwnBufferParts(s, t, a, content);
    HeldAlone(s, a);
    OthersHold(s);
    hide Owned, Bounded, ContentsKept, AgentsOk, AgentOk, SendersKnown, SentBy;
    OthersKept(s, t, a);
    SendersKept(s, t);
  }

  lemma AppendCallerKeepsCore(s: State, a: AgentId)
    requires Core(s) && Enabled(s, Append(a)) && s.agents[a].Caller?
    ensures Core(Apply(s, Append(a)))
  {
    hide SentBy, Contents, LinesOf, Rest;
    var t := Apply(s, Append(a));
    assert AgentOk(s, a);
    OwnBufferKeepsCore(s, t, a, s.heap[s.agents[a].own.value] + s.agents[a].line);
  }

  /** The branch of the loop that completes a line. */
  lemma CompletedLineIsOk(s: State, t: State, a: AgentId)
    requires Owned(s) && Enabled(s, Append(a)) && s.agents[a].Writer? && WriterOk(s, a)
    requires t == Apply(s, Append(a)) && Owned(t) && FirstNewline(s.agents[a].todo) < |s.agents[a].todo|
    ensures WriterOk(t, a)
  {
    hide SentBy, LinesOf, Rest, WholeLine, Owned;
    var g := s.agents[a];
    var i := FirstNewline(g.todo);
    var chunk, id := g.todo[..i + 1], g.own.value;
    assert t.agents[a] == g.(phase := Sending, todo := g.todo[i + 1..], fed := g.fed + chunk);
    assert t.heap[id] == s.heap[id] + chunk && t.sent == s.sent;
    assert s.heap[id] == g.header + Rest(g.fed) && LinesOf(g.fed) == SentBy(s.sent, a);
    hide Apply, Enabled;
    HeadIsLine(g.todo);
    FeedLine(g.fed, chunk);
    LineOfRest(g.fed, chunk);
    Assoc(g.header, Rest(g.fed), chunk);
    hide FirstNewline;
    var line := Rest(g.fed) + chunk;
    assert LinesOf(t.agents[a].fed) == SentBy(t.sent, a) + [line];
  }

  /** The branch that appends what is left. */
  lemma AppendedRestIsOk(s: State, t: State, a: AgentId)
    requires Owned(s) && Enabled(s, Append(a)) && s.agents[a].Writer? && WriterOk(s, a)
    requires t == Apply(s, Append(a)) && Owned(t) && FirstNewline(s.agents[a].todo) == |s.agents[a].todo|
    ensures WriterOk(t, a)
  {
    var g := s.agents[a];
    NoNewline(g.todo);
    FeedPlain(g.fed, g.todo);
    Assoc(g.header, Rest(g.fed), g.todo);
    hide SentBy, LinesOf, Rest, WholeLine, FirstNewline, Owned;
  }

  lemma AppendWriterKeepsCore(s: State, a: AgentId)
    requires Core(s) && Enabled(s, Append(a)) && s.agents[a].Writer?
    ensures Core(Apply(s, Append(a)))
  {
    hide Owned, Bounded, ContentsKept, SendersKnown, WriterOk, SentBy, LinesOf, Rest, WholeLine;
    var t := Apply(s, Append(a));
    var g := s.agents[a];
    assert AgentOk(s, a);
    hide AgentsOk;
    var i := FirstNewline(g.todo);
    var content := s.heap[g.own.value] + if i < |g.todo| then g.todo[..i + 1] else g.todo;
    OwnBufferParts(s, t, a, content);
    if i < |g.todo| { CompletedLineIsOk(s, t, a); } else { AppendedRestIsOk(s, t, a); }
    OwnBufferKeepsCore(s, t, a, content);
  }

  lemma NoNewline(s: seq<Byte>)
    requires FirstNewline(s) == |s|
    ensures NEWLINE !in s
  {}

  lemma LineOfRest(fed: seq<Byte>, chunk: seq<Byte>)
    requires WholeLine(chunk)
    ensures WholeLine(Rest(fed) + chunk)
  {
    SplitIsExact(fed);
    var line := Rest(fed) + chunk;
    assert line[..|line| - 1] == Rest(fed) + chunk[..|chunk| - 1];
  }

  lemma HeadKeepsCore(s: State, a: AgentId, stamp: seq<Byte>)
    requires Core(s) && Enabled(s, Head(a, stamp))
    ensures Core(Apply(s, Head(a, stamp)))
  {
    hide SentBy, Contents, LinesOf, Rest, WholeLine;
    var t := Apply(s, Head(a, stamp));
    var g := s.agents[a];
    assert AgentOk(s, a);
    var header := if g.created then stamp + g.prefix else g.prefix;
    assert [] + header == header + [] == header;
    OwnBufferKeepsCore(s, t, a, s.heap[g.own.value] + header);
  }

  lemma GetPooledOwned(s: State, a: AgentId)
    requires Owned(s) && Bounded(s) && Enabled(s, Get(a)) && s.agents[a].own == None && s.pool != []
    ensures Owned(Apply(s, Get(a)))
  {
    var t := Apply(s, Get(a));
    assert t.pool == s.pool[1..];
    assert Owned(t);
  }

  lemma GetNewOwned(s: State, a: AgentId)
    requires Owned(s) && Bounded(s) && Enabled(s, Get(a)) && s.agents[a].own == None && s.pool == []
    ensures Owned(Apply(s, Get(a)))
  {}

  lemma GetOwned(s: State, a: AgentId)
    requires Owned(s) && Bounded(s) && Enabled(s, Get(a)) && s.agents[a].own == None
    ensures var t := Apply(s, Get(a));
            && Owned(t) && Bounded(t) && t.agents[a].own.Some?
            && (forall id | id in s.heap :: id in t.heap && t.heap[id] == s.heap[id])
  {
    if s.pool != [] { GetPooledOwned(s, a); } else { GetNewOwned(s, a); FreshId(s); }
    hide Owned;
  }

  lemma FreshId(s: State)
    requires Owned(s)
    ensures s.next !in s.heap
  {}

  lemma GetContents(s: State, a: AgentId)
    requires Owned(s) && Bounded(s) && ContentsKept(s) && Enabled(s, Get(a)) && s.agents[a].own == None
    ensures var t := Apply(s, Get(a));
            Owned(t) && Bounded(t) && ContentsKept(t) && t.agents[a].own.Some? && t.heap[t.agents[a].own.value] == []
  {
    hide Contents, Content;
    GetOwned(s, a);
    IdsInHeap(s);
    hide Owned;
  }

  lemma IdsInHeap(s: State)
    requires Owned(s)
    ensures forall i | 0 <= i < |s.channel| :: s.channel[i] in s.heap
    ensures forall i | 0 <= i < |s.pool| :: s.pool[i] in s.heap
    ensures !s.drain.Waiting? ==> s.drain.id in s.heap
  {}

  lemma GetterIsOk(s: State, t: State, a: AgentId)
    requires Owned(s) && Enabled(s, Get(a)) && AgentOk(s, a) && t == Apply(s, Get(a))
    requires Owned(t) && t.agents[a].own.Some? && t.heap[t.agents[a].own.value] == []
    ensures AgentOk(t, a)
  {
    hide Owned, SentBy, LinesOf, Rest, WholeLine;
  }

  lemma GetKeepsCore(s: State, a: AgentId)
    requires Core(s) && Enabled(s, Get(a))
    ensures Core(Apply(s, Get(a)))
  {
    hide Owned, ContentsKept, Bounded, AgentOk, SendersKnown, SentBy;
    var t := Apply(s, Get(a));
    assert AgentOk(s, a);
    hide AgentsOk;
    GetterHoldsNone(s, a);
    GetOwned(s, a);
    GetContents(s, a);
    OthersHold(s);
    GetterIsOk(s, t, a);
    OthersKept(s, t, a);
    SendersKept(s, t);
  }

  lemma OthersHold(s: State)
    requires Owned(s)
    ensures forall b | b in s.agents && s.agents[b].own.Some? :: s.agents[b].own.value in s.heap
  {}

  lemma SendOwned(s: State, a: AgentId)
    requires Owned(s) && Bounded(s) && Enabled(s, Send(a))
    ensures var t := Apply(s, Send(a));
            Owned(t) && Bounded(t)
  {
    hide EntryOf;
    var t := Apply(s, Send(a));
    HeldAlone(s, a);
    assert Owned(t);
  }

  lemma SendContents(s: State, a: AgentId)
    requires Owned(s) && Bounded(s) && ContentsKept(s) && Enabled(s, Send(a))
    requires s.agents[a].own.value in s.heap && Content(EntryOf(s, a)) == s.heap[s.agents[a].own.value]
    ensures var t := Apply(s, Send(a));
            Owned(t) && Bounded(t) && ContentsKept(t)
  {
    hide Contents, EntryOf, Content;
    SendOwned(s, a);
    var t := Apply(s, Send(a));
    assert t.sent[..Shown(t)] == s.sent[..Shown(s)];
    assert t.heap == s.heap && t.received == s.received;
    assert forall i | 0 <= i < |s.channel| :: t.channel[i] == s.channel[i] && t.sent[s.received + i] == s.sent[s.received + i];
    hide Owned;
  }

  lemma SendersStillKnown(s: State, a: AgentId)
    requires SendersKnown(s) && Enabled(s, Send(a))
    requires s.agents[a].Writer? ==> NEWLINE !in EntryOf(s, a).header && WholeLine(EntryOf(s, a).payload)
    requires s.agents[a].Caller? ==> EntryOf(s, a).header == []
    ensures SendersKnown(Apply(s, Send(a)))
  {
    hide WholeLine;
    assert EntryOf(s, a).who == a;
    hide EntryOf;
  }

  lemma SenderOk(s: State, a: AgentId)
    requires Owned(s) && Enabled(s, Send(a)) && Owned(Apply(s, Send(a)))
    requires AgentOk(s, a)
    requires var e := EntryOf(s, a);
             && e.who == a
             && (s.agents[a].Writer? ==> LinesOf(s.agents[a].fed) == SentBy(s.sent, a) + [e.payload])
             && (s.agents[a].Caller? ==> e.payload == s.agents[a].line)
    ensures var t := Apply(s, Send(a));
            AgentOk(t, a)
  {
    SentBySnoc(s.sent, EntryOf(s, a), a);
    hide LinesOf, Rest, WholeLine, SentBy, EntryOf, Owned;
  }

  lemma SendKeepsCore(s: State, a: AgentId)
    requires Core(s) && Enabled(s, Send(a))
    ensures Core(Apply(s, Send(a)))
  {
    hide Owned, Bounded, ContentsKept, SendersKnown, AgentOk, LinesOf, WholeLine, EntryOf, Content;
    var t := Apply(s, Send(a));
    var e := EntryOf(s, a);
    SentContent(s, a);
    SendContents(s, a);
    SendersStillKnown(s, a);
    SenderOk(s, a);
    forall b | b != a ensures SentBy(t.sent, b) == SentBy(s.sent, b) { SentBySnoc(s.sent, e, b); }
    hide SentBy;
    OthersHold(s);
    OthersKept(s, t, a);
  }

  /** What is sent is what the buffer holds, split into header and line. */
  lemma SentContent(s: State, a: AgentId)
    requires Core(s) && Enabled(s, Send(a))
    ensures var e := EntryOf(s, a);
            && s.agents[a].own.value in s.heap
            && Content(e) == s.heap[s.agents[a].own.value] && e.who == a
            && (s.agents[a].Writer? ==>
                  NEWLINE !in e.header && WholeLine(e.payload) && LinesOf(s.agents[a].fed) == SentBy(s.sent, a) + [e.payload])
            && (s.agents[a].Caller? ==> e.payload == s.agents[a].line && e.header == [])
  {
    hide LinesOf, Rest, WholeLine, SentBy;
    var g := s.agents[a];
    assert AgentOk(s, a);
    if g.Writer? {
      var line :| WholeLine(line) && LinesOf(g.fed) == SentBy(s.sent, a) + [line] && s.heap[g.own.value] == g.header + line;
      assert (g.header + line)[|g.header|..] == line;
    }
  }

  lemma AppendKeepsCore(s: State, a: AgentId)
    requires Core(s) && Enabled(s, Append(a))
    ensures Core(Apply(s, Append(a)))
  {
    hide Core;
    if s.agents[a].Writer? { AppendWriterKeepsCore(s, a); } else { AppendCallerKeepsCore(s, a); }
  }

  lemma StepKeepsCore(s: State, step: Step)
    requires Core(s) && Enabled(s, step)
    ensures Core(Apply(s, step))
  {
    hide Core, Apply, Enabled;
    match step
    case NewWriter(_, _) => NewAgentKeepsCore(s, step);
    case NewCaller(_, _) => NewAgentKeepsCore(s, step);
    case Write(a, p) => WriteKeepsCore(s, a, p);
    case Append(a) => AppendKeepsCore(s, a);
    case Send(a) => SendKeepsCore(s, a);
    case Get(a) => GetKeepsCore(s, a);
    case Head(a, stamp) => HeadKeepsCore(s, a, stamp);
    case Receive => ReceiveKeepsCore(s);
    case Output => OutputKeepsCore(s);
    case PutBack => PutBackKeepsCore(s);
  }

  // ----- no buffer is lost -----

  lemma GetterHoldsNone(s: State, a: AgentId)
    requires Core(s) && Enabled(s, Get(a))
    ensures s.agents[a].own == None
  {
    hide SentBy, LinesOf, Rest, WholeLine;
    assert AgentOk(s, a);
  }

  /** The buffer in hand changes its holder, or a new one is made; the holders of
      all others stay. */
  lemma StepKeepsHolder(s: State, step: Step, id: BufferId)
    requires Enabled(s, step) && id in s.owner && Holds(s, id)
    requires step.Get? ==> s.agents[step.a].own == None
    ensures id in Apply(s, step).owner && Holds(Apply(s, step), id)
  {
    hide EntryOf;
  }

  lemma NewOwnerHolds(s: State, a: AgentId)
    requires Enabled(s, Get(a)) && s.pool == []
    ensures var t := Apply(s, Get(a));
            t.owner.Keys == s.owner.Keys + {s.next} && Holds(t, s.next)
  {}

  lemma OwnersStay(s: State, step: Step)
    requires Owned(s) && Enabled(s, step) && !(step.Get? && s.pool == [])
    ensures Apply(s, step).owner.Keys == s.owner.Keys
  {
    hide EntryOf;
    if step.Receive? { assert s.channel[0] in s.owner; }
    if step.Get? { assert s.pool[0] in s.owner; }
  }

  lemma StepKeepsAccounts(s: State, step: Step)
    requires Owned(s) && Accounted(s) && Enabled(s, step)
    requires step.Get? ==> s.agents[step.a].own == None
    ensures Accounted(Apply(s, step))
  {
    hide Owned, Apply, Enabled, Holds;
    var t := Apply(s, step);
    if step.Get? && s.pool == [] { NewOwnerHolds(s, step.a); } else { OwnersStay(s, step); }
    forall id | id in t.owner ensures Holds(t, id) {
      if id in s.owner { StepKeepsHolder(s, step, id); }
    }
  }

  /** The buffer is given up in this step, for want of room in the pool. */
  predicate Overflow(s: State, step: Step) {
    step.PutBack? && |s.pool| == POOL_SIZE
  }

  ghost predicate NoneDropped(s: State) {
    forall id | id in s.owner :: s.owner[id] != Dropped
  }

  lemma DropsOnlyOnOverflow(s: State, step: Step)
    requires Owned(s) && Bounded(s) && Enabled(s, step)
    requires step.Get? ==> s.agents[step.a].own == None
    ensures NoneDropped(Apply(s, step)) <==> NoneDropped(s) && !Overflow(s, step)
  {
    hide FirstNewline, EntryOf;
    var t := Apply(s, step);
    if id :| id in s.owner && s.owner[id] == Dropped {
      assert id in t.owner && t.owner[id] == Dropped;
    }
    if Overflow(s, step) {
      assert s.drain.id in t.owner && t.owner[s.drain.id] == Dropped;
    }
  }

  /** Every step of anyone keeps the invariant. */
  lemma StepKeepsInv(s: State, step: Step)
    requires Inv(s) && Enabled(s, step)
    ensures Inv(Apply(s, step))
  {
    StepKeepsCore(s, step);
    if step.Get? { GetterHoldsNone(s, step.a); }
    hide Core, Apply, Enabled;
    StepKeepsAccounts(s, step);
  }

  // ----- runs -----

  ghost predicate Run(s: State, steps: seq<Step>, t: State)
    decreases |steps|
  {
    if steps == [] then s == t
    else Enabled(s, steps[0]) && Run(Apply(s, steps[0]), steps[1..], t)
  }

  lemma {:induction false} RunKeepsInv(s: State, steps: seq<Step>, t: State)
    requires Inv(s) && Run(s, steps, t)
    ensures Inv(t)
    decreases |steps|
  {
    hide Inv, Apply, Enabled;
    if steps != [] {
      StepKeepsInv(s, steps[0]);
      RunKeepsInv(Apply(s, steps[0]), steps[1..], t);
    }
  }

  /** Everything that was passed to Write by agent a. */
  function Given(steps: seq<Step>, a: AgentId): seq<Byte> {
    if steps == [] then []
    else (if steps[0].Write? && steps[0].a == a then steps[0].p else []) + Given(steps[1..], a)
  }

  /** What a writer has appended and what it still has to. */
  function Taken(s: State, a: AgentId): seq<Byte> {
    if a in s.agents && s.agents[a].Writer? then s.agents[a].fed + s.agents[a].todo else []
  }

  lemma StepTakes(s: State, step: Step, a: AgentId)
    requires Enabled(s, step)
    ensures Taken(Apply(s, step), a) == Taken(s, a) + if step.Write? && step.a == a then step.p else []
  {
    if step.Append? && step.a == a && s.agents[a].Writer? {
      var g := s.agents[a];
      var i := FirstNewline(g.todo);
      if i < |g.todo| {
        HeadIsLine(g.todo);
        Assoc(g.fed, g.todo[..i + 1], g.todo[i + 1..]);
      }
    }
  }

  lemma {:induction false} RunTakes(s: State, steps: seq<Step>, t: State, a: AgentId)
    requires Run(s, steps, t)
    ensures Taken(t, a) == Taken(s, a) + Given(steps, a)
    decreases |steps|
  {
    hide Apply, Enabled, Taken;
    if steps != [] {
      StepTakes(s, steps[0], a);
      RunTakes(Apply(s, steps[0]), steps[1..], t, a);
      Assoc(Taken(s, a), if steps[0].Write? && steps[0].a == a then steps[0].p else [], Given(steps[1..], a));
    }
  }

  /** A buffer is held by one agent, lies in the channel or in the pool, or is
      with the drainer; never two of these, and never twice. */
  ghost predicate Exclusive(s: State) {
    && (forall a, b | a in s.agents && b in s.agents && a != b && s.agents[a].own.Some? ::
          s.agents[a].own != s.agents[b].own)
    && (forall a | a in s.agents && s.agents[a].own.Some? ::
          s.agents[a].own.value !in s.channel && s.agents[a].own.value !in s.pool
          && (!s.drain.Waiting? ==> s.drain.id != s.agents[a].own.value))
    && (forall i, j | 0 <= i < j < |s.channel| :: s.channel[i] != s.channel[j])
    && (forall i, j | 0 <= i < j < |s.pool| :: s.pool[i] != s.pool[j])
    && (forall id | id in s.channel :: id !in s.pool)
    && (!s.drain.Waiting? ==> s.drain.id !in s.channel && s.drain.id !in s.pool)
  }

  ghost predicate Held(s: State, id: BufferId) {
    || (exists a :: a in s.agents && s.agents[a].own == Some(id))
    || id in s.channel
    || id in s.pool
    || (!s.drain.Waiting? && s.drain.id == id)
  }

  /** Every buffer that was ever made has exactly one holder, unless it was given
      up when the pool was full. */
  ghost predicate OneOwnerEach(s: State) {
    && Exclusive(s)
    && s.owner.Keys == s.heap.Keys
    && forall id | id in s.heap :: Held(s, id) <==> s.owner[id] != Dropped
  }

  lemma OwnersAreExact(s: State)
    requires Owned(s) && Accounted(s)
    ensures OneOwnerEach(s)
  {
    forall id | id in s.heap ensures Held(s, id) <==> s.owner[id] != Dropped {
      HeldIsEntered(s, id);
    }
  }

  lemma HeldIsEntered(s: State, id: BufferId)
    requires Owned(s) && Accounted(s) && id in s.heap
    ensures Held(s, id) <==> s.owner[id] != Dropped
  {
    match s.owner[id]
    case OfAgent(a) => assert a in s.agents && s.agents[a].own == Some(id);
    case _ =>
  }

  /** Some moment of the run gave up a buffer. */
  ghost predicate Overflows(s: State, steps: seq<Step>)
    decreases |steps|
  {
    steps != [] && Enabled(s, steps[0])
    && (Overflow(s, steps[0]) || Overflows(Apply(s, steps[0]), steps[1..]))
  }

  /** A run loses a buffer if and only if the drainer once found the pool full. */
  lemma {:induction false} RunDropsOnlyOnOverflow(s: State, steps: seq<Step>, t: State)
    requires Inv(s) && Run(s, steps, t)
    ensures NoneDropped(t) <==> NoneDropped(s) && !Overflows(s, steps)
    decreases |steps|
  {
    hide Core, Accounted, NoneDropped, Overflow, Apply, Enabled;
    if steps != [] {
      StepKeepsInv(s, steps[0]);
      DropStep(s, steps[0]);
      RunDropsOnlyOnOverflow(Apply(s, steps[0]), steps[1..], t);
    }
  }

  lemma DropStep(s: State, step: Step)
    requires Inv(s) && Enabled(s, step)
    ensures NoneDropped(Apply(s, step)) <==> NoneDropped(s) && !Overflow(s, step)
  {
    hide NoneDropped, Overflow, Apply, Enabled, AgentsOk, ContentsKept, SendersKnown;
    if step.Get? { GetterHoldsNone(s, step.a); }
    DropsOnlyOnOverflow(s, step);
  }

  lemma {:induction false} SentByPrefix(es: seq<Entry>, k: nat, a: AgentId)
    requires k <= |es|
    ensures SentBy(es[..k], a) <= SentBy(es, a)
    decreases |es|
  {
    if k == |es| {
      assert es[..k] == es;
    } else {
      var front := es[..|es| - 1];
      assert front[..k] == es[..k];
      SentByPrefix(front, k, a);
    }
  }

  /** The entries of agent a are in order what it was given: a writer's the first
      complete lines of its bytes, a caller's its text, once and whole. */
  ghost predicate Ordered(t: State, shown: seq<Entry>, steps: seq<Step>, a: AgentId)
    requires a in t.agents
  {
    if t.agents[a].Writer? then
      && SentBy(shown, a) <= LinesOf(Given(steps, a))
      && forall k | 0 <= k < |shown| && shown[k].who == a :: NEWLINE !in shown[k].header && WholeLine(shown[k].payload)
    else
      && SentBy(shown, a) <= [t.agents[a].line]
      && forall k | 0 <= k < |shown| && shown[k].who == a :: Content(shown[k]) == t.agents[a].line
  }

  lemma WriterIsOrdered(steps: seq<Step>, t: State, a: AgentId, n: nat)
    requires Owned(t) && a in t.agents && t.agents[a].Writer? && WriterOk(t, a) && SendersKnown(t)
    requires Run(Init(), steps, t) && n <= |t.sent|
    ensures Ordered(t, t.sent[..n], steps, a)
  {
    RunTakes(Init(), steps, t, a);
    SentByPrefix(t.sent, n, a);
    var g := t.agents[a];
    SplitResumes(g.fed, g.todo);
    hide LinesOf, SentBy, Rest, Owned, Run, WholeLine;
    assert SentBy(t.sent, a) <= LinesOf(g.fed);
    assert [] + Given(steps, a) == Given(steps, a);
  }

  lemma CallerIsOrdered(steps: seq<Step>, t: State, a: AgentId, n: nat)
    requires Owned(t) && a in t.agents && t.agents[a].Caller? && CallerOk(t, a) && SendersKnown(t)
    requires n <= |t.sent|
    ensures Ordered(t, t.sent[..n], steps, a)
  {
    SentByPrefix(t.sent, n, a);
    hide SentBy, Owned;
    var line := t.agents[a].line;
    assert SentBy(t.sent, a) <= [line];
    forall k | 0 <= k < n && t.sent[k].who == a ensures Content(t.sent[k]) == line {
      PayloadIsSent(t.sent, k);
    }
  }

  lemma AgentIsOrdered(steps: seq<Step>, t: State, a: AgentId, n: nat)
    requires Inv(t) && Run(Init(), steps, t) && a in t.agents && n <= |t.sent|
    ensures Ordered(t, t.sent[..n], steps, a)
  {
    hide Ordered, WriterOk, CallerOk, Run, ContentsKept, SendersKnown, Owned, Accounted, Bounded;
    if t.agents[a].Writer? {
      WriterIsOrdered(steps, t, a, n);
    } else {
      CallerIsOrdered(steps, t, a, n);
    }
  }

  lemma {:induction false} PayloadIsSent(es: seq<Entry>, k: nat)
    requires k < |es|
    ensures es[k].payload in SentBy(es, es[k].who)
    decreases |es|
  {
    if k < |es| - 1 { PayloadIsSent(es[..|es| - 1], k); }
  }

  /** In every interleaving the output is the concatenation of whole entries, in
      which every agent's are in order what it was given, and every buffer has
      exactly one owner. */
  lemma OutputIsInterleaving(steps: seq<Step>, t: State)
    requires Run(Init(), steps, t)
    ensures 0 <= Shown(t) <= |t.sent| && t.output == Contents(t.sent[..Shown(t)])
    ensures forall k | 0 <= k < |t.sent| :: t.sent[k].who in t.agents
    ensures forall a | a in t.agents :: Ordered(t, t.sent, steps, a) && Ordered(t, t.sent[..Shown(t)], steps, a)
    ensures OneOwnerEach(t) && (NoneDropped(t) <==> !Overflows(Init(), steps))
    ensures |t.pool| <= POOL_SIZE && |t.channel| <= CHANNEL_SIZE
    ensures forall i | 0 <= i < |t.pool| :: t.pool[i] in t.heap && t.heap[t.pool[i]] == []
  {
    InitInv();
    RunKeepsInv(Init(), steps, t);
    RunDropsOnlyOnOverflow(Init(), steps, t);
    OwnersAreExact(t);
    hide LinesOf, SentBy, Contents, Rest, Ordered, OneOwnerEach, Overflows, Run, Accounted, AgentsOk;
    assert t.sent[..|t.sent|] == t.sent;
    forall a | a in t.agents ensures Ordered(t, t.sent, steps, a) && Ordered(t, t.sent[..Shown(t)], steps, a) {
      AgentIsOrdered(steps, t, a, |t.sent|);
      AgentIsOrdered(steps, t, a, Shown(t));
    }
  }

  /** Writes with the same bytes in other chunks offer the same lines. */
  lemma ChunksDoNotMatter(steps: seq<Step>, steps': seq<Step>, t: State, t': State, a: AgentId)
    requires Run(Init(), steps, t) && Run(Init(), steps', t')
    requires a in t.agents && t.agents[a].Writer? && t.agents[a].phase == Looping && t.agents[a].todo == []
    requires a in t'.agents && t'.agents[a].Writer? && t'.agents[a].phase == Looping && t'.agents[a].todo == []
    requires Given(steps, a) == Given(steps', a)
    ensures SentBy(t.sent, a) == SentBy(t'.sent, a) == LinesOf(Given(steps, a))
    ensures t.agents[a].own.Some? && t'.agents[a].own.Some?
    ensures t.agents[a].own.value in t.heap
         && t.heap[t.agents[a].own.value] == t.agents[a].header + Rest(Given(steps, a))
    ensures t'.agents[a].own.value in t'.heap
         && t'.heap[t'.agents[a].own.value] == t'.agents[a].header + Rest(Given(steps, a))
  {
    InitInv();
    RunKeepsInv(Init(), steps, t);
    RunKeepsInv(Init(), steps', t');
    RunTakes(Init(), steps, t, a);
    RunTakes(Init(), steps', t', a);
    assert AgentOk(t, a) && AgentOk(t', a);
    hide LinesOf, Rest, SentBy;
    var g, g' := t.agents[a], t'.agents[a];
    assert g.fed == Taken(t, a) && g'.fed == Taken(t', a);
    assert [] + Given(steps, a) == Given(steps, a);
  }
}
