/** Any number of line writers, callers of WriteStrLine and one drainer sharing
    a line channel and a buffer pool, as a state machine over atomic steps. */
module LogMerge {
  import opened Wrappers
  import opened Lines

  type BufferId = nat
  type AgentId = nat

  const CHANNEL_SIZE := 1000
  const POOL_SIZE := 4000

  /** Where a writer stands: outside Write or in its loop, about to send, about
      to get a buffer, about to write the header into it. */
  datatype Phase = Looping | Sending | Getting | Heading

  /** `fed` is everything this writer has appended so far and `header` what its
      buffer starts with; the program does not store them. */
  datatype Agent =
    | Writer(prefix: seq<Byte>, phase: Phase, own: Option<BufferId>, todo: seq<Byte>, created: bool,
             fed: seq<Byte>, header: seq<Byte>)
    | Caller(line: seq<Byte>, called: Phase, own: Option<BufferId>)

  /** One buffer handed to the channel, with its content at that moment. */
  datatype Entry = Entry(who: AgentId, header: seq<Byte>, payload: seq<Byte>)

  /** Who holds a buffer.  Places in channel and pool are numbered by arrival. */
  datatype Owner = OfAgent(a: AgentId) | InChannel(ticket: nat) | OfDrainer | InPool(ticket: nat) | Dropped

  datatype Drain = Waiting | Taken(id: BufferId) | Written(id: BufferId)

  /** `sent` and `owner` are bookkeeping; `received` and `reused` count what has
      left channel and pool. */
  datatype State = State(
    heap: map<BufferId, seq<Byte>>,
    agents: map<AgentId, Agent>,
    channel: seq<BufferId>,
    drain: Drain,
    pool: seq<BufferId>,
    output: seq<Byte>,
    sent: seq<Entry>,
    received: nat,
    reused: nat,
    owner: map<BufferId, Owner>,
    next: BufferId)

  datatype Step =
    | NewWriter(a: AgentId, prefix: seq<Byte>)
    | NewCaller(a: AgentId, line: seq<Byte>)
    | Write(a: AgentId, p: seq<Byte>)            // a call of Write, outside the loop
    | Append(a: AgentId)                         // one round of the loop up to the send
    | Send(a: AgentId)
    | Get(a: AgentId)
    | Head(a: AgentId, stamp: seq<Byte>)         // the clock reading is arbitrary
    | Receive
    | Output
    | PutBack

  function Init(): State {
    State(map[], map[], [], Waiting, [], [], [], 0, 0, map[], 0)
  }

  predicate Enabled(s: State, step: Step) {
    match step
    case NewWriter(a, prefix) => a !in s.agents && NEWLINE !in prefix
    case NewCaller(a, _) => a !in s.agents
    case Write(a, _) =>
      a in s.agents && s.agents[a].Writer? && s.agents[a].phase == Looping && s.agents[a].todo == []
    case Append(a) =>
      a in s.agents && s.agents[a].own.Some? && s.agents[a].own.value in s.heap
      && (if s.agents[a].Writer? then s.agents[a].phase == Looping && s.agents[a].todo != []
          else s.agents[a].called == Heading)
    case Send(a) =>
      a in s.agents && s.agents[a].own.Some? && |s.channel| < CHANNEL_SIZE
      && (if s.agents[a].Writer? then s.agents[a].phase else s.agents[a].called) == Sending
    case Get(a) =>
      a in s.agents && (if s.agents[a].Writer? then s.agents[a].phase else s.agents[a].called) == Getting
    case Head(a, stamp) =>
      a in s.agents && s.agents[a].Writer? && s.agents[a].phase == Heading && NEWLINE !in stamp
      && s.agents[a].own.Some? && s.agents[a].own.value in s.heap
    case Receive => s.drain.Waiting? && s.channel != []
    case Output => s.drain.Taken? && s.drain.id in s.heap
    case PutBack => s.drain.Written?
  }

  // ----- the effect of each step -----

  function AppendBytes(s: State, id: BufferId, bytes: seq<Byte>): map<BufferId, seq<Byte>>
    requires id in s.heap
  {
    s.heap[id := s.heap[id] + bytes]
  }

  function DoAppend(s: State, a: AgentId): State
    requires Enabled(s, Append(a))
  {
    var g := s.agents[a];
    var id := g.own.value;
    match g
    case Caller(line, _, _) =>
      s.(heap := AppendBytes(s, id, line), agents := s.agents[a := g.(called := Sending)])
    case Writer(_, _, _, todo, _, fed, _) =>
      var i := FirstNewline(todo);
      if i < |todo| then
        s.(heap := AppendBytes(s, id, todo[..i + 1]),
           agents := s.agents[a := g.(phase := Sending, todo := todo[i + 1..], fed := fed + todo[..i + 1])])
      else
        s.(heap := AppendBytes(s, id, todo),
           agents := s.agents[a := g.(todo := [], fed := fed + todo)])
  }

  /** The entry that agent a would send now. */
  function EntryOf(s: State, a: AgentId): Entry
    requires a in s.agents && s.agents[a].own.Some?
  {
    var g := s.agents[a];
    var content := if g.own.value in s.heap then s.heap[g.own.value] else [];
    if g.Writer? && |g.header| <= |content| then Entry(a, g.header, content[|g.header|..]) else Entry(a, [], content)
  }

  function DoSend(s: State, a: AgentId): State
    requires Enabled(s, Send(a))
  {
    var g := s.agents[a];
    var id := g.own.value;
    s.(channel := s.channel + [id],
       sent := s.sent + [EntryOf(s, a)],
       owner := s.owner[id := InChannel(s.received + |s.channel|)],
       agents := s.agents[a := if g.Writer? then g.(own := None, phase := Getting) else g.(own := None, called := Looping)])
  }

  function GiveBuffer(g: Agent, id: BufferId): Agent {
    match g
    case Writer(_, _, _, _, _, _, _) => g.(own := Some(id), phase := Heading)
    case Caller(_, _, _) => g.(own := Some(id), called := Heading)
  }

  /** BufferPool.Get: the oldest pooled buffer, or a new one. */
  function DoGet(s: State, a: AgentId): State
    requires Enabled(s, Get(a))
  {
    if s.pool != [] then
      var id := s.pool[0];
      s.(pool := s.pool[1..], reused := s.reused + 1, owner := s.owner[id := OfAgent(a)],
         agents := s.agents[a := GiveBuffer(s.agents[a], id)])
    else
      s.(heap := s.heap[s.next := []], next := s.next + 1, owner := s.owner[s.next := OfAgent(a)],
         agents := s.agents[a := GiveBuffer(s.agents[a], s.next)])
  }

  /** The first buffer of a writer gets only the prefix, later ones a time too. */
  function DoHead(s: State, a: AgentId, stamp: seq<Byte>): State
    requires Enabled(s, Head(a, stamp))
  {
    var g := s.agents[a];
    var header := if g.created then stamp + g.prefix else g.prefix;
    s.(heap := AppendBytes(s, g.own.value, header),
       agents := s.agents[a := g.(phase := Looping, created := true, header := header)])
  }

  /** BufferPool.Put: emptied, and dropped when the pool is full. */
  function DoPutBack(s: State): State
    requires Enabled(s, PutBack)
  {
    var id := s.drain.id;
    var s' := s.(heap := s.heap[id := []], drain := Waiting);
    if |s.pool| < POOL_SIZE then
      s'.(pool := s.pool + [id], owner := s.owner[id := InPool(s.reused + |s.pool|)])
    else
      s'.(owner := s.owner[id := Dropped])
  }

  function Apply(s: State, step: Step): State
    requires Enabled(s, step)
  {
    match step
    case NewWriter(a, prefix) => s.(agents := s.agents[a := Writer(prefix, Getting, None, [], false, [], [])])
    case NewCaller(a, line) => s.(agents := s.agents[a := Caller(line, Getting, None)])
    case Write(a, p) => s.(agents := s.agents[a := s.agents[a].(todo := p)])
    case Append(a) => DoAppend(s, a)
    case Send(a) => DoSend(s, a)
    case Get(a) => DoGet(s, a)
    case Head(a, stamp) => DoHead(s, a, stamp)
    case Receive =>
      s.(channel := s.channel[1..], received := s.received + 1, drain := Taken(s.channel[0]),
         owner := s.owner[s.channel[0] := OfDrainer])
    case Output => s.(output := s.output + s.heap[s.drain.id], drain := Written(s.drain.id))
    case PutBack => DoPutBack(s)
  }

  // ----- what every run keeps -----

  function Content(e: Entry): seq<Byte> {
    e.header + e.payload
  }

  function Contents(es: seq<Entry>): seq<Byte> {
    if es == [] then [] else Contents(es[..|es| - 1]) + Content(es[|es| - 1])
  }

  /** The payloads that agent a has sent, in order. */
  function SentBy(es: seq<Entry>, a: AgentId): seq<seq<Byte>> {
    if es == [] then []
    else SentBy(es[..|es| - 1], a) + if es[|es| - 1].who == a then [es[|es| - 1].payload] else []
  }

  /** Entries of which the output shows the content. */
  function Shown(s: State): int {
    s.received - if s.drain.Taken? then 1 else 0
  }

  ghost predicate Owned(s: State) {
    && (forall a | a in s.agents && s.agents[a].own.Some? ::
          var id := s.agents[a].own.value; id in s.owner && s.owner[id] == OfAgent(a))
    && (forall i | 0 <= i < |s.channel| :: s.channel[i] in s.owner && s.owner[s.channel[i]] == InChannel(s.received + i))
    && (forall i | 0 <= i < |s.pool| :: s.pool[i] in s.owner && s.owner[s.pool[i]] == InPool(s.reused + i))
    && (!s.drain.Waiting? ==> s.drain.id in s.owner && s.owner[s.drain.id] == OfDrainer)
    && s.owner.Keys == s.heap.Keys
    && (forall id | id in s.heap :: id < s.next)
  }

  ghost predicate Bounded(s: State) {
    |s.channel| <= CHANNEL_SIZE && |s.pool| <= POOL_SIZE
    && |s.sent| == s.received + |s.channel| && (s.drain.Taken? ==> s.received >= 1)
  }

  ghost predicate ContentsKept(s: State)
    requires Owned(s) && Bounded(s)
  {
    && (forall i | 0 <= i < |s.channel| :: s.heap[s.channel[i]] == Content(s.sent[s.received + i]))
    && (s.drain.Taken? ==> s.heap[s.drain.id] == Content(s.sent[s.received - 1]))
    && (forall i | 0 <= i < |s.pool| :: s.heap[s.pool[i]] == [])
    && s.output == Contents(s.sent[..Shown(s)])
  }

  /** A writer's lines so far are those it has sent, plus the one it holds. */
  ghost predicate WriterOk(s: State, a: AgentId)
    requires Owned(s) && a in s.agents && s.agents[a].Writer?
  {
    var g := s.agents[a];
    && NEWLINE !in g.prefix && NEWLINE !in g.header
    && (g.own.Some? <==> g.phase != Getting)
    && match g.phase
       case Looping => LinesOf(g.fed) == SentBy(s.sent, a) && s.heap[g.own.value] == g.header + Rest(g.fed)
       case Sending =>
         Rest(g.fed) == [] && exists line :: WholeLine(line) && LinesOf(g.fed) == SentBy(s.sent, a) + [line]
                                      && s.heap[g.own.value] == g.header + line
       case Getting => LinesOf(g.fed) == SentBy(s.sent, a) && Rest(g.fed) == []
       case Heading => LinesOf(g.fed) == SentBy(s.sent, a) && Rest(g.fed) == [] && s.heap[g.own.value] == []
  }

  ghost predicate CallerOk(s: State, a: AgentId)
    requires Owned(s) && a in s.agents && s.agents[a].Caller?
  {
    var g := s.agents[a];
    match g.called
    case Getting => g.own == None && SentBy(s.sent, a) == []
    case Heading => g.own.Some? && s.heap[g.own.value] == [] && SentBy(s.sent, a) == []
    case Sending => g.own.Some? && s.heap[g.own.value] == g.line && SentBy(s.sent, a) == []
    case Looping => g.own == None && SentBy(s.sent, a) == [g.line]
  }

  ghost predicate AgentOk(s: State, a: AgentId)
    requires Owned(s) && a in s.agents
  {
    if s.agents[a].Writer? then WriterOk(s, a) else CallerOk(s, a)
  }

  ghost predicate AgentsOk(s: State)
    requires Owned(s)
  {
    forall a | a in s.agents :: AgentOk(s, a)
  }

  ghost predicate SendersKnown(s: State) {
    && (forall k | 0 <= k < |s.sent| :: s.sent[k].who in s.agents)
    && (forall k | 0 <= k < |s.sent| && s.agents[s.sent[k].who].Writer? ::
          NEWLINE !in s.sent[k].header && WholeLine(s.sent[k].payload))
    && (forall k | 0 <= k < |s.sent| && s.agents[s.sent[k].who].Caller? :: s.sent[k].header == [])
  }

  /** The owner entered for a buffer does hold it. */
  ghost predicate Holds(s: State, id: BufferId)
    requires id in s.owner
  {
    match s.owner[id]
    case OfAgent(a) => a in s.agents && s.agents[a].own == Some(id)
    case InChannel(k) => s.received <= k < s.received + |s.channel| && s.channel[k - s.received] == id
    case OfDrainer => !s.drain.Waiting? && s.drain.id == id
    case InPool(k) => s.reused <= k < s.reused + |s.pool| && s.pool[k - s.reused] == id
    case Dropped => true
  }

  ghost predicate Accounted(s: State) {
    forall id | id in s.owner :: Holds(s, id)
  }

  ghost predicate Core(s: State) {
    Owned(s) && Bounded(s) && ContentsKept(s) && AgentsOk(s) && SendersKnown(s)
  }

  ghost predicate Inv(s: State) {
    Core(s) && Accounted(s)
  }

  lemma InitInv()
    ensures Inv(Init())
  {}
}
