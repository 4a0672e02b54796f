/** The concurrent machine, when one writer runs alone, does what the object's
    Write promises: the two descriptions are of the same program. */
module LogWriterSteps {
  import opened Wrappers
  import opened Lines
  import opened LogMerge
  import opened LogMergeSafety
  import opened LogMergeOverflow
  import LogWriter

  /** Writer a is in its loop; its buffer holds a header and then this text. */
  ghost predicate InLoop(s: State, a: AgentId, header: seq<Byte>, text: seq<Byte>) {
    && a in s.agents && s.agents[a].Writer? && s.agents[a].phase == Looping && s.agents[a].created
    && s.agents[a].own.Some? && s.agents[a].own.value in s.heap
    && s.heap[s.agents[a].own.value] == header + text
  }

  ghost predicate Clock(clock: nat -> seq<Byte>) {
    forall k: nat :: NEWLINE !in clock(k)
  }

  /** From s to t the writer has handed on exactly these contents. */
  ghost predicate HandedOn(s: State, t: State, contents: seq<seq<Byte>>) {
    && |t.sent| == |s.sent| + |contents| && t.sent[..|s.sent|] == s.sent
    && (forall k | 0 <= k < |contents| :: Content(t.sent[|s.sent| + k]) == contents[k])
    && |t.channel| == |s.channel| + |contents| && t.channel[..|s.channel|] == s.channel
  }

  lemma HandedOnMore(s: State, t: State, u: State, first: seq<Byte>, rest: seq<seq<Byte>>)
    requires HandedOn(s, t, [first]) && HandedOn(t, u, rest)
    ensures HandedOn(s, u, [first] + rest)
  {
    hide Content;
    var all := [first] + rest;
    forall k | 0 <= k < |all| ensures Content(u.sent[|s.sent| + k]) == all[k] {
      if k == 0 {
        assert u.sent[|s.sent|] == u.sent[..|t.sent|][|s.sent|];
      } else {
        assert Content(u.sent[|t.sent| + (k - 1)]) == rest[k - 1];
      }
    }
    assert u.sent[..|s.sent|] == u.sent[..|t.sent|][..|s.sent|];
    assert u.channel[..|s.channel|] == u.channel[..|t.channel|][..|s.channel|];
  }

  /** The contents of k lines, each behind its header. */
  function Contents(lines: seq<seq<Byte>>, header: seq<Byte>, clock: nat -> seq<Byte>, prefix: seq<Byte>): seq<seq<Byte>> {
    seq(|lines|, k requires 0 <= k < |lines| => LogWriter.HeaderAt(header, clock, prefix, k) + lines[k])
  }

  function Later(clock: nat -> seq<Byte>): nat -> seq<Byte> {
    k => clock(k + 1)
  }

  lemma ContentsCons(line: seq<Byte>, lines: seq<seq<Byte>>, header: seq<Byte>, clock: nat -> seq<Byte>, prefix: seq<Byte>)
    ensures Contents([line] + lines, header, clock, prefix)
         == [header + line] + Contents(lines, clock(0) + prefix, Later(clock), prefix)
    ensures LogWriter.HeaderAt(header, clock, prefix, |lines| + 1)
         == LogWriter.HeaderAt(clock(0) + prefix, Later(clock), prefix, |lines|)
  {}

  // ----- one round of the loop -----

  /** Writer a is about to send this content. */
  ghost predicate HasLine(s: State, a: AgentId, content: seq<Byte>, todo: seq<Byte>, prefix: seq<Byte>) {
    && a in s.agents && s.agents[a].Writer? && s.agents[a].phase == Sending && s.agents[a].created
    && s.agents[a].own.Some? && s.agents[a].own.value in s.heap && s.heap[s.agents[a].own.value] == content
    && s.agents[a].todo == todo && s.agents[a].prefix == prefix
  }

  /** Writer a has handed its buffer on and needs another. */
  ghost predicate NeedsBuffer(s: State, a: AgentId, todo: seq<Byte>, prefix: seq<Byte>) {
    && a in s.agents && s.agents[a].Writer? && s.agents[a].phase == Getting && s.agents[a].created
    && s.agents[a].own == None && s.agents[a].todo == todo && s.agents[a].prefix == prefix
  }

  lemma AppendsLine(s: State, a: AgentId, header: seq<Byte>, text: seq<Byte>)
    requires InLoop(s, a, header, text) && FirstNewline(s.agents[a].todo) < |s.agents[a].todo|
    ensures Enabled(s, Append(a))
    ensures var t, i, todo := Apply(s, Append(a)), FirstNewline(s.agents[a].todo), s.agents[a].todo;
            && HasLine(t, a, header + (text + todo[..i + 1]), todo[i + 1..], s.agents[a].prefix)
            && t.sent == s.sent && t.channel == s.channel
  {
    Assoc(header, text, s.agents[a].todo[..FirstNewline(s.agents[a].todo) + 1]);
    hide FirstNewline;
  }

  lemma SendsLine(s: State, a: AgentId, content: seq<Byte>, todo: seq<Byte>, prefix: seq<Byte>)
    requires Core(s) && HasLine(s, a, content, todo, prefix) && |s.channel| < CHANNEL_SIZE
    ensures Enabled(s, Send(a))
    ensures HandedOn(s, Apply(s, Send(a)), [content]) && NeedsBuffer(Apply(s, Send(a)), a, todo, prefix)
  {
    hide Core;
    SentContent(s, a);
    hide EntryOf, Content;
  }

  lemma GetsBuffer(s: State, a: AgentId)
    requires Core(s) && a in s.agents && s.agents[a].Writer? && s.agents[a].phase == Getting && s.agents[a].own == None
    ensures Enabled(s, Get(a))
    ensures var t := Apply(s, Get(a));
            && a in t.agents && t.agents[a].Writer? && t.agents[a] == s.agents[a].(phase := Heading, own := t.agents[a].own)
            && t.agents[a].own.Some? && t.agents[a].own.value in t.heap && t.heap[t.agents[a].own.value] == []
            && t.sent == s.sent && t.channel == s.channel
  {
    hide AgentsOk, SendersKnown;
    GetContents(s, a);
    hide ContentsKept;
  }

  lemma HeadsBuffer(s: State, a: AgentId, stamp: seq<Byte>)
    requires a in s.agents && s.agents[a].Writer? && s.agents[a].phase == Heading && s.agents[a].created
    requires s.agents[a].own.Some? && s.agents[a].own.value in s.heap && s.heap[s.agents[a].own.value] == []
    requires NEWLINE !in stamp
    ensures Enabled(s, Head(a, stamp))
    ensures var t := Apply(s, Head(a, stamp));
            && InLoop(t, a, stamp + s.agents[a].prefix, []) && t.sent == s.sent && t.channel == s.channel
            && t.agents[a].todo == s.agents[a].todo && t.agents[a].prefix == s.agents[a].prefix
  {}

  lemma HandedOnBetween(s: State, s': State, t': State, t: State, contents: seq<seq<Byte>>)
    requires HandedOn(s', t', contents)
    requires s'.sent == s.sent && s'.channel == s.channel && t.sent == t'.sent && t.channel == t'.channel
    ensures HandedOn(s, t, contents)
  {
    hide Content;
  }

  lemma LineGoes(s: State, a: AgentId, header: seq<Byte>, text: seq<Byte>, content: seq<Byte>, rest: seq<Byte>)
    returns (t: State)
    requires Inv(s) && InLoop(s, a, header, text) && |s.channel| < CHANNEL_SIZE
    requires FirstNewline(s.agents[a].todo) < |s.agents[a].todo|
    requires content == header + (text + s.agents[a].todo[..FirstNewline(s.agents[a].todo) + 1])
    requires rest == s.agents[a].todo[FirstNewline(s.agents[a].todo) + 1..]
    ensures Run(s, [] + [Append(a)] + [Send(a)], t) && Inv(t)
    ensures HandedOn(s, t, [content]) && NeedsBuffer(t, a, rest, s.agents[a].prefix)
  {
    assert Run(s, [], s);
    AppendsLine(s, a, header, text);
    hide Run, Enabled, Apply, Core, Accounted, FirstNewline, HandedOn, HasLine, NeedsBuffer;
    var s1 := Apply(s, Append(a));
    StepJoins(s, [], s, Append(a));
    StepKeepsInv(s, Append(a));
    SendsLine(s1, a, content, rest, s.agents[a].prefix);
    t := Apply(s1, Send(a));
    StepJoins(s, [] + [Append(a)], s1, Send(a));
    StepKeepsInv(s1, Send(a));
    HandedOnBetween(s, s1, t, t, [content]);
  }

  lemma BufferComes(s: State, a: AgentId, todo: seq<Byte>, prefix: seq<Byte>, stamp: seq<Byte>) returns (t: State)
    requires Inv(s) && NeedsBuffer(s, a, todo, prefix) && NEWLINE !in stamp
    ensures Run(s, [] + [Get(a)] + [Head(a, stamp)], t) && Inv(t)
    ensures InLoop(t, a, stamp + prefix, []) && t.agents[a].todo == todo && t.agents[a].prefix == prefix
    ensures t.sent == s.sent && t.channel == s.channel
  {
    assert Run(s, [], s);
    hide Run, Enabled, Apply, Core, Accounted;
    GetsBuffer(s, a);
    var s1 := Apply(s, Get(a));
    StepJoins(s, [], s, Get(a));
    StepKeepsInv(s, Get(a));
    HeadsBuffer(s1, a, stamp);
    t := Apply(s1, Head(a, stamp));
    StepJoins(s, [] + [Get(a)], s1, Head(a, stamp));
    StepKeepsInv(s1, Head(a, stamp));
  }

  /** Append, send, get and head: one line is handed on and a new buffer begun. */
  lemma LineAlone(s: State, a: AgentId, header: seq<Byte>, text: seq<Byte>, stamp: seq<Byte>)
    returns (steps: seq<Step>, t: State)
    requires Inv(s) && InLoop(s, a, header, text) && |s.channel| < CHANNEL_SIZE && NEWLINE !in stamp
    requires FirstNewline(s.agents[a].todo) < |s.agents[a].todo|
    ensures Run(s, steps, t) && Inv(t)
    ensures var todo, i := s.agents[a].todo, FirstNewline(s.agents[a].todo);
            && HandedOn(s, t, [header + (text + todo[..i + 1])])
            && InLoop(t, a, stamp + s.agents[a].prefix, [])
            && t.agents[a].todo == todo[i + 1..] && t.agents[a].prefix == s.agents[a].prefix
  {
    hide Run, Inv, HandedOn, NeedsBuffer;
    var todo, prefix := s.agents[a].todo, s.agents[a].prefix;
    var i := FirstNewline(todo);
    var content, rest := header + (text + todo[..i + 1]), todo[i + 1..];
    var mid := LineGoes(s, a, header, text, content, rest);
    hide FirstNewline, InLoop;
    t := BufferComes(mid, a, rest, prefix, stamp);
    HandedOnBetween(s, s, mid, t, [content]);
    RunsJoin(s, [] + [Append(a)] + [Send(a)], mid, [] + [Get(a)] + [Head(a, stamp)], t);
    steps := [] + [Append(a)] + [Send(a)] + ([] + [Get(a)] + [Head(a, stamp)]);
  }

  lemma RestAlone(s: State, a: AgentId, header: seq<Byte>, text: seq<Byte>)
    requires InLoop(s, a, header, text) && s.agents[a].todo != []
    requires FirstNewline(s.agents[a].todo) == |s.agents[a].todo|
    ensures Enabled(s, Append(a))
    ensures var t := Apply(s, Append(a));
            && InLoop(t, a, header, text + s.agents[a].todo) && t.agents[a].todo == [] && HandedOn(s, t, [])
  {
    Assoc(header, text, s.agents[a].todo);
  }

  /** The lines of the text at hand and the bytes to come. */
  lemma LinesAlone(text: seq<Byte>, todo: seq<Byte>)
    requires NEWLINE !in text && FirstNewline(todo) < |todo|
    ensures var i := FirstNewline(todo);
            && LinesOf(text + todo) == [text + todo[..i + 1]] + LinesOf(todo[i + 1..])
            && Rest(text + todo) == Rest(todo[i + 1..])
  {
    HeadIsLine(todo);
    hide LinesOf, Rest, WholeLine, FirstNewline;
    var i := FirstNewline(todo);
    var chunk, rest := todo[..i + 1], todo[i + 1..];
    SplitPlain(text);
    FeedLine(text, chunk);
    assert LinesOf(text + chunk) == [text + chunk];
    SplitResumes(text + chunk, rest);
    Assoc(text, chunk, rest);
    assert [] + rest == rest;
  }

  /** What the object's Write promises of the lines and the rest of `bytes`. */
  ghost predicate AsPromised(s: State, t: State, a: AgentId, header: seq<Byte>, bytes: seq<Byte>,
                             clock: nat -> seq<Byte>, prefix: seq<Byte>) {
    var lines := LinesOf(bytes);
    && HandedOn(s, t, Contents(lines, header, clock, prefix))
    && InLoop(t, a, LogWriter.HeaderAt(header, clock, prefix, |lines|), Rest(bytes))
    && t.agents[a].todo == []
  }

  lemma NothingToDo(s: State, a: AgentId, header: seq<Byte>, text: seq<Byte>, clock: nat -> seq<Byte>)
    requires InLoop(s, a, header, text) && NEWLINE !in text && s.agents[a].todo == []
    ensures AsPromised(s, s, a, header, text + [], clock, s.agents[a].prefix)
  {
    SplitPlain(text);
    assert text + [] == text;
    hide LinesOf, Rest;
  }

  lemma OnlyRest(s: State, a: AgentId, header: seq<Byte>, text: seq<Byte>, clock: nat -> seq<Byte>)
    requires InLoop(s, a, header, text) && NEWLINE !in text
    requires s.agents[a].todo != [] && FirstNewline(s.agents[a].todo) == |s.agents[a].todo|
    ensures Enabled(s, Append(a))
    ensures AsPromised(s, Apply(s, Append(a)), a, header, text + s.agents[a].todo, clock, s.agents[a].prefix)
  {
    NoNewline(s.agents[a].todo);
    SplitPlain(text + s.agents[a].todo);
    RestAlone(s, a, header, text);
    hide LinesOf, Rest, Apply, Enabled;
  }

  lemma LineThenRest(s: State, mid: State, t: State, a: AgentId, header: seq<Byte>, bytes: seq<Byte>,
                     line: seq<Byte>, rest: seq<Byte>, clock: nat -> seq<Byte>, prefix: seq<Byte>)
    requires LinesOf(bytes) == [line] + LinesOf(rest) && Rest(bytes) == Rest(rest)
    requires HandedOn(s, mid, [header + line])
    requires AsPromised(mid, t, a, clock(0) + prefix, rest, Later(clock), prefix)
    ensures AsPromised(s, t, a, header, bytes, clock, prefix)
  {
    hide LinesOf, Rest, HandedOn, InLoop;
    ContentsCons(line, LinesOf(rest), header, clock, prefix);
    hide Contents, LogWriter.HeaderAt;
    HandedOnMore(s, mid, t, header + line, Contents(LinesOf(rest), clock(0) + prefix, Later(clock), prefix));
  }

  /** The first round, when a line is complete, and what it leaves to the rest. */
  lemma FirstRound(s: State, a: AgentId, header: seq<Byte>, text: seq<Byte>, stamp: seq<Byte>)
    returns (steps: seq<Step>, t: State, line: seq<Byte>, rest: seq<Byte>)
    requires Inv(s) && InLoop(s, a, header, text) && NEWLINE !in text && NEWLINE !in stamp
    requires FirstNewline(s.agents[a].todo) < |s.agents[a].todo|
    requires |s.channel| + |LinesOf(text + s.agents[a].todo)| <= CHANNEL_SIZE
    ensures Run(s, steps, t) && Inv(t) && HandedOn(s, t, [header + line])
    ensures LinesOf(text + s.agents[a].todo) == [line] + LinesOf(rest) && Rest(text + s.agents[a].todo) == Rest(rest)
    ensures InLoop(t, a, stamp + s.agents[a].prefix, []) && t.agents[a].prefix == s.agents[a].prefix
    ensures t.agents[a].todo == rest && |rest| < |s.agents[a].todo|
    ensures |t.channel| + |LinesOf([] + rest)| <= CHANNEL_SIZE
  {
    var todo := s.agents[a].todo;
    LinesAlone(text, todo);
    var i := FirstNewline(todo);
    line, rest := text + todo[..i + 1], todo[i + 1..];
    hide Inv, LinesOf, Rest, HandedOn, Run;
    steps, t := LineAlone(s, a, header, text, stamp);
    OneHandedOn(s, t, header + line);
    assert [] + rest == rest;
  }

  /** The whole loop of Write, run by one writer while nobody else moves: the
      contents handed on and the content of the buffer at the end are those that
      the object's Write promises for the same bytes and the same clock. */
  lemma {:induction false} WriteAlone(s: State, a: AgentId, header: seq<Byte>, text: seq<Byte>, clock: nat -> seq<Byte>)
    returns (steps: seq<Step>, t: State)
    requires Inv(s) && InLoop(s, a, header, text) && NEWLINE !in text && Clock(clock)
    requires |s.channel| + |LinesOf(text + s.agents[a].todo)| <= CHANNEL_SIZE
    ensures Run(s, steps, t) && Inv(t)
    ensures AsPromised(s, t, a, header, text + s.agents[a].todo, clock, s.agents[a].prefix)
    decreases |s.agents[a].todo|
  {
    var todo, prefix := s.agents[a].todo, s.agents[a].prefix;
    hide Inv, LinesOf, Rest, FirstNewline, HandedOn, AsPromised, Enabled, Apply;
    if todo == [] {
      NothingToDo(s, a, header, text, clock);
      steps, t := [], s;
    } else if FirstNewline(todo) < |todo| {
      hide Run;
      var more, last: seq<Step>, mid: State;
      var line, rest: seq<Byte>;
      more, mid, line, rest := FirstRound(s, a, header, text, clock(0));
      assert [] + rest == rest;
      last, t := WriteAlone(mid, a, clock(0) + prefix, [], Later(clock));
      hide InLoop;
      LineThenRest(s, mid, t, a, header, text + todo, line, rest, clock, prefix);
      RunsJoin(s, more, mid, last, t);
      steps := more + last;
    } else {
      OnlyRest(s, a, header, text, clock);
      StepKeepsInv(s, Append(a));
      OneStep(s, Append(a));
      steps, t := [Append(a)], Apply(s, Append(a));
    }
  }

  lemma OneHandedOn(s: State, t: State, content: seq<Byte>)
    requires HandedOn(s, t, [content])
    ensures |t.channel| == |s.channel| + 1
  {}
}
