/** The response writer that buffers a body until it is worth compressing. */
module GzipResponse {
  import opened Wrappers

  type Bytes = seq<nat>

  const STATUS_OK := 200

  /** What reaches the client: the status line with the encoding header as it is
      then, plain bytes, bytes through the compressor, and its end marker. */
  datatype Event = Status(code: int, gzipped: bool) | Plain(bytes: Bytes) | Packed(bytes: Bytes) | PackedEnd

  /** What a handler may call before the response is closed. */
  datatype Call = Write(bytes: Bytes) | WriteHeader(code: int)

  function Carried(e: Event): Bytes {
    match e
    case Plain(b) => b
    case Packed(b) => b
    case _ => []
  }

  function Body(log: seq<Event>): Bytes {
    if log == [] then [] else Body(log[..|log| - 1]) + Carried(log[|log| - 1])
  }

  lemma BodySnoc(log: seq<Event>, e: Event)
    ensures Body(log + [e]) == Body(log) + Carried(e)
  {
    assert (log + [e])[..|log|] == log;
  }

  function Total(calls: seq<Call>): Bytes {
    if calls == [] then []
    else Total(calls[..|calls| - 1]) + if calls[|calls| - 1].Write? then calls[|calls| - 1].bytes else []
  }

  lemma BodyUnfold(log: seq<Event>)
    ensures log != [] ==> Body(log) == Body(log[..|log| - 1]) + Carried(log[|log| - 1])
  {}

  lemma Regroup(a: Bytes, b: Bytes, c: Bytes)
    ensures a + b + c == a + (b + c)
  {}

  /** The body of a log, and the bytes of calls, are those of its parts in order. */
  lemma {:induction false} BodyJoins(a: seq<Event>, b: seq<Event>)
    ensures Body(a + b) == Body(a) + Body(b)
  {
    if b == [] {
      assert a + b == a;
    } else {
      hide Body, Carried;
      var front, last := b[..|b| - 1], b[|b| - 1];
      BodyJoins(a, front);
      BodyUnfold(b);
      BodyUnfold(a + b);
      assert (a + b)[..|a + b| - 1] == a + front;
      Regroup(Body(a), Body(front), Carried(last));
    }
  }

  lemma {:induction false} TotalJoins(a: seq<Call>, b: seq<Call>)
    ensures Total(a + b) == Total(a) + Total(b)
  {
    if b == [] {
      assert a + b == a;
    } else {
      var front, last := b[..|b| - 1], b[|b| - 1];
      TotalJoins(a, front);
      assert (a + b)[..|a + b| - 1] == a + front;
    }
  }

  function Wrote(calls: seq<Call>): bool {
    exists k :: 0 <= k < |calls| && calls[k].Write?
  }

  /** The last status a handler asked for; 0 when it asked for none. */
  function LastCode(calls: seq<Call>): int {
    if calls == [] then 0
    else if calls[|calls| - 1].WriteHeader? then calls[|calls| - 1].code
    else LastCode(calls[..|calls| - 1])
  }

  /** The last code: what is written afterwards does not matter. */
  lemma {:induction false} LastCodeIs(before: seq<Call>, c: int, after: seq<Call>)
    requires forall k | 0 <= k < |after| :: after[k].Write?
    ensures LastCode(after) == 0
    ensures LastCode(before + [WriteHeader(c)] + after) == c
  {
    var calls := before + [WriteHeader(c)] + after;
    if after != [] {
      LastCodeIs(before, c, after[..|after| - 1]);
      assert calls[..|calls| - 1] == before + [WriteHeader(c)] + after[..|after| - 1];
    }
  }

  function OrDefault(code: int): int {
    if code == 0 then STATUS_OK else code
  }

  /** Compression is decided by the bytes alone. */
  predicate Compresses(calls: seq<Call>, minSize: nat) {
    Wrote(calls) && |Total(calls)| >= minSize
  }

  lemma CallSnoc(calls: seq<Call>, c: Call)
    ensures Total(calls + [c]) == if c.Write? then Total(calls) + c.bytes else Total(calls)
    ensures Wrote(calls + [c]) == (Wrote(calls) || c.Write?)
    ensures LastCode(calls + [c]) == if c.WriteHeader? then c.code else LastCode(calls)
  {
    var all := calls + [c];
    assert all[..|calls|] == calls && all[|calls|] == c;
    if Wrote(calls) {
      var k :| 0 <= k < |calls| && calls[k].Write?;
      assert all[k].Write?;
    }
    if Wrote(all) && !c.Write? {
      var k :| 0 <= k < |all| && all[k].Write?;
      assert calls[k].Write?;
    }
  }

  /** The status is settled by the first `commit` calls: those before the write
      that starts compression, or all of them. */
  ghost predicate CommitsAt(calls: seq<Call>, commit: nat, minSize: nat) {
    && commit <= |calls|
    && !Compresses(calls[..commit], minSize)
    && (commit < |calls| ==> calls[commit].Write? && Compresses(calls[..commit + 1], minSize))
  }

  /** The response in one glance. */
  ghost predicate Answers(calls: seq<Call>, minSize: nat, log: seq<Event>) {
    && |log| > 0
    && (exists commit: nat :: CommitsAt(calls, commit, minSize)
          && log[0] == Status(OrDefault(LastCode(calls[..commit])), Compresses(calls, minSize)))
    && (forall k | 1 <= k < |log| :: !log[k].Status? && (Compresses(calls, minSize) <==> !log[k].Plain?))
    && Body(log) == Total(calls)
    && (Compresses(calls, minSize) ==> log[|log| - 1] == PackedEnd && forall k | 0 <= k < |log| - 1 :: log[k] != PackedEnd)
  }

  class GzipResponseWriter {
    // The underlying response.
    var log: seq<Event>
    var encodingHeader: bool
    // The writer's own fields; a nil buf is None.
    var gw: bool
    var code: int
    var buf: Option<Bytes>
    const minSize: nat
    // The calls so far and where the status was settled.
    ghost var calls: seq<Call>
    ghost var commit: nat

    ghost predicate Valid()
      reads this
    {
      && CommitsAt(calls, commit, minSize)
      && (gw <==> buf == None) && (gw <==> encodingHeader)
      && (gw <==> Compresses(calls, minSize))
      && (!gw ==> log == [] && buf == Some(Total(calls)) && code == LastCode(calls) && commit == |calls|)
      && (gw ==> |log| > 0 && log[0] == Status(OrDefault(LastCode(calls[..commit])), true) && Body(log) == Total(calls)
                 && forall k | 1 <= k < |log| :: log[k].Packed?)
    }

    constructor (minSize: nat)
      ensures Valid() && calls == [] && this.minSize == minSize
    {
      log, encodingHeader, gw, code, buf := [], false, false, 0, Some([]);
      this.minSize := minSize;
      calls, commit := [], 0;
    }

    /** writeHeader: the status goes out, with whatever headers are set. */
    method SendHeader()
      modifies `code, `log
      ensures code == OrDefault(old(code)) && log == old(log) + [Status(code, encodingHeader)]
    {
      if code == 0 {
        code := STATUS_OK;
      }
      log := log + [Status(code, encodingHeader)];
    }

    method SetHeaderCode(c: int)
      requires Valid()
      modifies `code, `calls, `commit
      ensures Valid() && calls == old(calls) + [WriteHeader(c)]
    {
      CallSnoc(calls, WriteHeader(c));
      hide Total, LastCode, Body, Wrote;
      ghost var all := calls + [WriteHeader(c)];
      assert forall k | 0 <= k <= |calls| :: all[..k] == calls[..k];
      assert calls[..|calls|] == calls;
      code := c;
      commit := if gw then commit else |all|;
      calls := all;
      assert all[..|all|] == all;
    }

    /** startGzip: header, then everything buffered. */
    method StartGzip()
      requires !gw && buf.Some? && log == []
      modifies `gw, `buf, `log, `code, `encodingHeader
      ensures gw && buf == None && encodingHeader
      ensures log == [Status(OrDefault(old(code)), true), Packed(old(buf).value)]
    {
      encodingHeader := true;
      SendHeader();
      gw := true;
      log := log + [Packed(buf.value)];
      buf := None;
    }

    method WriteBytes(b: Bytes) returns (n: nat)
      requires Valid()
      modifies this
      ensures Valid() && calls == old(calls) + [Write(b)] && n == |b|
    {
      CallSnoc(calls, Write(b));
      hide Total, LastCode, Body, Wrote;
      n := |b|;
      ghost var all := calls + [Write(b)];
      assert forall k | 0 <= k <= |calls| :: all[..k] == calls[..k];
      assert all[..|all|] == all && calls[..|calls|] == calls;
      if gw {
        BodySnoc(log, Packed(b));
        log := log + [Packed(b)];
        calls := all;
        return;
      }
      buf := Some(buf.value + b);
      if |buf.value| >= minSize {
        TwoEvents(OrDefault(code), buf.value);
        StartGzip();
        commit := |calls|;
      } else {
        commit := |all|;
      }
      calls := all;
    }

    /** Close ends the response. */
    method Close()
      requires Valid()
      modifies `gw, `log, `code
      ensures Answers(calls, minSize, log) && !gw
    {
      hide Total, LastCode, Wrote;
      assert calls[..|calls|] == calls;
      if buf != None {
        OneEvent(OrDefault(code), buf.value);
        SendHeader();
        log := log + [Plain(buf.value)];
      }
      if !gw { return; }
      BodySnoc(log, PackedEnd);
      log := log + [PackedEnd];
      gw := false;
    }
  }

  lemma TwoEvents(code: int, bytes: Bytes)
    ensures Body([Status(code, true), Packed(bytes)]) == bytes
  {
    BodySnoc([], Status(code, true));
    BodySnoc([Status(code, true)], Packed(bytes));
    assert [] + [Status(code, true)] == [Status(code, true)];
    assert [Status(code, true)] + [Packed(bytes)] == [Status(code, true), Packed(bytes)];
  }

  lemma OneEvent(code: int, bytes: Bytes)
    ensures Body([Status(code, false), Plain(bytes)]) == bytes
    ensures [] + [Status(code, false)] + [Plain(bytes)] == [Status(code, false), Plain(bytes)]
  {
    BodySnoc([], Status(code, false));
    BodySnoc([Status(code, false)], Plain(bytes));
    assert [] + [Status(code, false)] == [Status(code, false)];
    assert [Status(code, false)] + [Plain(bytes)] == [Status(code, false), Plain(bytes)];
  }

  /** The wrapper around a handler: its calls, then the deferred Close. */
  method Serve(calls: seq<Call>, minSize: nat) returns (log: seq<Event>)
    ensures Answers(calls, minSize, log)
  {
    var w := new GzipResponseWriter(minSize);
    for i := 0 to |calls|
      invariant w.Valid() && w.calls == calls[..i] && w.minSize == minSize
    {
      assert calls[..i + 1] == calls[..i] + [calls[i]];
      match calls[i]
      case Write(b) => var n := w.WriteBytes(b);
      case WriteHeader(c) => w.SetHeaderCode(c);
    }
    assert calls[..|calls|] == calls;
    w.Close();
    log := w.log;
  }

  /** One write and nothing else: status 200, compressed from minSize bytes on. */
  lemma OneWrite(b: Bytes, minSize: nat, log: seq<Event>)
    requires Answers([Write(b)], minSize, log)
    ensures log[0] == Status(200, |b| >= minSize) && Body(log) == b
  {
    hide Body, Total, Wrote, LastCode;
    OneCall(b);
    assert [Write(b)][..0] == [];
  }

  lemma OneCall(b: Bytes)
    ensures Total([Write(b)]) == b && Wrote([Write(b)]) && LastCode([Write(b)]) == 0 && LastCode([]) == 0
    ensures [Write(b)][..1] == [Write(b)]
  {
    assert [] + [Write(b)] == [Write(b)];
    CallSnoc([], Write(b));
  }

  /** A status asked for first is the one that is sent. */
  lemma HeaderThenWrite(c: int, b: Bytes, minSize: nat, log: seq<Event>)
    requires c != 0 && Answers([WriteHeader(c), Write(b)], minSize, log)
    ensures log[0] == Status(c, |b| >= minSize) && Body(log) == b
  {
    hide Body, Total, Wrote, LastCode;
    var calls := [WriteHeader(c), Write(b)];
    TwoCalls(c, b);
    assert calls[0] == WriteHeader(c);
    var commit: nat :| CommitsAt(calls, commit, minSize)
                       && log[0] == Status(OrDefault(LastCode(calls[..commit])), Compresses(calls, minSize));
  }

  lemma TwoCalls(c: int, b: Bytes)
    ensures var calls := [WriteHeader(c), Write(b)];
            && Total(calls) == b && Wrote(calls) && LastCode(calls[..1]) == c && LastCode(calls[..2]) == c
  {
    var calls := [WriteHeader(c), Write(b)];
    assert [] + [WriteHeader(c)] == calls[..1] && calls[..1] + [Write(b)] == calls == calls[..2];
    CallSnoc([], WriteHeader(c));
    CallSnoc(calls[..1], Write(b));
  }

  /** The commit point, and so the status, is unique. */
  lemma CommitUnique(calls: seq<Call>, a: nat, b: nat, minSize: nat)
    requires CommitsAt(calls, a, minSize) && CommitsAt(calls, b, minSize)
    ensures a == b
  {
    if a < b {
      CompressionStays(calls, a + 1, b, minSize);
    } else if b < a {
      CompressionStays(calls, b + 1, a, minSize);
    }
  }

  lemma {:induction false} CompressionStays(calls: seq<Call>, a: nat, b: nat, minSize: nat)
    requires a <= b <= |calls| && Compresses(calls[..a], minSize)
    ensures Compresses(calls[..b], minSize)
    decreases b
  {
    if a < b {
      CompressionStays(calls, a, b - 1, minSize);
      CallSnoc(calls[..b - 1], calls[b - 1]);
      assert calls[..b] == calls[..b - 1] + [calls[b - 1]];
    }
  }
}
