/** BufferPool, MergeWriter and BufferWriter as objects: one goroutine's view. */
module LogWriter {
  import opened Lines

  /** bytes.Buffer. */
  class Buffer {
    var data: seq<Byte>

    constructor ()
      ensures data == []
    {
      data := [];
    }

    method WriteBytes(bytes: seq<Byte>)
      modifies this
      ensures data == old(data) + bytes
    {
      data := data + bytes;
    }

    method Reset()
      modifies this
      ensures data == []
    {
      data := [];
    }
  }

  /** The bounded channel behind the pool. */
  class BufferPool {
    var c: seq<Buffer>
    const size: nat

    ghost predicate Valid()
      reads this, c
    {
      && |c| <= size
      && (forall i, j | 0 <= i < j < |c| :: c[i] != c[j])
      && (forall i | 0 <= i < |c| :: c[i].data == [])
    }

    constructor (size: nat)
      ensures Valid() && c == [] && this.size == size
    {
      c := [];
      this.size := size;
    }

    /** The oldest pooled buffer, or a new one; empty either way. */
    method Get() returns (b: Buffer)
      requires Valid()
      modifies this
      ensures Valid() && b.data == [] && b !in c
      ensures if old(c) == [] then fresh(b) && c == [] else b == old(c[0]) && c == old(c[1..])
    {
      if |c| > 0 {
        b := c[0];
        c := c[1..];
      } else {
        b := new Buffer();
      }
    }

    /** Emptied, and kept only if there is room. */
    method Put(b: Buffer)
      requires Valid() && b !in c
      modifies this, b
      ensures Valid() && b.data == []
      ensures c == old(c) + if |old(c)| < size then [b] else []
    {
      b.Reset();
      if |c| < size {
        c := c + [b];
      }
    }
  }

  /** The merger: a line channel that may be closed. */
  class MergeWriter {
    var lines: seq<Buffer>
    var closed: bool
    const pool: BufferPool

    constructor (pool: BufferPool)
      ensures lines == [] && !closed && this.pool == pool
    {
      lines := [];
      closed := false;
      this.pool := pool;
    }

    method Close()
      modifies `closed
      ensures closed
    {
      if !closed {
        closed := true;
      }
    }

    /** Hands the buffer on, or back to the pool when closed. */
    method WriteLine(line: Buffer)
      requires pool.Valid() && line !in pool.c && line !in lines
      modifies this, pool, line
      ensures pool.Valid() && closed == old(closed)
      ensures !closed ==> lines == old(lines) + [line] && line.data == old(line.data) && pool.c == old(pool.c)
      ensures closed ==> lines == old(lines) && pool.c == old(pool.c) + if |old(pool.c)| < pool.size then [line] else []
    {
      if closed {
        pool.Put(line);
        return;
      }
      lines := lines + [line];
    }

    /** WriteStrLine: one buffer with exactly this text. */
    method WriteStrLine(text: seq<Byte>)
      requires pool.Valid() && forall b | b in pool.c :: b !in lines
      modifies this, pool, pool.c
      ensures pool.Valid() && closed == old(closed)
      ensures closed ==> lines == old(lines) && pool.c == old(pool.c)
      ensures !closed ==> |lines| == |old(lines)| + 1 && lines[..|old(lines)|] == old(lines)
                          && lines[|old(lines)|].data == text && lines[|old(lines)|] !in pool.c
      ensures !closed ==> pool.c == if |old(pool.c)| > 0 then old(pool.c)[1..] else []
      ensures forall b | b in old(lines) :: b.data == old(b.data)
    {
      if closed { return; }
      ghost var before := lines;
      var buffer := pool.Get();
      buffer.WriteBytes(text);
      lines := lines + [buffer];
      assert lines[..|before|] == before;
    }
  }

  /** The header of the k-th buffer of a run of lines: the one at hand first,
      then a time and the prefix. */
  function HeaderAt(first: seq<Byte>, clock: nat -> seq<Byte>, prefix: seq<Byte>, k: nat): seq<Byte> {
    if k == 0 then first else clock(k - 1) + prefix
  }

  lemma HeadersAt(first: seq<Byte>, clock: nat -> seq<Byte>, prefix: seq<Byte>, k: nat)
    ensures HeaderAt(first, clock, prefix, 0) == first
    ensures HeaderAt(first, clock, prefix, k + 1) == clock(k) + prefix
  {}

  class BufferWriter {
    var buffer: Buffer
    const prefix: seq<Byte>
    const merge: MergeWriter

    /** No buffer is held twice. */
    ghost predicate Valid()
      reads this, merge, merge.pool, merge.pool.c
    {
      && merge.pool.Valid()
      && buffer !in merge.pool.c && buffer !in merge.lines
      && (forall b | b in merge.pool.c :: b !in merge.lines)
    }

    /** NewWriter: the first buffer starts with the prefix alone. */
    constructor (merge: MergeWriter, prefix: seq<Byte>)
      requires merge.pool.Valid()
      requires forall b | b in merge.pool.c :: b !in merge.lines
      modifies merge.pool, merge.pool.c
      ensures Valid() && this.merge == merge && this.prefix == prefix && buffer.data == prefix
      ensures merge.lines == old(merge.lines) && forall b | b in merge.lines :: b.data == old(b.data)
    {
      this.merge := merge;
      this.prefix := prefix;
      var b := merge.pool.Get();
      this.buffer := b;
      new;
      buffer.WriteBytes(prefix);
      assert [] + prefix == prefix;
    }

    /** A new buffer with the time and the prefix in it. */
    method NextBuffer(stamp: seq<Byte>)
      requires merge.pool.Valid()
      requires forall b | b in merge.pool.c :: b !in merge.lines
      modifies `buffer, merge.pool, merge.pool.c
      ensures Valid() && buffer.data == stamp + prefix
      ensures merge.pool.c == if |old(merge.pool.c)| > 0 then old(merge.pool.c)[1..] else []
      ensures fresh(buffer) || buffer in old(merge.pool.c)
      ensures buffer !in old(merge.lines) && forall b | b in merge.lines :: b.data == old(b.data)
    {
      var b := merge.pool.Get();
      b.WriteBytes(stamp + prefix);
      buffer := b;
      assert [] + (stamp + prefix) == stamp + prefix;
    }

    /** The branch of the loop that completes a line; on a closed merger the line
        is lost and its buffer goes back to the pool. */
    method FinishLine(chunk: seq<Byte>, stamp: seq<Byte>)
      requires Valid()
      modifies this, merge, merge.pool, merge.pool.c, buffer
      ensures Valid() && merge.closed == old(merge.closed) && buffer.data == stamp + prefix
      ensures !merge.closed ==> merge.lines == old(merge.lines) + [old(buffer)]
                                && old(buffer).data == old(buffer.data) + chunk
      ensures merge.closed ==> merge.lines == old(merge.lines)
      ensures forall b | b in merge.pool.c :: b in old(merge.pool.c) || b == old(buffer)
      ensures fresh(buffer) || buffer in old(merge.pool.c) || buffer == old(buffer)
      ensures forall b | b in old(merge.lines) :: b.data == old(b.data)
    {
      buffer.WriteBytes(chunk);
      merge.WriteLine(buffer);
      NextBuffer(stamp);
    }

    /** Write: `text` is what the held buffer carries behind its header.  The
        complete lines of text + p are handed on in order, each behind its own
        header, unless the merger is closed; the new buffer carries the rest. */
    method Write(p: seq<Byte>, clock: nat -> seq<Byte>, ghost header: seq<Byte>, ghost text: seq<Byte>)
      returns (n: nat, ghost added: seq<Buffer>)
      requires Valid() && buffer.data == header + text && NEWLINE !in text
      modifies this, merge, merge.pool, merge.pool.c, buffer
      ensures Valid() && merge.closed == old(merge.closed) && n == |p|
      ensures merge.lines == old(merge.lines) + added
      ensures |added| == if merge.closed then 0 else |LinesOf(text + p)|
      ensures forall k | 0 <= k < |added| :: added[k].data == HeaderAt(header, clock, prefix, k) + LinesOf(text + p)[k]
      ensures buffer.data == HeaderAt(header, clock, prefix, |LinesOf(text + p)|) + Rest(text + p)
      ensures forall b | b in old(merge.lines) :: b.data == old(b.data)
    {
      hide LinesOf, Rest, FirstNewline, HeaderAt, WholeLine;
      HeadersAt(header, clock, prefix, 0);
      n := |p|;
      added := [];
      var q := p;
      var ticks := 0;
      ghost var fed := text;
      SplitPlain(text);
      while |q| > 0
        invariant Valid() && merge.closed == old(merge.closed) && ticks == |LinesOf(fed)|
        invariant merge.lines == old(merge.lines) + added
        invariant |added| == if merge.closed then 0 else ticks
        invariant forall k | 0 <= k < |added| :: added[k].data == HeaderAt(header, clock, prefix, k) + LinesOf(fed)[k]
        invariant buffer.data == HeaderAt(header, clock, prefix, ticks) + Rest(fed) && fed + q == text + p
        invariant forall b | b in merge.pool.c :: fresh(b) || b in old(merge.pool.c) || b == old(buffer)
        invariant fresh(buffer) || buffer in old(merge.pool.c) || buffer == old(buffer)
        invariant forall b | b in old(merge.lines) :: b.data == old(b.data)
        decreases |q|
      {
        var index := FirstNewline(q);
        if index < |q| {
          ghost var chunk, head := q[..index + 1], HeaderAt(header, clock, prefix, ticks);
          HeadIsLine(q);
          FeedLine(fed, chunk);
          Assoc(fed, chunk, q[index + 1..]);
          Assoc(head, Rest(fed), chunk);
          HeadersAt(header, clock, prefix, ticks);
          added := if merge.closed then [] else added + [buffer];
          forall i | 0 <= i < |merge.pool.c|
            ensures fresh(merge.pool.c[i]) || merge.pool.c[i] in old(merge.pool.c) || merge.pool.c[i] == old(buffer)
          {
            assert merge.pool.c[i] in merge.pool.c;
          }
          FinishLine(q[..index + 1], clock(ticks));
          fed := fed + chunk;
          ticks := ticks + 1;
          q := q[index + 1..];
          EmptyTail(HeaderAt(header, clock, prefix, ticks));
        } else {
          FeedPlain(fed, q);
          Assoc(HeaderAt(header, clock, prefix, ticks), Rest(fed), q);
          buffer.WriteBytes(q);
          fed := fed + q;
          break;
        }
      }
      EmptyTail(fed);
    }

    lemma EmptyTail(s: seq<Byte>)
      ensures s + [] == s
    {}
  }
}
