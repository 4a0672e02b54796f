/** Cutting a byte stream into lines, as BufferWriter.Write does chunk by chunk. */
module Lines {
  type Byte = b: nat | b < 256

  const NEWLINE: Byte := 10

  /** bytes.IndexByte for the newline: the first position, or the length. */
  function FirstNewline(s: seq<Byte>): (i: nat)
    ensures i <= |s|
    ensures i < |s| ==> s[i] == NEWLINE
    ensures forall k | 0 <= k < i :: s[k] != NEWLINE
  {
    if s == [] || s[0] == NEWLINE then 0 else 1 + FirstNewline(s[1..])
  }

  /** The complete lines of a stream, newline included. */
  function LinesOf(s: seq<Byte>): seq<seq<Byte>>
    decreases |s|
  {
    var i := FirstNewline(s);
    if i == |s| then [] else [s[..i + 1]] + LinesOf(s[i + 1..])
  }

  /** What follows the last newline. */
  function Rest(s: seq<Byte>): seq<Byte>
    decreases |s|
  {
    var i := FirstNewline(s);
    if i == |s| then s else Rest(s[i + 1..])
  }

  function Joined(lines: seq<seq<Byte>>): seq<Byte> {
    if lines == [] then [] else lines[0] + Joined(lines[1..])
  }

  /** Exactly one newline, at the end. */
  ghost predicate WholeLine(line: seq<Byte>) {
    |line| > 0 && line[|line| - 1] == NEWLINE && NEWLINE !in line[..|line| - 1]
  }

  /** Lines and rest are the stream, cut behind every newline and nowhere else. */
  lemma {:induction false} SplitIsExact(s: seq<Byte>)
    ensures Joined(LinesOf(s)) + Rest(s) == s
    ensures forall k | 0 <= k < |LinesOf(s)| :: WholeLine(LinesOf(s)[k])
    ensures NEWLINE !in Rest(s)
    decreases |s|
  {
    var i := FirstNewline(s);
    if i < |s| {
      var head, tail := s[..i + 1], s[i + 1..];
      assert LinesOf(s) == [head] + LinesOf(tail) && Rest(s) == Rest(tail);
      SplitIsExact(tail);
      HeadIsLine(s);
      hide LinesOf, Rest, FirstNewline;
      assert Joined([head] + LinesOf(tail)) == head + Joined(LinesOf(tail));
      Assoc(head, Joined(LinesOf(tail)), Rest(tail));
    }
  }

  lemma HeadIsLine(s: seq<Byte>)
    requires FirstNewline(s) < |s|
    ensures WholeLine(s[..FirstNewline(s) + 1])
    ensures s == s[..FirstNewline(s) + 1] + s[FirstNewline(s) + 1..]
  {
    CutAt(s, FirstNewline(s));
  }

  lemma CutAt(s: seq<Byte>, i: nat)
    requires i < |s| && s[i] == NEWLINE && forall k | 0 <= k < i :: s[k] != NEWLINE
    ensures WholeLine(s[..i + 1]) && s == s[..i + 1] + s[i + 1..]
  {
    var line := s[..i + 1];
    assert |line| == i + 1 && line[i] == NEWLINE;
    forall b | b in line[..i] ensures b != NEWLINE {
      var k :| 0 <= k < i && line[..i][k] == b;
      assert b == s[k];
    }
  }

  lemma Assoc(a: seq<Byte>, b: seq<Byte>, c: seq<Byte>)
    ensures (a + b) + c == a + (b + c)
  {}

  /** There is no other way to cut it so. */
  lemma {:induction false} SplitIsUnique(s: seq<Byte>, lines: seq<seq<Byte>>, rest: seq<Byte>)
    requires Joined(lines) + rest == s && NEWLINE !in rest
    requires forall k | 0 <= k < |lines| :: WholeLine(lines[k])
    ensures lines == LinesOf(s) && rest == Rest(s)
    decreases |lines|
  {
    var i := FirstNewline(s);
    if lines == [] {
      assert s == rest;
    } else {
      var line, tail := lines[0], Joined(lines[1..]) + rest;
      assert s == line + tail;
      assert s[|line| - 1] == NEWLINE;
      assert forall k | 0 <= k < |line| - 1 :: s[k] != NEWLINE by {
        forall k | 0 <= k < |line| - 1 ensures s[k] != NEWLINE { assert s[k] in line[..|line| - 1]; }
      }
      assert i == |line| - 1;
      assert s[..i + 1] == line && s[i + 1..] == tail;
      SplitIsUnique(tail, lines[1..], rest);
    }
  }

  lemma {:induction false} JoinedConcat(a: seq<seq<Byte>>, b: seq<seq<Byte>>)
    ensures Joined(a + b) == Joined(a) + Joined(b)
  {
    if a == [] {
      assert [] + b == b;
    } else {
      assert (a + b)[1..] == a[1..] + b;
      JoinedConcat(a[1..], b);
    }
  }

  /** Cutting may stop anywhere and go on from the rest. */
  lemma SplitResumes(a: seq<Byte>, b: seq<Byte>)
    ensures LinesOf(a + b) == LinesOf(a) + LinesOf(Rest(a) + b)
    ensures Rest(a + b) == Rest(Rest(a) + b)
  {
    SplitIsExact(a);
    SplitIsExact(Rest(a) + b);
    hide LinesOf, Rest, Joined, WholeLine;
    var lines, rest := LinesOf(a) + LinesOf(Rest(a) + b), Rest(Rest(a) + b);
    JoinedConcat(LinesOf(a), LinesOf(Rest(a) + b));
    Assoc(Joined(LinesOf(a)), Joined(LinesOf(Rest(a) + b)), rest);
    Assoc(Joined(LinesOf(a)), Rest(a), b);
    SplitIsUnique(a + b, lines, rest);
  }

  lemma JoinedOne(line: seq<Byte>)
    ensures Joined([line]) == line
  {
    var lines := [line];
    assert lines[1..] == [];
  }

  lemma SplitPlain(s: seq<Byte>)
    requires NEWLINE !in s
    ensures LinesOf(s) == [] && Rest(s) == s
  {
    assert FirstNewline(s) == |s|;
  }

  /** A chunk without newline only lengthens the rest. */
  lemma FeedPlain(fed: seq<Byte>, chunk: seq<Byte>)
    requires NEWLINE !in chunk
    ensures LinesOf(fed + chunk) == LinesOf(fed) && Rest(fed + chunk) == Rest(fed) + chunk
  {
    SplitResumes(fed, chunk);
    SplitIsExact(fed);
    SplitPlain(Rest(fed) + chunk);
  }

  /** A chunk that ends with its only newline completes one line. */
  lemma FeedLine(fed: seq<Byte>, chunk: seq<Byte>)
    requires WholeLine(chunk)
    ensures LinesOf(fed + chunk) == LinesOf(fed) + [Rest(fed) + chunk] && Rest(fed + chunk) == []
  {
    SplitResumes(fed, chunk);
    SplitIsExact(fed);
    var line := Rest(fed) + chunk;
    assert line[..|line| - 1] == Rest(fed) + chunk[..|chunk| - 1];
    assert WholeLine(line);
    assert Joined([line]) == line by { JoinedOne(line); }
    SplitIsUnique(line, [line], []);
  }
}
