/** The order in which blocks of unequal length are written out: the first
    element of every block, then the second of every block that has one, and
    so on. */
module Interleaving {

  /** Element i of every block that has one. */
  function Column<T>(blocks: seq<seq<T>>, i: nat): seq<T> {
    if blocks == [] then []
    else (if i < |blocks[0]| then [blocks[0][i]] else []) + Column(blocks[1..], i)
  }

  function Interleaved<T>(blocks: seq<seq<T>>, rounds: nat): seq<T> {
    if rounds == 0 then [] else Interleaved(blocks, rounds - 1) + Column(blocks, rounds - 1)
  }

  lemma {:induction false} ColumnSnoc<T>(blocks: seq<seq<T>>, last: seq<T>, i: nat)
    ensures Column(blocks + [last], i) == Column(blocks, i) + if i < |last| then [last[i]] else []
  {
    if blocks == [] {
      assert ([] + [last])[1..] == [];
    } else {
      assert (blocks + [last])[1..] == blocks[1..] + [last];
      ColumnSnoc(blocks[1..], last, i);
    }
  }

  // ----- positions -----

  function Lengths<T>(blocks: seq<seq<T>>): (lens: seq<nat>)
    ensures |lens| == |blocks| && forall r | 0 <= r < |blocks| :: lens[r] == |blocks[r]|
  {
    seq(|blocks|, r requires 0 <= r < |blocks| => |blocks[r]|)
  }

  function Sum(lens: seq<nat>): nat {
    if lens == [] then 0 else lens[0] + Sum(lens[1..])
  }

  /** How many of the first r blocks are longer than i. */
  function Rank(lens: seq<nat>, r: nat, i: nat): nat
    requires r <= |lens|
  {
    if r == 0 then 0 else Rank(lens, r - 1, i) + if i < lens[r - 1] then 1 else 0
  }

  /** How many elements have an index below i. */
  function Before(lens: seq<nat>, i: nat): nat {
    if i == 0 then 0 else Before(lens, i - 1) + Rank(lens, |lens|, i - 1)
  }

  function Position(lens: seq<nat>, r: nat, i: nat): nat
    requires r < |lens|
  {
    Before(lens, i) + Rank(lens, r, i)
  }

  lemma {:induction false} ColumnAt<T>(blocks: seq<seq<T>>, i: nat)
    ensures |Column(blocks, i)| == Rank(Lengths(blocks), |blocks|, i)
    ensures forall r | 0 <= r < |blocks| && i < |blocks[r]| ::
              Rank(Lengths(blocks), r, i) < |Column(blocks, i)|
              && Column(blocks, i)[Rank(Lengths(blocks), r, i)] == blocks[r][i]
  {
    if blocks != [] {
      var front, last := blocks[..|blocks| - 1], blocks[|blocks| - 1];
      assert blocks == front + [last];
      ColumnSnoc(front, last, i);
      ColumnAt(front, i);
      assert Lengths(blocks)[..|front|] == Lengths(front);
      forall r: nat | r <= |front| ensures Rank(Lengths(blocks), r, i) == Rank(Lengths(front), r, i) {
        RankPrefix(Lengths(blocks), Lengths(front), r, i);
      }
    }
  }

  lemma {:induction false} RankPrefix(lens: seq<nat>, front: seq<nat>, r: nat, i: nat)
    requires r <= |front| <= |lens| && lens[..|front|] == front
    ensures Rank(lens, r, i) == Rank(front, r, i)
  {
    if r > 0 {
      RankPrefix(lens, front, r - 1, i);
      assert lens[r - 1] == lens[..|front|][r - 1];
    }
  }

  /** Element i of block r is found at its position in the stream. */
  lemma {:induction false} InterleavedAt<T>(blocks: seq<seq<T>>, rounds: nat, r: nat, i: nat)
    requires r < |blocks| && i < |blocks[r]| && i < rounds
    ensures |Interleaved(blocks, rounds)| == Before(Lengths(blocks), rounds)
    ensures Position(Lengths(blocks), r, i) < |Interleaved(blocks, rounds)|
    ensures Interleaved(blocks, rounds)[Position(Lengths(blocks), r, i)] == blocks[r][i]
  {
    hide Column, Rank;
    InterleavedLength(blocks, rounds);
    InterleavedLength(blocks, rounds - 1);
    ColumnAt(blocks, rounds - 1);
    if i < rounds - 1 {
      InterleavedAt(blocks, rounds - 1, r, i);
    }
  }

  lemma {:induction false} InterleavedLength<T>(blocks: seq<seq<T>>, rounds: nat)
    ensures |Interleaved(blocks, rounds)| == Before(Lengths(blocks), rounds)
  {
    hide Column, Rank;
    if rounds > 0 {
      InterleavedLength(blocks, rounds - 1);
      ColumnAt(blocks, rounds - 1);
    }
  }

  lemma {:induction false} RankMonotone(lens: seq<nat>, r: nat, s: nat, i: nat)
    requires r <= s <= |lens|
    ensures Rank(lens, r, i) <= Rank(lens, s, i)
    decreases s
  {
    if r < s { RankMonotone(lens, r, s - 1, i); }
  }

  lemma {:induction false} BeforeMonotone(lens: seq<nat>, i: nat, j: nat)
    requires i <= j
    ensures Before(lens, i) <= Before(lens, j)
    decreases j
  {
    if i < j { BeforeMonotone(lens, i, j - 1); }
  }

  /** Positions follow the order of (i, r). */
  lemma PositionsIncrease(lens: seq<nat>, r: nat, i: nat, s: nat, j: nat)
    requires r < |lens| && s < |lens| && i < lens[r] && j < lens[s]
    requires i < j || (i == j && r < s)
    ensures Position(lens, r, i) < Position(lens, s, j)
  {
    if i < j {
      RankMonotone(lens, r + 1, |lens|, i);
      BeforeMonotone(lens, i + 1, j);
    } else {
      RankMonotone(lens, r + 1, s, i);
    }
  }

  /** No two elements share a position. */
  lemma PositionsDistinct(lens: seq<nat>, r: nat, i: nat, s: nat, j: nat)
    requires r < |lens| && s < |lens| && i < lens[r] && j < lens[s]
    ensures Position(lens, r, i) == Position(lens, s, j) <==> r == s && i == j
  {
    if i < j || (i == j && r < s) {
      PositionsIncrease(lens, r, i, s, j);
    } else if j < i || (i == j && s < r) {
      PositionsIncrease(lens, s, j, r, i);
    }
  }

  lemma {:induction false} FindInColumn(lens: seq<nat>, i: nat, rank: nat, bound: nat) returns (r: nat)
    requires bound <= |lens| && rank < Rank(lens, bound, i)
    ensures r < bound && i < lens[r] && Rank(lens, r, i) == rank
    decreases bound
  {
    if rank < Rank(lens, bound - 1, i) {
      r := FindInColumn(lens, i, rank, bound - 1);
    } else {
      r := bound - 1;
    }
  }

  /** Every position below the total belongs to an element. */
  lemma {:induction false} Find(lens: seq<nat>, rounds: nat, k: nat) returns (r: nat, i: nat)
    requires k < Before(lens, rounds)
    ensures r < |lens| && i < rounds && i < lens[r] && Position(lens, r, i) == k
  {
    if k < Before(lens, rounds - 1) {
      r, i := Find(lens, rounds - 1, k);
    } else {
      i := rounds - 1;
      r := FindInColumn(lens, i, k - Before(lens, i), |lens|);
    }
  }

  // ----- the total -----

  ghost predicate Covers(lens: seq<nat>, rounds: nat) {
    forall r | 0 <= r < |lens| :: lens[r] <= rounds
  }

  function Least(a: nat, b: nat): nat {
    if a < b then a else b
  }

  function Clipped(lens: seq<nat>, rounds: nat): (c: seq<nat>)
    ensures |c| == |lens|
  {
    seq(|lens|, r requires 0 <= r < |lens| => Least(lens[r], rounds))
  }

  /** The elements with index below `rounds` are those of the clipped blocks. */
  lemma {:induction false} BeforeIsClippedSum(lens: seq<nat>, rounds: nat)
    ensures Before(lens, rounds) == Sum(Clipped(lens, rounds))
  {
    if rounds == 0 {
      SumOfZeros(Clipped(lens, 0));
    } else {
      BeforeIsClippedSum(lens, rounds - 1);
      ClipStep(lens, rounds - 1, |lens|);
      assert Clipped(lens, rounds)[..|lens|] == Clipped(lens, rounds);
      assert Clipped(lens, rounds - 1)[..|lens|] == Clipped(lens, rounds - 1);
    }
  }

  lemma {:induction false} SumOfZeros(lens: seq<nat>)
    requires forall r | 0 <= r < |lens| :: lens[r] == 0
    ensures Sum(lens) == 0
  {
    if lens != [] { SumOfZeros(lens[1..]); }
  }

  lemma {:induction false} SumSnoc(lens: seq<nat>, last: nat)
    ensures Sum(lens + [last]) == Sum(lens) + last
  {
    if lens != [] {
      assert (lens + [last])[1..] == lens[1..] + [last];
      SumSnoc(lens[1..], last);
    }
  }

  lemma {:induction false} ClipStep(lens: seq<nat>, i: nat, n: nat)
    requires n <= |lens|
    ensures Sum(Clipped(lens, i + 1)[..n]) == Sum(Clipped(lens, i)[..n]) + Rank(lens, n, i)
  {
    if n > 0 {
      var a, b := Clipped(lens, i), Clipped(lens, i + 1);
      ClipStep(lens, i, n - 1);
      assert a[..n] == a[..n - 1] + [a[n - 1]] && b[..n] == b[..n - 1] + [b[n - 1]];
      SumSnoc(a[..n - 1], a[n - 1]);
      SumSnoc(b[..n - 1], b[n - 1]);
    }
  }

  /** With enough rounds the stream has one entry for every element. */
  lemma TotalLength<T>(blocks: seq<seq<T>>, rounds: nat)
    requires Covers(Lengths(blocks), rounds)
    ensures |Interleaved(blocks, rounds)| == Sum(Lengths(blocks))
  {
    InterleavedLength(blocks, rounds);
    BeforeIsClippedSum(Lengths(blocks), rounds);
    assert Clipped(Lengths(blocks), rounds) == Lengths(blocks);
  }

  // ----- reading the blocks back -----

  /** Collect block r from its positions. */
  ghost function Deinterleaved<T>(lens: seq<nat>, stream: seq<T>, rounds: nat): (blocks: seq<seq<T>>)
    requires Covers(lens, rounds) && |stream| == Before(lens, rounds)
    ensures |blocks| == |lens| && forall r | 0 <= r < |lens| :: |blocks[r]| == lens[r]
  {
    seq(|lens|, r requires 0 <= r < |lens| =>
      seq(lens[r], i requires 0 <= i < lens[r] => (PositionBound(lens, r, i, rounds); stream[Position(lens, r, i)])))
  }

  lemma PositionBound(lens: seq<nat>, r: nat, i: nat, rounds: nat)
    requires r < |lens| && i < lens[r] && i < rounds
    ensures Position(lens, r, i) < Before(lens, rounds)
  {
    RankMonotone(lens, r + 1, |lens|, i);
    BeforeMonotone(lens, i + 1, rounds);
  }

  lemma DeinterleaveInterleaved<T>(blocks: seq<seq<T>>, rounds: nat)
    requires Covers(Lengths(blocks), rounds)
    ensures |Interleaved(blocks, rounds)| == Before(Lengths(blocks), rounds)
    ensures Deinterleaved(Lengths(blocks), Interleaved(blocks, rounds), rounds) == blocks
  {
    InterleavedLength(blocks, rounds);
    var lens, stream := Lengths(blocks), Interleaved(blocks, rounds);
    var back := Deinterleaved(lens, stream, rounds);
    forall r | 0 <= r < |blocks| ensures back[r] == blocks[r] {
      forall i | 0 <= i < |blocks[r]| ensures back[r][i] == blocks[r][i] {
        InterleavedAt(blocks, rounds, r, i);
      }
    }
  }

  lemma InterleaveDeinterleaved<T>(lens: seq<nat>, stream: seq<T>, rounds: nat)
    requires Covers(lens, rounds) && |stream| == Before(lens, rounds)
    ensures Interleaved(Deinterleaved(lens, stream, rounds), rounds) == stream
  {
    var blocks := Deinterleaved(lens, stream, rounds);
    assert Lengths(blocks) == lens;
    InterleavedLength(blocks, rounds);
    forall k | 0 <= k < |stream| ensures Interleaved(blocks, rounds)[k] == stream[k] {
      var r, i := Find(lens, rounds, k);
      InterleavedAt(blocks, rounds, r, i);
    }
  }
}
