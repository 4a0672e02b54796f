/** createBytes: cut the data into blocks, append check bytes to each, and
    interleave. */
module Codewords {
  import opened Wrappers
  import opened QRMath
  import opened Polynomials
  import opened ReedSolomon
  import opened QRPolynomial
  import I = Interleaving

  /** A block of the error-correction table; check bytes fill the total. */
  datatype RSBlock = RSBlock(totalCount: nat, dataCount: nat) {
    predicate Valid() { dataCount <= totalCount }
    function EcCount(): int { totalCount - dataCount }
  }

  predicate ValidBlocks(blocks: seq<RSBlock>) {
    forall r | 0 <= r < |blocks| :: blocks[r].Valid()
  }

  function DataCounts(blocks: seq<RSBlock>): (c: seq<nat>)
    ensures |c| == |blocks| && forall r {:trigger c[r]} | 0 <= r < |blocks| :: c[r] == blocks[r].dataCount
  {
    seq(|blocks|, r requires 0 <= r < |blocks| => blocks[r].dataCount)
  }

  function EcCounts(blocks: seq<RSBlock>): (c: seq<nat>)
    requires ValidBlocks(blocks)
    ensures |c| == |blocks| && forall r {:trigger c[r]} | 0 <= r < |blocks| :: c[r] == blocks[r].EcCount()
  {
    seq(|blocks|, r requires 0 <= r < |blocks| => blocks[r].EcCount())
  }

  function TotalCounts(blocks: seq<RSBlock>): (c: seq<nat>)
    ensures |c| == |blocks| && forall r {:trigger c[r]} | 0 <= r < |blocks| :: c[r] == blocks[r].totalCount
  {
    seq(|blocks|, r requires 0 <= r < |blocks| => blocks[r].totalCount)
  }

  // ----- one block -----

  /** Byte i of the buffer; reading past its end gives undefined & 0xff = 0. */
  function ByteAt(buffer: seq<bv8>, i: nat): bv8 {
    if i < |buffer| then buffer[i] else 0
  }

  function Slice(buffer: seq<bv8>, offset: nat, count: nat): (s: Poly)
    ensures |s| == count
  {
    seq(count, i requires 0 <= i < count => ByteAt(buffer, i + offset))
  }

  /** The generator of degree 255 has zero coefficients and larger ones cannot
      be built; no block of the table asks for more than 30 check bytes. */
  ghost predicate BlockThrows(data: Poly, ecCount: nat) {
    ecCount > 255 || (ecCount == 255 && Strip(data) != [])
  }

  lemma RawPolynomial(data: Poly, n: nat, raw: seq<Coef>)
    requires raw == DropZeros(Known(data)) + Unset(n)
    ensures Stripped(raw)
    ensures |raw| == |Strip(data)| + n
    ensures n <= 255 ==> Generator(n)[0] != 0 && Remainder(Values(raw), Generator(n)) == CheckBytes(data, n)
  {
    hide Remainder, Generator, Mul, Add;
    DropZerosOfKnown(data);
    StripShape(data);
    if n <= 255 {
      GeneratorMonic(n);
      assert Values(raw) == Strip(data) + Zeros(n);
      var padded := data + Zeros(n);
      var k := |data| - |Strip(data)|;
      RemainderSkipsZeros(padded, Generator(n), k);
      assert padded[k..] == Values(raw);
    }
  }

  lemma DivisorFacts(n: nat)
    requires n <= 255
    ensures Known(Generator(n)) != [] && Values(Known(Generator(n))) == Generator(n)
    ensures Known(Generator(n))[0] == Some(1)
    ensures Some(0) in Known(Generator(n)) <==> n == 255
  {
    hide Generator;
    GeneratorMonic(n);
    var g := Generator(n);
    if n == 255 {
      GeneratorOfFullDegree();
      assert Known(g)[1] == Some(0);
    } else {
      forall k | 0 <= k < |g| ensures Known(g)[k] != Some(0) {
        GeneratorCoefficientsNonZero(n, k);
      }
    }
  }

  /** The check bytes of one block. */
  method BlockCheck(t: Tables, data: Poly, ecCount: nat) returns (r: Result<seq<Coef>>)
    requires t.Valid()
    ensures r == Thrown <==> BlockThrows(data, ecCount)
    ensures r.Ok? ==> |r.value| == ecCount && Values(r.value) == CheckBytes(data, ecCount)
  {
    hide Remainder, Generator, Mul, Add, Pow, Num, CheckBytes;
    var rsPoly := GetErrorCorrectPolynomial(t, ecCount);
    if rsPoly.Thrown? { return Thrown; }
    DivisorFacts(ecCount);
    var rawPoly := Make(Known(data), |rsPoly.value.num| - 1);
    RawPolynomial(data, ecCount, rawPoly.num);
    var modPoly := Mod(t, rawPoly, rsPoly.value);
    if modPoly.Thrown? { return Thrown; }
    var check := AlignRight(modPoly.value.num, |rsPoly.value.num| - 1);
    r := Ok(check);
  }

  /** The loop that copies the remainder behind as many zeros as it lacks. */
  method AlignRight(rest: seq<Coef>, count: nat) returns (check: seq<Coef>)
    requires |rest| <= count
    ensures Values(check) == Zeros(count - |rest|) + Values(rest)
  {
    var cells := new Coef[count](_ => None);
    for i := 0 to count
      invariant forall k | 0 <= k < i ::
          cells[k] == if k < count - |rest| then Some(0) else rest[k + |rest| - count]
    {
      var modIndex := i + |rest| - count;
      cells[i] := if modIndex >= 0 then rest[modIndex] else Some(0);
    }
    check := cells[..];
  }

  // ----- all blocks -----

  function SumOfCounts(counts: seq<nat>, r: nat): nat
    requires r <= |counts|
  {
    if r == 0 then 0 else SumOfCounts(counts, r - 1) + counts[r - 1]
  }

  /** The data bytes of every block, in buffer order. */
  function DataBlocks(buffer: seq<bv8>, blocks: seq<RSBlock>): (d: seq<Poly>)
    ensures |d| == |blocks|
    ensures forall r {:trigger d[r]} | 0 <= r < |blocks| :: |d[r]| == blocks[r].dataCount
  {
    seq(|blocks|, r requires 0 <= r < |blocks| =>
      Slice(buffer, SumOfCounts(DataCounts(blocks), r), blocks[r].dataCount))
  }

  ghost function EcBlocks(buffer: seq<bv8>, blocks: seq<RSBlock>): (e: seq<Poly>)
    requires ValidBlocks(blocks)
    ensures |e| == |blocks|
    ensures forall r {:trigger e[r]} | 0 <= r < |blocks| :: |e[r]| == blocks[r].EcCount()
  {
    seq(|blocks|, r requires 0 <= r < |blocks| =>
      CheckBytes(DataBlocks(buffer, blocks)[r], blocks[r].EcCount()))
  }

  function Greatest(counts: seq<nat>, r: nat): (m: nat)
    requires r <= |counts|
    ensures forall k | 0 <= k < r :: counts[k] <= m
  {
    if r == 0 then 0
    else
      var m := Greatest(counts, r - 1);
      if m < counts[r - 1] then counts[r - 1] else m
  }

  /** The final byte sequence: all data, then all check bytes, each interleaved. */
  ghost function Stream(buffer: seq<bv8>, blocks: seq<RSBlock>): Poly
    requires ValidBlocks(blocks)
  {
    I.Interleaved(DataBlocks(buffer, blocks), Greatest(DataCounts(blocks), |blocks|))
    + I.Interleaved(EcBlocks(buffer, blocks), Greatest(EcCounts(blocks), |blocks|))
  }

  /** One interleaving pass: data[index++] for every element in turn. */
  method Emit(parts: seq<seq<Coef>>, rounds: nat, data: array<Coef>, start: nat, ghost done: seq<Coef>)
    returns (index: nat)
    requires I.Covers(I.Lengths(parts), rounds)
    requires start == |done| <= data.Length && data[..start] == done
    requires start + I.Sum(I.Lengths(parts)) <= data.Length
    modifies data
    ensures index == start + I.Sum(I.Lengths(parts))
    ensures data[..index] == done + I.Interleaved(parts, rounds)
  {
    hide I.Interleaved, I.Column, I.Sum, I.Lengths;
    index := start;
    EmitStart(parts);
    for i := 0 to rounds
      invariant index == start + |I.Interleaved(parts, i)| <= data.Length
      invariant data[..index] == done + I.Interleaved(parts, i)
    {
      ghost var row := done + I.Interleaved(parts, i);
      ghost var base := index;
      for r := 0 to |parts|
        invariant index == base + |I.Column(parts[..r], i)| <= data.Length
        invariant data[..index] == row + I.Column(parts[..r], i)
      {
        EmitStep(parts, rounds, i, r);
        if i < |parts[r]| {
          data[index] := parts[r][i];
          index := index + 1;
        }
      }
      EmitRow(parts, i);
    }
    I.TotalLength(parts, rounds);
  }

  lemma EmitStart(parts: seq<seq<Coef>>)
    ensures I.Interleaved(parts, 0) == []
    ensures forall i: nat :: I.Column(parts[..0], i) == []
  {}

  lemma EmitStep(parts: seq<seq<Coef>>, rounds: nat, i: nat, r: nat)
    requires r < |parts| && i < rounds && I.Covers(I.Lengths(parts), rounds)
    ensures I.Column(parts[..r + 1], i) == I.Column(parts[..r], i) + if i < |parts[r]| then [parts[r][i]] else []
    ensures |I.Interleaved(parts, i)| + |I.Column(parts[..r + 1], i)| <= I.Sum(I.Lengths(parts))
  {
    hide I.Column, I.Rank, I.Sum;
    assert parts[..r + 1] == parts[..r] + [parts[r]];
    I.ColumnSnoc(parts[..r], parts[r], i);
    I.ColumnAt(parts[..r + 1], i);
    var lens := I.Lengths(parts);
    I.RankPrefix(lens, I.Lengths(parts[..r + 1]), r + 1, i);
    I.RankMonotone(lens, r + 1, |parts|, i);
    I.InterleavedLength(parts, i);
    I.BeforeMonotone(lens, i + 1, rounds);
    I.InterleavedLength(parts, rounds);
    I.TotalLength(parts, rounds);
  }

  lemma EmitRow(parts: seq<seq<Coef>>, i: nat)
    ensures I.Interleaved(parts, i + 1) == I.Interleaved(parts, i) + I.Column(parts, i)
    ensures parts[..|parts|] == parts
  {}

  ghost predicate HaveValues(parts: seq<seq<Coef>>, polys: seq<Poly>) {
    |parts| == |polys| && forall r | 0 <= r < |parts| :: Values(parts[r]) == polys[r]
  }

  lemma {:induction false} ValuesOfColumn(parts: seq<seq<Coef>>, polys: seq<Poly>, i: nat)
    requires HaveValues(parts, polys)
    ensures Values(I.Column(parts, i)) == I.Column(polys, i)
  {
    if parts != [] {
      ValuesOfColumn(parts[1..], polys[1..], i);
      assert Values(parts[0]) == polys[0];
    }
  }

  lemma {:induction false} ValuesOfInterleaved(parts: seq<seq<Coef>>, polys: seq<Poly>, rounds: nat)
    requires HaveValues(parts, polys)
    ensures Values(I.Interleaved(parts, rounds)) == I.Interleaved(polys, rounds)
  {
    hide I.Column;
    if rounds > 0 {
      ValuesOfInterleaved(parts, polys, rounds - 1);
      ValuesOfColumn(parts, polys, rounds - 1);
    }
  }

  lemma {:induction false} SumOfLengths(counts: seq<nat>, r: nat)
    requires r <= |counts|
    ensures SumOfCounts(counts, r) == I.Sum(counts[..r])
  {
    if r > 0 {
      SumOfLengths(counts, r - 1);
      I.SumSnoc(counts[..r - 1], counts[r - 1]);
      assert counts[..r] == counts[..r - 1] + [counts[r - 1]];
    }
  }

  lemma {:induction false} TotalsAdd(blocks: seq<RSBlock>, r: nat)
    requires ValidBlocks(blocks) && r <= |blocks|
    ensures SumOfCounts(TotalCounts(blocks), r)
         == SumOfCounts(DataCounts(blocks), r) + SumOfCounts(EcCounts(blocks), r)
  {
    if r > 0 { TotalsAdd(blocks, r - 1); }
  }

  lemma HaveNone(d: seq<Poly>, e: seq<Poly>)
    ensures HaveValues([], d[..0]) && HaveValues([], e[..0])
  {}

  lemma HaveMore(parts: seq<seq<Coef>>, polys: seq<Poly>, b: nat, next: seq<Coef>)
    requires b < |polys| && HaveValues(parts, polys[..b]) && Values(next) == polys[b]
    ensures HaveValues(parts + [next], polys[..b + 1])
  {}

  lemma BlocksAt(buffer: seq<bv8>, blocks: seq<RSBlock>, b: nat)
    requires ValidBlocks(blocks) && b < |blocks|
    ensures DataBlocks(buffer, blocks)[b] == Slice(buffer, SumOfCounts(DataCounts(blocks), b), blocks[b].dataCount)
    ensures Values(Known(DataBlocks(buffer, blocks)[b])) == DataBlocks(buffer, blocks)[b]
    ensures EcBlocks(buffer, blocks)[b] == CheckBytes(DataBlocks(buffer, blocks)[b], blocks[b].EcCount())
  {}

  lemma LengthsOfBlocks(buffer: seq<bv8>, blocks: seq<RSBlock>)
    requires ValidBlocks(blocks)
    ensures I.Lengths(DataBlocks(buffer, blocks)) == DataCounts(blocks)
    ensures I.Lengths(EcBlocks(buffer, blocks)) == EcCounts(blocks)
  {}

  /** createBytes: throws exactly when a block needs a generator with a zero
      coefficient; otherwise the data array ends up exactly full. */
  method CreateBytes(t: Tables, buffer: seq<bv8>, blocks: seq<RSBlock>) returns (r: Result<seq<Coef>>)
    requires t.Valid() && ValidBlocks(blocks)
    ensures r == Thrown <==> exists b ::
              0 <= b < |blocks| && BlockThrows(DataBlocks(buffer, blocks)[b], blocks[b].EcCount())
    ensures r.Ok? ==> Values(r.value) == Stream(buffer, blocks)
    ensures r.Ok? ==> |r.value| == SumOfCounts(TotalCounts(blocks), |blocks|)
  {
    hide Mul, Add, Pow, Num, CheckBytes, BlockThrows, I.Interleaved, I.Column;
    hide DataBlocks, EcBlocks, HaveValues, Slice, Values, Known;
    var offset, maxDcCount, maxEcCount := 0, 0, 0;
    var dcdata: seq<seq<Coef>>, ecdata: seq<seq<Coef>> := [], [];
    ghost var d, e := DataBlocks(buffer, blocks), EcBlocks(buffer, blocks);
    ghost var dcs, ecs := DataCounts(blocks), EcCounts(blocks);
    HaveNone(d, e);
    for b := 0 to |blocks|
      invariant t.Valid()
      invariant offset == SumOfCounts(dcs, b)
      invariant maxDcCount == Greatest(dcs, b) && maxEcCount == Greatest(ecs, b)
      invariant HaveValues(dcdata, d[..b]) && HaveValues(ecdata, e[..b])
      invariant forall k | 0 <= k < b :: !BlockThrows(d[k], ecs[k])
    {
      var dcCount := blocks[b].dataCount;
      var ecCount := blocks[b].totalCount - dcCount;
      maxDcCount := if maxDcCount < dcCount then dcCount else maxDcCount;
      maxEcCount := if maxEcCount < ecCount then ecCount else maxEcCount;
      var data := ReadBlock(buffer, offset, dcCount);
      BlocksAt(buffer, blocks, b);
      offset := offset + dcCount;
      var check := BlockCheck(t, data, ecCount);
      if check.Thrown? {
        assert BlockThrows(d[b], blocks[b].EcCount());
        return Thrown;
      }
      HaveMore(dcdata, d, b, Known(data));
      HaveMore(ecdata, e, b, check.value);
      dcdata := dcdata + [Known(data)];
      ecdata := ecdata + [check.value];
    }
    assert d[..|blocks|] == d && e[..|blocks|] == e;
    LengthsOfBlocks(buffer, blocks);
    var all := Assemble(dcdata, ecdata, maxDcCount, maxEcCount, blocks, d, e);
    r := Ok(all);
  }

  /** The loop that copies one block out of the buffer. */
  method ReadBlock(buffer: seq<bv8>, offset: nat, count: nat) returns (data: Poly)
    ensures data == Slice(buffer, offset, count)
  {
    var cells := new bv8[count](_ => 0);
    for i := 0 to count
      invariant forall k | 0 <= k < i :: cells[k] == ByteAt(buffer, k + offset)
    {
      cells[i] := if i + offset < |buffer| then 0xff & buffer[i + offset] else 0;
    }
    data := cells[..];
  }

  lemma LengthsOfParts(parts: seq<seq<Coef>>, polys: seq<Poly>)
    requires HaveValues(parts, polys)
    ensures I.Lengths(parts) == I.Lengths(polys)
  {
    forall r | 0 <= r < |parts| ensures |parts[r]| == |polys[r]| { assert Values(parts[r]) == polys[r]; }
  }

  lemma TotalsSplit(blocks: seq<RSBlock>)
    requires ValidBlocks(blocks)
    ensures SumOfCounts(TotalCounts(blocks), |blocks|) == I.Sum(DataCounts(blocks)) + I.Sum(EcCounts(blocks))
    ensures I.Covers(DataCounts(blocks), Greatest(DataCounts(blocks), |blocks|))
    ensures I.Covers(EcCounts(blocks), Greatest(EcCounts(blocks), |blocks|))
  {
    TotalsAdd(blocks, |blocks|);
    SumOfLengths(DataCounts(blocks), |blocks|);
    SumOfLengths(EcCounts(blocks), |blocks|);
    assert DataCounts(blocks)[..|blocks|] == DataCounts(blocks);
    assert EcCounts(blocks)[..|blocks|] == EcCounts(blocks);
  }

  lemma ValuesConcat(a: seq<Coef>, b: seq<Coef>)
    ensures Values(a + b) == Values(a) + Values(b)
  {}

  method TotalCodeCount(blocks: seq<RSBlock>) returns (total: nat)
    ensures total == SumOfCounts(TotalCounts(blocks), |blocks|)
  {
    total := 0;
    for b := 0 to |blocks|
      invariant total == SumOfCounts(TotalCounts(blocks), b)
    {
      total := total + blocks[b].totalCount;
    }
  }

  /** The two interleaving passes into one array of totalCodeCount bytes. */
  method Assemble(dcdata: seq<seq<Coef>>, ecdata: seq<seq<Coef>>, maxDcCount: nat, maxEcCount: nat,
                  blocks: seq<RSBlock>, ghost d: seq<Poly>, ghost e: seq<Poly>)
    returns (all: seq<Coef>)
    requires ValidBlocks(blocks) && HaveValues(dcdata, d) && HaveValues(ecdata, e)
    requires I.Lengths(d) == DataCounts(blocks) && I.Lengths(e) == EcCounts(blocks)
    requires maxDcCount == Greatest(DataCounts(blocks), |blocks|)
    requires maxEcCount == Greatest(EcCounts(blocks), |blocks|)
    ensures Values(all) == I.Interleaved(d, maxDcCount) + I.Interleaved(e, maxEcCount)
    ensures |all| == SumOfCounts(TotalCounts(blocks), |blocks|)
  {
    LengthsOfParts(dcdata, d);
    LengthsOfParts(ecdata, e);
    TotalsSplit(blocks);
    hide I.Interleaved, I.Column, I.Lengths, I.Sum, HaveValues, DataCounts, EcCounts, ValidBlocks, Values;
    var totalCodeCount := TotalCodeCount(blocks);
    var data := new Coef[totalCodeCount](_ => None);
    var index := Emit(dcdata, maxDcCount, data, 0, []);
    ghost var first := data[..index];
    index := Emit(ecdata, maxEcCount, data, index, first);
    assert index == totalCodeCount;
    ValuesOfInterleaved(dcdata, d, maxDcCount);
    ValuesOfInterleaved(ecdata, e, maxEcCount);
    ValuesConcat(I.Interleaved(dcdata, maxDcCount), I.Interleaved(ecdata, maxEcCount));
    assert [] + I.Interleaved(dcdata, maxDcCount) == I.Interleaved(dcdata, maxDcCount);
    assert data[..] == data[..index];
    all := data[..];
  }

  // ----- where each byte goes -----

  lemma BlockByteAt(buffer: seq<bv8>, blocks: seq<RSBlock>, r: nat, i: nat)
    requires r < |blocks| && i < blocks[r].dataCount
    ensures DataBlocks(buffer, blocks)[r][i] == ByteAt(buffer, SumOfCounts(DataCounts(blocks), r) + i)
  {
    hide SumOfCounts, ByteAt;
    assert DataBlocks(buffer, blocks)[r] == Slice(buffer, SumOfCounts(DataCounts(blocks), r), blocks[r].dataCount);
  }

  /** Byte i of data block r, which is that byte of the buffer behind all earlier
      blocks, stands behind the bytes i of earlier blocks and all bytes before i. */
  lemma DataByteAt(buffer: seq<bv8>, blocks: seq<RSBlock>, r: nat, i: nat)
    requires ValidBlocks(blocks) && r < |blocks| && i < blocks[r].dataCount
    ensures var at := I.Position(DataCounts(blocks), r, i);
            at < I.Sum(DataCounts(blocks)) <= |Stream(buffer, blocks)|
            && Stream(buffer, blocks)[at] == ByteAt(buffer, SumOfCounts(DataCounts(blocks), r) + i)
  {
    hide I.Interleaved, I.Position, I.Sum, CheckBytes, DataBlocks, EcBlocks, SumOfCounts, DataCounts, EcCounts, Greatest;
    var d := DataBlocks(buffer, blocks);
    LengthsOfBlocks(buffer, blocks);
    TotalsSplit(blocks);
    I.TotalLength(d, Greatest(DataCounts(blocks), |blocks|));
    I.InterleavedAt(d, Greatest(DataCounts(blocks), |blocks|), r, i);
    BlockByteAt(buffer, blocks, r, i);
  }

  /** Check bytes follow all data bytes, in the same order. */
  lemma CheckByteAt(buffer: seq<bv8>, blocks: seq<RSBlock>, r: nat, i: nat)
    requires ValidBlocks(blocks) && r < |blocks| && i < blocks[r].EcCount()
    ensures var at := I.Sum(DataCounts(blocks)) + I.Position(EcCounts(blocks), r, i);
            at < |Stream(buffer, blocks)|
            && Stream(buffer, blocks)[at] == CheckBytes(DataBlocks(buffer, blocks)[r], blocks[r].EcCount())[i]
  {
    hide I.Interleaved, I.Position, I.Sum, CheckBytes;
    var d, e := DataBlocks(buffer, blocks), EcBlocks(buffer, blocks);
    LengthsOfBlocks(buffer, blocks);
    TotalsSplit(blocks);
    I.TotalLength(d, Greatest(DataCounts(blocks), |blocks|));
    I.InterleavedAt(e, Greatest(EcCounts(blocks), |blocks|), r, i);
    BlocksAt(buffer, blocks, r);
  }
}
