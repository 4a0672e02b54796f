/** Reading a finished symbol back: modules to bytes, bytes to blocks, blocks to
    strings. */
module SymbolRoundTrip {
  import opened Wrappers
  import opened Numbers
  import opened Polynomials
  import opened ReedSolomon
  import opened BitBuffer
  import opened DataStream
  import opened QRPolynomial
  import opened Codewords
  import opened FunctionPatterns
  import opened FunctionGrid
  import opened DataPlacement
  import opened QRCode
  import Bch
  import I = Interleaving

  function Concat(parts: seq<Poly>): Poly {
    if parts == [] then [] else parts[0] + Concat(parts[1..])
  }

  lemma {:induction false} ConcatSnoc(parts: seq<Poly>, last: Poly)
    ensures Concat(parts + [last]) == Concat(parts) + last
  {
    if parts != [] {
      assert (parts + [last])[1..] == parts[1..] + [last];
      ConcatSnoc(parts[1..], last);
    }
  }

  lemma ConcatOfNone()
    ensures Concat([]) == []
  {}

  /** Cutting the buffer into blocks loses nothing. */
  lemma {:induction false} BlocksCoverBuffer(bytes: seq<bv8>, blocks: seq<RSBlock>, r: nat)
    requires r <= |blocks| && SumOfCounts(DataCounts(blocks), r) <= |bytes|
    ensures Concat(DataBlocks(bytes, blocks)[..r]) == bytes[..SumOfCounts(DataCounts(blocks), r)]
  {
    hide Slice, Concat, DataBlocks, SumOfCounts, DataCounts;
    SumUnfold(blocks, r);
    if r > 0 {
      BlocksCoverBuffer(bytes, blocks, r - 1);
      CoverStep(bytes, blocks, r - 1);
    } else {
      ConcatOfNone();
    }
  }

  lemma SumUnfold(blocks: seq<RSBlock>, r: nat)
    requires r <= |blocks|
    ensures r == 0 ==> SumOfCounts(DataCounts(blocks), r) == 0
    ensures r > 0 ==> SumOfCounts(DataCounts(blocks), r)
                      == SumOfCounts(DataCounts(blocks), r - 1) + blocks[r - 1].dataCount
  {}

  lemma CoverStep(bytes: seq<bv8>, blocks: seq<RSBlock>, r: nat)
    requires r < |blocks|
    requires var from := SumOfCounts(DataCounts(blocks), r);
             && from + blocks[r].dataCount <= |bytes|
             && Concat(DataBlocks(bytes, blocks)[..r]) == bytes[..from]
    ensures Concat(DataBlocks(bytes, blocks)[..r + 1])
         == bytes[..SumOfCounts(DataCounts(blocks), r) + blocks[r].dataCount]
  {
    hide Slice, Concat, SumOfCounts;
    var d := DataBlocks(bytes, blocks);
    var from, count := SumOfCounts(DataCounts(blocks), r), blocks[r].dataCount;
    assert d[r] == Slice(bytes, from, count);
    hide DataBlocks;
    ConcatSnoc(d[..r], d[r]);
    assert d[..r + 1] == d[..r] + [d[r]];
    SliceInside(bytes, from, count);
    AppendSlice(bytes, from, count);
  }

  lemma SliceInside(bytes: seq<bv8>, from: nat, count: nat)
    requires from + count <= |bytes|
    ensures Slice(bytes, from, count) == bytes[from..from + count]
  {
    forall i | 0 <= i < count ensures Slice(bytes, from, count)[i] == bytes[from..from + count][i] {
      assert Slice(bytes, from, count)[i] == ByteAt(bytes, i + from);
    }
  }

  lemma AppendSlice(bytes: seq<bv8>, from: nat, count: nat)
    requires from + count <= |bytes|
    ensures bytes[..from] + bytes[from..from + count] == bytes[..from + count]
  {}

  /** The blocks a reader reconstructs from the final byte sequence. */
  ghost predicate SplitsInto(stream: Poly, blocks: seq<RSBlock>, d: seq<Poly>, e: seq<Poly>) {
    && ValidBlocks(blocks)
    && var dcs, ecs := DataCounts(blocks), EcCounts(blocks);
       var maxDc, maxEc := Greatest(dcs, |blocks|), Greatest(ecs, |blocks|);
       && |stream| == I.Before(dcs, maxDc) + I.Before(ecs, maxEc)
       && d == I.Deinterleaved(dcs, stream[..I.Before(dcs, maxDc)], maxDc)
       && e == I.Deinterleaved(ecs, stream[I.Before(dcs, maxDc)..], maxEc)
  }

  /** Splitting the stream of createBytes returns the blocks it was made from. */
  lemma SplitStream(bytes: seq<bv8>, blocks: seq<RSBlock>, d: seq<Poly>, e: seq<Poly>)
    requires ValidBlocks(blocks) && |bytes| == Capacity(blocks)
    requires SplitsInto(Stream(bytes, blocks), blocks, d, e)
    ensures d == DataBlocks(bytes, blocks) && e == EcBlocks(bytes, blocks)
    ensures Concat(d) == bytes
    ensures forall r | 0 <= r < |blocks| :: VanishesBelow(d[r] + e[r], blocks[r].EcCount())
  {
    hide I.Deinterleaved, I.Interleaved, I.Before, VanishesBelow, CheckBytes;
    var dd, ee := DataBlocks(bytes, blocks), EcBlocks(bytes, blocks);
    LengthsOfBlocks(bytes, blocks);
    I.DeinterleaveInterleaved(dd, Greatest(DataCounts(blocks), |blocks|));
    I.DeinterleaveInterleaved(ee, Greatest(EcCounts(blocks), |blocks|));
    BlocksCoverBuffer(bytes, blocks, |blocks|);
    assert dd[..|blocks|] == dd && bytes[..|bytes|] == bytes;
    forall r | 0 <= r < |blocks| ensures VanishesBelow(dd[r] + ee[r], blocks[r].EcCount()) {
      CodewordVanishes(dd[r], blocks[r].EcCount());
    }
  }

  /** A string that fits the symbol is shorter than the symbol's data area. */
  lemma {:induction false} FittingTextIsShort(list: seq<Text>, width: nat, i: nat)
    requires i < |list|
    ensures |PayloadBits(list, width)| >= 4 + 8 * |list[i]|
  {
    hide NumBits, Characters;
    CharactersRoundTrip(list[0]);
    assert Segments(list, width)[1..] == Segments(list[1..], width);
    if i > 0 { FittingTextIsShort(list[1..], width, i - 1); }
  }

  /** The data over the reserved modules, with any format and version words. */
  ghost predicate Finished(typeNumber: int, pos: seq<int>, test: bool, format: nat, version: nat,
                           maskPattern: MaskPattern, data: seq<Coef>, h: Grid) {
    var n := typeNumber * 4 + 17;
    typeNumber >= 1 && n >= 0
    && Mapped(Reserved(typeNumber, pos, test, format, version), h, Walk(n, StripCount(n)), data, maskPattern)
  }

  /** makeImpl finishes symbols with the words of its type, level and mask. */
  lemma MadeSymbolsAreFinished(q: QRCode, test: bool, maskPattern: MaskPattern)
    requires q.Shows(test, maskPattern)
    ensures Finished(q.typeNumber, q.positionTable[q.typeNumber - 1], test,
                     FormatWord(q.errorCorrectLevel, maskPattern), VersionWord(q.typeNumber),
                     maskPattern, q.dataCache.value, GridOf(q.modules))
  {
    hide Reserved, Walk, FormatWord, VersionWord, Mapped, GridOf;
  }

  /** Every module of a finished symbol is light or dark. */
  lemma FinishedHasNoHoles(typeNumber: int, pos: seq<int>, test: bool, format: nat, version: nat,
                           maskPattern: MaskPattern, data: seq<Coef>, h: Grid, p: Pos)
    requires Finished(typeNumber, pos, test, format, version, maskPattern, data, h)
    requires InRange(p, typeNumber * 4 + 17)
    ensures p in h && h[p].Some?
  {
    hide Reserved, Walk, Mapped, SymbolSize, StripCount;
    OddSide(typeNumber);
    var n := typeNumber * 4 + 17;
    ReservedDomain(typeNumber, pos, test, format, version);
    forall r | 0 <= r < n
      ensures (r, 6) in Reserved(typeNumber, pos, test, format, version)
      ensures Reserved(typeNumber, pos, test, format, version)[(r, 6)].Some?
    {
      ColumnSixIsReserved(typeNumber, pos, test, format, version, r);
    }
    NothingLeftFree(Reserved(typeNumber, pos, test, format, version), h, n, data, maskPattern, p);
  }

  /** Both copies of bit i of the format word, and the fixed dark module. */
  ghost predicate ShowsFormat(h: Grid, n: int, format: nat, i: nat) {
    && (FormatRow(n, i), 8) in h && (8, FormatCol(n, i)) in h && (n - 8, 8) in h
    && h[(FormatRow(n, i), 8)] == Some(BitAt(format, i))
    && h[(8, FormatCol(n, i))] == Some(BitAt(format, i))
    && h[(n - 8, 8)] == Some(true)
  }

  /** Placing the data disturbs neither copy of the format word. */
  lemma FinishedFormat(typeNumber: int, pos: seq<int>, format: nat, version: nat, maskPattern: MaskPattern,
                       data: seq<Coef>, h: Grid, i: nat)
    requires Finished(typeNumber, pos, false, format, version, maskPattern, data, h) && i < 15
    ensures ShowsFormat(h, typeNumber * 4 + 17, format, i)
  {
    hide Reserved, Walk, BitAt;
    FormatReadable(typeNumber, pos, false, format, version, i);
  }

  /** Trial and final symbols made from the same data with the same mask agree
      outside the information modules. */
  lemma TrialAgreesWithFinal(typeNumber: int, pos: seq<int>, format: nat, version: nat, maskPattern: MaskPattern,
                             data: seq<Coef>, trial: Grid, final: Grid, p: Pos)
    requires Finished(typeNumber, pos, true, format, version, maskPattern, data, trial)
    requires Finished(typeNumber, pos, false, format, version, maskPattern, data, final)
    requires InRange(p, typeNumber * 4 + 17) && !InformationModule(typeNumber, p)
    ensures p in trial && p in final && trial[p] == final[p]
  {
    hide Reserved, Walk, InformationModule, InRange;
    var n := typeNumber * 4 + 17;
    var a, b := Reserved(typeNumber, pos, true, format, version), Reserved(typeNumber, pos, false, format, version);
    SameFreeModules(typeNumber, pos, format, version);
    TestSymbolsReserveTheSame(typeNumber, pos, format, format, version, true, false, p);
    var walk := Walk(n, StripCount(n));
    if Free(a, p) && p in walk {
      var i :| 0 <= i < |walk| && walk[i] == p;
      SameFreeCount(a, b, walk[..i]);
    }
  }

  lemma SameFreeModules(typeNumber: int, pos: seq<int>, format: nat, version: nat)
    requires typeNumber >= 1
    ensures forall q :: Free(Reserved(typeNumber, pos, true, format, version), q)
                        == Free(Reserved(typeNumber, pos, false, format, version), q)
  {
    hide Reserved;
    ReservedDomain(typeNumber, pos, true, format, version);
    ReservedDomain(typeNumber, pos, false, format, version);
    forall q ensures Free(Reserved(typeNumber, pos, true, format, version), q)
                     == Free(Reserved(typeNumber, pos, false, format, version), q)
    {
      if InRange(q, typeNumber * 4 + 17) {
        TestSymbolsReserveTheSame(typeNumber, pos, format, format, version, true, false, q);
      }
    }
  }

  lemma {:induction false} SameFreeCount(a: Grid, b: Grid, walk: seq<Pos>)
    requires forall q :: Free(a, q) == Free(b, q)
    ensures FreeCount(a, walk) == FreeCount(b, walk)
  {
    hide Free;
    if walk != [] { SameFreeCount(a, b, walk[..|walk| - 1]); }
  }

  /** The whole encoder undone.  Collect the free modules of a finished symbol
      along the walk, remove the mask, cut the bits into bytes and split them
      into blocks: every block is a Reed-Solomon codeword, and reading the
      segments of its data gives back the low bytes of the strings that were
      added. */
  lemma SymbolReadsBack(typeNumber: int, pos: seq<int>, test: bool, format: nat, version: nat, maskPattern: MaskPattern,
                        blocks: seq<RSBlock>, list: seq<Text>, data: seq<Coef>, h: Grid,
                        stream: Poly, d: seq<Poly>, e: seq<Poly>)
    requires Finished(typeNumber, pos, test, format, version, maskPattern, data, h)
    requires ValidBlocks(blocks) && Encodes(blocks, typeNumber, list, data)
    requires Capacity(blocks) <= Pow2(CountWidth(typeNumber))
    requires var n := typeNumber * 4 + 17;
             var g := Reserved(typeNumber, pos, test, format, version);
             var walk := Walk(n, StripCount(n));
             && 8 * |data| <= FreeCount(g, walk)
             && |stream| == |data|
             && BitsOf(stream) <= ReadModules(g, h, walk, maskPattern)
    requires SplitsInto(stream, blocks, d, e)
    ensures |d| == |e| == |blocks|
    ensures forall r | 0 <= r < |blocks| :: VanishesBelow(d[r] + e[r], blocks[r].EcCount())
    ensures ReadSegments(BitsOf(Concat(d)), CountWidth(typeNumber)) == AllLowBytes(list)
    ensures ReadSegments(BitsOf(Concat(d)), CountWidth(typeNumber)) == list <==> ByteCodes(list)
  {
    hide Reserved, Walk, BitsOf, Mapped, FreeCount, ReadModules;
    hide Stream, ReadSegments, ByteCodes, AllLowBytes, SplitsInto, PayloadBits, CountWidth, VanishesBelow, Pow2, Concat;
    var n := typeNumber * 4 + 17;
    var g := Reserved(typeNumber, pos, test, format, version);
    var walk := Walk(n, StripCount(n));
    ReadBack(g, h, walk, data, maskPattern);
    SamePrefix(BitsOf(stream), BitsOf(Values(data)), ReadModules(g, h, walk, maskPattern));
    BitsDetermineBytes(stream, Values(data));
    var width := CountWidth(typeNumber);
    var bytes: seq<bv8> :|
      && |bytes| == Capacity(blocks)
      && Padded(PayloadBits(list, width), BitsOf(bytes), Capacity(blocks) * 8)
      && Values(data) == Stream(bytes, blocks);
    SplitStream(bytes, blocks, d, e);
    forall i | 0 <= i < |list| ensures |list[i]| < Pow2(width) {
      FittingTextIsShort(list, width, i);
    }
    WidthIsSmall(typeNumber);
    DataRoundTrip(list, width, BitsOf(bytes), Capacity(blocks) * 8);
  }

  // ----- the format modules name the mask -----

  /** The number that the first i format modules along column 8 spell. */
  ghost function ReadFormat(h: Grid, n: int, i: nat): nat {
    if i == 0 then 0
    else
      var p := (FormatRow(n, i - 1), 8);
      ReadFormat(h, n, i - 1) + if p in h && h[p] == Some(true) then Pow2(i - 1) else 0
  }

  lemma AddBit(bits: nat, m: nat)
    requires m > 0
    ensures bits % (2 * m) == bits % m + if bits / m % 2 == 1 then m else 0
  {
    var q := bits / m;
    var r := bits % m;
    assert bits == m * q + r;
    assert m * q == 2 * m * (q / 2) + m * (q % 2);
    assert bits == (q / 2) * (2 * m) + (m * (q % 2) + r) by { assert 2 * m * (q / 2) == (q / 2) * (2 * m); }
    QuotientOfSum(q / 2, m * (q % 2) + r, 2 * m);
    assert bits % (2 * m) == bits - 2 * m * (bits / (2 * m));
  }

  lemma {:induction false} FormatIsRead(h: Grid, n: int, format: nat, i: nat)
    requires i <= 15 && forall k: nat | k < 15 :: ShowsFormat(h, n, format, k)
    ensures ReadFormat(h, n, i) == format % Pow2(i)
  {
    hide FormatRow;
    if i > 0 {
      FormatIsRead(h, n, format, i - 1);
      assert ShowsFormat(h, n, format, i - 1);
      AddBit(format, Pow2(i - 1));
    }
  }

  /** The five payload bits behind the mask and the check bits. */
  ghost function ReadPayload(h: Grid, n: int): nat {
    Bch.Xor(ReadFormat(h, n, 15), Bch.G15_MASK) / Pow2(10)
  }

  /** Level and mask of a finished symbol can be read from its modules. */
  lemma PayloadIsRead(typeNumber: int, pos: seq<int>, level: int, version: nat, maskPattern: MaskPattern,
                      data: seq<Coef>, h: Grid)
    requires 0 <= level < 4
    requires Finished(typeNumber, pos, false, FormatWord(level, maskPattern), version, maskPattern, data, h)
    ensures ReadPayload(h, typeNumber * 4 + 17) == level * 8 + maskPattern
  {
    hide Finished, ShowsFormat, ReadFormat, Pow2, Bch.Xor, Bch.Word;
    var n := typeNumber * 4 + 17;
    var format := FormatWord(level, maskPattern);
    forall k: nat | k < 15 ensures ShowsFormat(h, n, format, k) {
      FinishedFormat(typeNumber, pos, format, version, maskPattern, data, h, k);
    }
    FormatIsRead(h, n, format, 15);
    Bch.FormatReadBack(level * 8 + maskPattern);
    assert (level * 8 + maskPattern) % 0x40_0000 == level * 8 + maskPattern;
    SmallRemainder(format, Pow2(15));
  }

  lemma SmallRemainder(a: nat, m: nat)
    requires a < m
    ensures a % m == a
  {}

  ghost function ReadMask(h: Grid, n: int): MaskPattern {
    ReadPayload(h, n) % 8
  }

  ghost function ReadLevel(h: Grid, n: int): nat {
    ReadPayload(h, n) / 8
  }

  /** The grid that a reader subtracts: the reserved modules for the level and the
      mask it has read. */
  ghost function Frame(q: QRCode): Grid
    requires 1 <= q.typeNumber <= |q.positionTable|
    reads q, q.modules
  {
    var h, n := GridOf(q.modules), q.typeNumber * 4 + 17;
    EmptySymbol(q.typeNumber, q.positionTable[q.typeNumber - 1], false, ReadLevel(h, n), ReadMask(h, n))
  }

  lemma PayloadSplits(level: nat, maskPattern: MaskPattern)
    ensures (level * 8 + maskPattern) % 8 == maskPattern && (level * 8 + maskPattern) / 8 == level
  {}

  lemma FrameIsOwn(q: QRCode, maskPattern: MaskPattern)
    requires q.Shows(false, maskPattern) && 0 <= q.errorCorrectLevel < 4
    ensures ReadMask(GridOf(q.modules), q.typeNumber * 4 + 17) == maskPattern
    ensures ReadLevel(GridOf(q.modules), q.typeNumber * 4 + 17) == q.errorCorrectLevel
    ensures Frame(q) == EmptySymbol(q.typeNumber, q.positionTable[q.typeNumber - 1], false, q.errorCorrectLevel, maskPattern)
  {
    hide Finished, EmptySymbol, FormatWord, VersionWord, GridOf, Mapped, Walk, StripCount, ReadPayload;
    MadeSymbolsAreFinished(q, false, maskPattern);
    PayloadIsRead(q.typeNumber, q.positionTable[q.typeNumber - 1], q.errorCorrectLevel, VersionWord(q.typeNumber),
                  maskPattern, q.dataCache.value, GridOf(q.modules));
    PayloadSplits(q.errorCorrectLevel, maskPattern);
  }

  /** The bits that a reader collects who knows nothing but the type. */
  ghost function Collected(q: QRCode): BitSeq
    requires 1 <= q.typeNumber <= |q.positionTable|
    reads q, q.modules
  {
    var h, n := GridOf(q.modules), q.typeNumber * 4 + 17;
    ReadModules(Frame(q), h, Walk(n, StripCount(n)), ReadMask(h, n))
  }

  /** The blocks that the table has for the type and the level read. */
  ghost predicate BlocksRead(q: QRCode, blocks: seq<RSBlock>)
    reads q, q.modules
  {
    BlocksFor(q.blockTable, q.typeNumber, ReadLevel(GridOf(q.modules), q.typeNumber * 4 + 17)) == Some(blocks)
  }

  /** What the finite tables provide for: enough free modules for the codewords,
      and a count field that can count them. */
  ghost predicate RoomFor(q: QRCode, blocks: seq<RSBlock>)
    requires 1 <= q.typeNumber <= |q.positionTable|
    reads q, q.modules
  {
    var n := q.typeNumber * 4 + 17;
    && Capacity(blocks) <= Pow2(CountWidth(q.typeNumber))
    && 8 * SumOfCounts(TotalCounts(blocks), |blocks|) <= FreeCount(Frame(q), Walk(n, StripCount(n)))
  }

  /** Bytes cut from the collected bits, and the blocks they split into. */
  ghost predicate Cut(q: QRCode, blocks: seq<RSBlock>, stream: Poly, d: seq<Poly>, e: seq<Poly>)
    requires 1 <= q.typeNumber <= |q.positionTable|
    reads q, q.modules
  {
    && |stream| == SumOfCounts(TotalCounts(blocks), |blocks|)
    && BitsOf(stream) <= Collected(q)
    && SplitsInto(stream, blocks, d, e)
  }

  lemma CachedBlocks(q: QRCode, blocks: seq<RSBlock>)
    requires q.Valid() && q.dataCache.Some? && BlocksFor(q.blockTable, q.typeNumber, q.errorCorrectLevel) == Some(blocks)
    ensures ValidBlocks(blocks) && Encodes(blocks, q.typeNumber, q.dataList, q.dataCache.value)
    ensures |q.dataCache.value| == SumOfCounts(TotalCounts(blocks), |blocks|)
  {
    hide BlocksFor, Padded, Stream, CentresInside, ValidTable, CreateDataThrows, SumOfCounts, Capacity;
  }

  /** What make leaves behind, read from the modules alone: the format modules give
      level and mask, the free modules unmasked give the blocks of that level, and
      their data the strings. */
  lemma MadeSymbolReadsBack(q: QRCode, maskPattern: MaskPattern, blocks: seq<RSBlock>,
                            stream: Poly, d: seq<Poly>, e: seq<Poly>)
    requires q.Valid() && q.Shows(false, maskPattern) && 0 <= q.errorCorrectLevel < 4
    requires BlocksRead(q, blocks) && RoomFor(q, blocks) && Cut(q, blocks, stream, d, e)
    ensures ReadMask(GridOf(q.modules), q.typeNumber * 4 + 17) == maskPattern
    ensures forall r | 0 <= r < |blocks| ::
              r < |d| && r < |e| && blocks[r].Valid() && VanishesBelow(d[r] + e[r], blocks[r].EcCount())
    ensures ReadSegments(BitsOf(Concat(d)), CountWidth(q.typeNumber)) == AllLowBytes(q.dataList)
    ensures ReadSegments(BitsOf(Concat(d)), CountWidth(q.typeNumber)) == q.dataList <==> ByteCodes(q.dataList)
  {
    hide Finished, FormatWord, VersionWord, Mapped, Walk, StripCount, FreeCount, ReadModules, BitsOf, SplitsInto;
    hide ReadSegments, Concat, ByteCodes, AllLowBytes, Pow2, CountWidth, SumOfCounts, TotalCounts, Capacity, GridOf;
    hide Frame, ReadMask, ReadLevel, BlocksFor, Encodes, VanishesBelow, Reserved, CentresInside, ValidTable, CreateDataThrows;
    FrameIsOwn(q, maskPattern);
    MadeSymbolsAreFinished(q, false, maskPattern);
    CachedBlocks(q, blocks);
    SymbolReadsBack(q.typeNumber, q.positionTable[q.typeNumber - 1], false,
                    FormatWord(q.errorCorrectLevel, maskPattern), VersionWord(q.typeNumber), maskPattern,
                    blocks, q.dataList, q.dataCache.value, GridOf(q.modules), stream, d, e);
  }

  // ----- spoiled symbols -----

  /** Both lists of words have the lengths of the blocks. */
  ghost predicate FitBlocks(blocks: seq<RSBlock>, d: seq<Poly>, e: seq<Poly>) {
    && ValidBlocks(blocks) && |d| == |e| == |blocks|
    && forall r | 0 <= r < |blocks| :: |d[r]| == blocks[r].dataCount && |e[r]| == blocks[r].EcCount()
  }

  /** In every block at most half as many bytes differ as it has check bytes. */
  ghost predicate Near(blocks: seq<RSBlock>, d: seq<Poly>, e: seq<Poly>, d': seq<Poly>, e': seq<Poly>)
    requires FitBlocks(blocks, d, e) && FitBlocks(blocks, d', e')
  {
    forall r | 0 <= r < |blocks| :: 2 * Distance(d[r] + e[r], d'[r] + e'[r]) <= blocks[r].EcCount()
  }

  ghost predicate AllCodewords(blocks: seq<RSBlock>, d: seq<Poly>, e: seq<Poly>)
    requires FitBlocks(blocks, d, e)
  {
    forall r | 0 <= r < |blocks| :: VanishesBelow(d[r] + e[r], blocks[r].EcCount())
  }

  lemma SamePieces(a: Poly, b: Poly, a': Poly, b': Poly)
    requires |a| == |a'| && a + b == a' + b'
    ensures a == a' && b == b'
  {
    assert a == (a + b)[..|a|] && a' == (a' + b')[..|a|];
    assert b == (a + b)[|a|..] && b' == (a' + b')[|a|..];
  }

  /** Two lists of codewords near the same received blocks are the same. */
  lemma CodewordsAreDetermined(blocks: seq<RSBlock>, rd: seq<Poly>, re: seq<Poly>,
                               d: seq<Poly>, e: seq<Poly>, d': seq<Poly>, e': seq<Poly>)
    requires FitBlocks(blocks, rd, re) && FitBlocks(blocks, d, e) && FitBlocks(blocks, d', e')
    requires forall r | 0 <= r < |blocks| :: blocks[r].totalCount <= 255
    requires AllCodewords(blocks, d, e) && AllCodewords(blocks, d', e')
    requires Near(blocks, rd, re, d, e) && Near(blocks, rd, re, d', e')
    ensures d == d' && e == e'
  {
    hide VanishesBelow, Distance;
    forall r | 0 <= r < |blocks| ensures d[r] == d'[r] && e[r] == e'[r] {
      CorrectionIsUnambiguous(rd[r] + re[r], d[r] + e[r], d'[r] + e'[r], blocks[r].EcCount());
      SamePieces(d[r], e[r], d'[r], e'[r]);
    }
  }

  /** Error correction at work.  Of a symbol that make has left, any modules may be
      spoiled, as long as of the bytes read no block has more than half as many
      wrong ones as it has check bytes.  Then all corrections of the blocks to
      codewords that close agree, and reading the strings from one gives back
      what was added. */
  lemma SpoiledSymbolReadsBack(q: QRCode, maskPattern: MaskPattern, blocks: seq<RSBlock>,
                               stream: Poly, d: seq<Poly>, e: seq<Poly>,
                               received: Poly, rd: seq<Poly>, re: seq<Poly>, cd: seq<Poly>, ce: seq<Poly>)
    requires q.Valid() && q.Shows(false, maskPattern) && 0 <= q.errorCorrectLevel < 4
    requires BlocksRead(q, blocks) && RoomFor(q, blocks) && Cut(q, blocks, stream, d, e)
    requires forall r | 0 <= r < |blocks| :: blocks[r].totalCount <= 255
    requires SplitsInto(received, blocks, rd, re) && FitBlocks(blocks, d, e) && FitBlocks(blocks, rd, re)
    requires Near(blocks, rd, re, d, e)
    requires FitBlocks(blocks, cd, ce) && AllCodewords(blocks, cd, ce) && Near(blocks, rd, re, cd, ce)
    ensures cd == d && ce == e
    ensures ReadSegments(BitsOf(Concat(cd)), CountWidth(q.typeNumber)) == AllLowBytes(q.dataList)
    ensures ReadSegments(BitsOf(Concat(cd)), CountWidth(q.typeNumber)) == q.dataList <==> ByteCodes(q.dataList)
  {
    hide BlocksRead, RoomFor, Cut, SplitsInto, VanishesBelow, Near, ReadSegments, BitsOf, Concat, CountWidth;
    hide AllLowBytes, ByteCodes, GridOf, ReadMask, CentresInside, ValidTable, CreateDataThrows, Encodes, Mapped;
    MadeSymbolReadsBack(q, maskPattern, blocks, stream, d, e);
    CodewordsAreDetermined(blocks, rd, re, cd, ce, d, e);
  }

  lemma SamePrefix(a: BitSeq, b: BitSeq, whole: BitSeq)
    requires a <= whole && b <= whole && |a| == |b|
    ensures a == b
  {
    assert a == whole[..|a|] && b == whole[..|b|];
  }

  lemma WidthIsSmall(typeNumber: int)
    ensures CountWidth(typeNumber) <= 32
  {}
}
