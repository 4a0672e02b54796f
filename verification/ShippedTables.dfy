/** The encoder with the tables it ships with: the codewords have room in every
    symbol and, with one exception, fill it; and reading back needs no further
    assumption. */
module ShippedTables {
  import opened Wrappers
  import opened Numbers
  import opened Polynomials
  import opened ReedSolomon
  import opened BitBuffer
  import opened DataStream
  import opened QRPolynomial
  import opened Codewords
  import opened FunctionPatterns
  import opened FunctionGrid
  import opened DataPlacement
  import opened PatternPositions
  import opened ModuleCount
  import opened BlockRows
  import opened QRCode
  import opened SymbolRoundTrip
  import I = Interleaving

  /** Four rows for each of the 40 types, and its centres. */
  ghost predicate Shipped(blockTable: BlockTable, positionTable: seq<seq<int>>) {
    && |blockTable| == 160 && |positionTable| == 40
    && (forall t: nat, k | 1 <= t <= 40 && 0 <= k < 4 :: blockTable[4 * (t - 1) + k] == RowsOfType(t)[k])
    && (forall t: nat | 1 <= t <= 40 :: positionTable[t - 1] == PatternPosition(t))
  }

  /** Where the row of a level stands among the four of a type. */
  function RowOfLevel(level: int): nat
    requires 0 <= level < 4
  {
    if level == 1 then 0 else if level == 0 then 1 else if level == 3 then 2 else 3
  }

  lemma BlocksOf(table: BlockTable, positionTable: seq<seq<int>>, typeNumber: nat, level: int)
    requires Shipped(table, positionTable) && 1 <= typeNumber <= 40 && 0 <= level < 4
    ensures var row := RowsOfType(typeNumber)[RowOfLevel(level)];
            BlocksFor(table, typeNumber, level) == Some(Expand(row, |row| / 3))
  {
    hide RowsOfType, Expand;
    RowsOfLevels(table, typeNumber);
    assert table[4 * (typeNumber - 1) + RowOfLevel(level)] == RowsOfType(typeNumber)[RowOfLevel(level)];
  }

  /** Total and data codewords of every row, the short one included. */
  lemma ShippedRow(typeNumber: nat, level: int)
    requires 1 <= typeNumber <= 40 && 0 <= level < 4
    ensures var row := RowsOfType(typeNumber)[RowOfLevel(level)];
            && RowFits(row, if typeNumber == 15 && level == 2 then 396 else CodewordCount(typeNumber), MostData(typeNumber))
  {
    hide RowsOfType, RowFits;
    AllRowsFit(typeNumber);
    ShortRow();
  }

  lemma {:induction false} ExpandedCounts(row: seq<nat>, i: nat)
    requires 3 * i <= |row| && forall k: nat | 3 * k + 2 < |row| :: row[3 * k + 1] <= 255
    ensures forall b | 0 <= b < |Expand(row, i)| :: Expand(row, i)[b].totalCount <= 255
  {
    if i > 0 {
      ExpandedCounts(row, i - 1);
      assert row[3 * (i - 1) + 1] <= 255;
    }
  }

  lemma BlockSums(table: BlockTable, positionTable: seq<seq<int>>, typeNumber: nat, level: int, blocks: seq<RSBlock>)
    requires Shipped(table, positionTable) && 1 <= typeNumber <= 40 && 0 <= level < 4
    requires BlocksFor(table, typeNumber, level) == Some(blocks)
    ensures SumOfCounts(TotalCounts(blocks), |blocks|)
         == if typeNumber == 15 && level == 2 then 396 else CodewordCount(typeNumber)
    ensures Capacity(blocks) <= MostData(typeNumber)
    ensures forall b | 0 <= b < |blocks| :: blocks[b].totalCount <= 255
  {
    hide Shipped, RowsOfType, Expand, TotalCounts, SumOfCounts, Capacity, CodewordCount, ValidRow, BlocksFor;
    BlocksOf(table, positionTable, typeNumber, level);
    ShippedRow(typeNumber, level);
    var row := RowsOfType(typeNumber)[RowOfLevel(level)];
    RowSums(row, |row| / 3);
    ExpandedCounts(row, |row| / 3);
  }

  // ----- the tables are what the encoder asks for -----

  lemma {:induction false} ShippedIsValid(table: BlockTable, positionTable: seq<seq<int>>, level: int)
    requires Shipped(table, positionTable)
    ensures ValidTable(table)
    ensures forall k | 0 <= k < |positionTable| :: CentresInside(positionTable[k], 4 * k + 21)
    ensures 0 <= level < 4 ==> Complete(table, positionTable, level)
  {
    hide RowsOfType, PatternPosition, ValidRow, CentresInside, CodewordCount, RowFits;
    forall k | 0 <= k < |table| ensures ValidRow(table[k]) {
      var t, r := k / 4 + 1, k % 4;
      assert k == 4 * (t - 1) + r && table[4 * (t - 1) + r] == RowsOfType(t)[r];
      RowIsValid(t, r);
    }
    forall k | 0 <= k < |positionTable| ensures CentresInside(positionTable[k], 4 * k + 21) {
      assert positionTable[(k + 1) - 1] == PatternPosition(k + 1);
      TableIsGood(k + 1);
    }
  }

  lemma RowIsValid(typeNumber: nat, r: nat)
    requires 1 <= typeNumber <= 40 && r < 4
    ensures ValidRow(RowsOfType(typeNumber)[r])
  {
    hide RowsOfType, ValidRow, CodewordCount;
    ShippedRow(typeNumber, if r == 0 then 1 else if r == 1 then 0 else if r == 2 then 3 else 2);
  }

  // ----- the codewords fill the symbol -----

  lemma TableSpans(typeNumber: nat)
    requires 1 <= typeNumber <= 40
    ensures if typeNumber == 1 then PatternPosition(typeNumber) == []
            else Spanning(typeNumber * 4 + 17, PatternPosition(typeNumber))
    ensures typeNumber > 1 ==> |PatternPosition(typeNumber)| == typeNumber / 7 + 2
  {
    hide PatternPosition, GoodCentres, CentresInside;
    TableIsGood(typeNumber);
    TableEnds(typeNumber);
  }

  /** The free modules of a symbol of type t, over 8. */
  lemma FreeByEights(typeNumber: nat, test: bool, format: nat, version: nat)
    requires 1 <= typeNumber <= 40
    ensures var n := typeNumber * 4 + 17;
            var free := FreeCount(Reserved(typeNumber, PatternPosition(typeNumber), test, format, version),
                                  Walk(n, StripCount(n)));
            8 * CodewordCount(typeNumber) <= free < 8 * CodewordCount(typeNumber) + 8
  {
    hide Reserved, Walk, FreeCount, StripCount, PatternPosition, Spanning;
    TableSpans(typeNumber);
    FreeModuleCount(typeNumber, PatternPosition(typeNumber), test, format, version);
  }

  /** The exact fit: the codewords of every level have room in the symbol, and they
      leave fewer than eight modules over unless it is level H of type 15, whose row
      of the table is too short. */
  lemma CodewordsFill(table: BlockTable, positionTable: seq<seq<int>>, typeNumber: nat, level: int, blocks: seq<RSBlock>,
                      test: bool, format: nat, version: nat)
    requires Shipped(table, positionTable) && 1 <= typeNumber <= 40 && 0 <= level < 4
    requires BlocksFor(table, typeNumber, level) == Some(blocks)
    ensures var n := typeNumber * 4 + 17;
            var total := SumOfCounts(TotalCounts(blocks), |blocks|);
            var free := FreeCount(Reserved(typeNumber, positionTable[typeNumber - 1], test, format, version),
                                  Walk(n, StripCount(n)));
            && 8 * total <= free
            && (free < 8 * total + 8 <==> !(typeNumber == 15 && level == 2))
  {
    hide Reserved, Walk, FreeCount, StripCount, PatternPosition, CodewordCount, BlocksFor, TotalCounts, SumOfCounts;
    BlockSums(table, positionTable, typeNumber, level, blocks);
    FreeByEights(typeNumber, test, format, version);
    assert positionTable[typeNumber - 1] == PatternPosition(typeNumber);
    ShortRow();
  }

  // ----- reading back -----

  lemma CountsFitTheirField(typeNumber: nat)
    requires 1 <= typeNumber <= 40
    ensures MostData(typeNumber) <= Pow2(CountWidth(typeNumber))
  {
    WidthsByBand(typeNumber);
    hide CountWidth, LengthInBits;
    assert Pow2(8) == 256 && Pow2(16) == 65536;
  }

  lemma ShippedHasRoom(q: QRCode, blocks: seq<RSBlock>)
    requires 1 <= q.typeNumber <= |q.positionTable| && Shipped(q.blockTable, q.positionTable)
    requires 0 <= q.errorCorrectLevel < 4 && BlocksFor(q.blockTable, q.typeNumber, q.errorCorrectLevel) == Some(blocks)
    ensures RoomFor(q, blocks)
  {
    hide Reserved, Walk, FreeCount, StripCount, BlocksFor, TotalCounts, SumOfCounts, Capacity, Pow2, CountWidth, ReadPayload,
         FormatWord, VersionWord, CodewordCount, Shipped, MostData;
    assert |q.positionTable| == 40 by { ShippedIsValid(q.blockTable, q.positionTable, q.errorCorrectLevel); }
    BlockSums(q.blockTable, q.positionTable, q.typeNumber, q.errorCorrectLevel, blocks);
    CountsFitTheirField(q.typeNumber);
    var h, n := GridOf(q.modules), q.typeNumber * 4 + 17;
    CodewordsFill(q.blockTable, q.positionTable, q.typeNumber, q.errorCorrectLevel, blocks,
                  false, FormatWord(ReadLevel(h, n), ReadMask(h, n)), VersionWord(q.typeNumber));
  }

  /** The level read is the level of the symbol, so its blocks are the ones read. */
  lemma ReadBlocksAreOwn(q: QRCode, maskPattern: MaskPattern)
    requires q.Shows(false, maskPattern) && 0 <= q.errorCorrectLevel < 4
    ensures forall blocks :: BlocksRead(q, blocks) <==> BlocksFor(q.blockTable, q.typeNumber, q.errorCorrectLevel) == Some(blocks)
  {
    hide BlocksFor, ReadLevel, ReadMask, Frame, GridOf, EmptySymbol, Mapped, Walk, StripCount;
    FrameIsOwn(q, maskPattern);
  }

  /** With the shipped tables nothing more is needed: what make leaves in the modules
      reads back as the low bytes of the strings, and so as the strings themselves
      exactly if every character fits a byte. */
  lemma ShippedSymbolReadsBack(q: QRCode, maskPattern: MaskPattern, blocks: seq<RSBlock>,
                               stream: Poly, d: seq<Poly>, e: seq<Poly>)
    requires q.Valid() && q.Shows(false, maskPattern) && 0 <= q.errorCorrectLevel < 4
    requires Shipped(q.blockTable, q.positionTable) && BlocksRead(q, blocks) && Cut(q, blocks, stream, d, e)
    ensures forall r | 0 <= r < |blocks| ::
              r < |d| && r < |e| && blocks[r].Valid() && VanishesBelow(d[r] + e[r], blocks[r].EcCount())
    ensures ReadSegments(BitsOf(Concat(d)), CountWidth(q.typeNumber)) == AllLowBytes(q.dataList)
    ensures ReadSegments(BitsOf(Concat(d)), CountWidth(q.typeNumber)) == q.dataList <==> ByteCodes(q.dataList)
  {
    hide q.Valid, q.Shows, Shipped, BlocksRead, RoomFor, Cut, BlocksFor, VanishesBelow, ReadSegments, BitsOf, Concat,
         CountWidth, AllLowBytes, ByteCodes;
    ReadBlocksAreOwn(q, maskPattern);
    TypeInTable(q, maskPattern);
    ShippedHasRoom(q, blocks);
    MadeSymbolReadsBack(q, maskPattern, blocks, stream, d, e);
  }

  lemma TypeInTable(q: QRCode, maskPattern: MaskPattern)
    requires q.Shows(false, maskPattern)
    ensures 1 <= q.typeNumber <= |q.positionTable|
  {}

  /** The same for spoiled symbols: whatever correction finds close enough reads as
      what was added. */
  lemma ShippedSpoiledSymbolReadsBack(q: QRCode, maskPattern: MaskPattern, blocks: seq<RSBlock>,
                                      stream: Poly, d: seq<Poly>, e: seq<Poly>,
                                      received: Poly, rd: seq<Poly>, re: seq<Poly>, cd: seq<Poly>, ce: seq<Poly>)
    requires q.Valid() && q.Shows(false, maskPattern) && 0 <= q.errorCorrectLevel < 4
    requires Shipped(q.blockTable, q.positionTable) && BlocksRead(q, blocks) && Cut(q, blocks, stream, d, e)
    requires SplitsInto(received, blocks, rd, re) && FitBlocks(blocks, d, e) && FitBlocks(blocks, rd, re)
    requires Near(blocks, rd, re, d, e)
    requires FitBlocks(blocks, cd, ce) && AllCodewords(blocks, cd, ce) && Near(blocks, rd, re, cd, ce)
    ensures cd == d && ce == e
    ensures ReadSegments(BitsOf(Concat(cd)), CountWidth(q.typeNumber)) == AllLowBytes(q.dataList)
    ensures ReadSegments(BitsOf(Concat(cd)), CountWidth(q.typeNumber)) == q.dataList <==> ByteCodes(q.dataList)
  {
    hide q.Valid, q.Shows, BlocksRead, RoomFor, Cut, BlocksFor, SplitsInto, FitBlocks, Near, AllCodewords, ReadSegments,
         BitsOf, Concat, CountWidth, AllLowBytes, ByteCodes, RowsOfType, PatternPosition;
    ReadBlocksAreOwn(q, maskPattern);
    TypeInTable(q, maskPattern);
    ShippedHasRoom(q, blocks);
    BlockSums(q.blockTable, q.positionTable, q.typeNumber, q.errorCorrectLevel, blocks);
    SpoiledSymbolReadsBack(q, maskPattern, blocks, stream, d, e, received, rd, re, cd, ce);
  }

  /** A reader always finds such bytes and blocks: those the symbol was made from. */
  lemma ReaderFindsBlocks(q: QRCode, maskPattern: MaskPattern)
    returns (blocks: seq<RSBlock>, stream: Poly, d: seq<Poly>, e: seq<Poly>)
    requires q.Valid() && q.Shows(false, maskPattern) && 0 <= q.errorCorrectLevel < 4
    requires Shipped(q.blockTable, q.positionTable)
    ensures 1 <= q.typeNumber <= |q.positionTable| && BlocksRead(q, blocks) && Cut(q, blocks, stream, d, e)
  {
    hide Shipped, BlocksRead, SplitsInto, BlocksFor, Frame, ReadMask, ReadLevel, GridOf, Mapped, Walk, StripCount, FreeCount,
         ReadModules, BitsOf, SumOfCounts, TotalCounts, Capacity, Encodes, Reserved, CentresInside, ValidTable, EmptySymbol;
    blocks := BlocksOfSymbol(q, maskPattern);
    ReadBlocksAreOwn(q, maskPattern);
    FrameIsOwn(q, maskPattern);
    CachedBlocks(q, blocks);
    ShippedHasRoom(q, blocks);
    var n := q.typeNumber * 4 + 17;
    var data, walk := q.dataCache.value, Walk(n, StripCount(n));
    ReadBack(Frame(q), GridOf(q.modules), walk, data, maskPattern);
    stream := Values(data);
    d, e := StreamSplits(blocks, q.typeNumber, q.dataList, data);
    IsPrefix(BitsOf(stream), Falses(FreeCount(Frame(q), walk) - 8 * |data|));
  }

  lemma IsPrefix(a: BitSeq, b: BitSeq)
    ensures a <= a + b
  {}

  lemma BlocksOfSymbol(q: QRCode, maskPattern: MaskPattern) returns (blocks: seq<RSBlock>)
    requires q.Valid() && q.Shows(false, maskPattern) && 0 <= q.errorCorrectLevel < 4
    ensures BlocksFor(q.blockTable, q.typeNumber, q.errorCorrectLevel) == Some(blocks)
    ensures 1 <= q.typeNumber <= |q.positionTable|
  {
    hide BlocksFor, Encodes, CentresInside, ValidTable, Mapped, GridOf, Walk;
    blocks := BlocksFor(q.blockTable, q.typeNumber, q.errorCorrectLevel).value;
  }

  lemma StreamLength(bytes: seq<bv8>, blocks: seq<RSBlock>)
    requires ValidBlocks(blocks)
    ensures |Stream(bytes, blocks)| == I.Before(DataCounts(blocks), Greatest(DataCounts(blocks), |blocks|))
                                       + I.Before(EcCounts(blocks), Greatest(EcCounts(blocks), |blocks|))
  {
    LengthsOfBlocks(bytes, blocks);
    hide I.Before, CheckBytes, DataCounts, EcCounts, DataBlocks, EcBlocks, Greatest, I.Lengths;
    I.InterleavedLength(DataBlocks(bytes, blocks), Greatest(DataCounts(blocks), |blocks|));
    I.InterleavedLength(EcBlocks(bytes, blocks), Greatest(EcCounts(blocks), |blocks|));
  }

  lemma StreamSplits(blocks: seq<RSBlock>, typeNumber: int, list: seq<Text>, data: seq<Coef>)
    returns (d: seq<Poly>, e: seq<Poly>)
    requires ValidBlocks(blocks) && Encodes(blocks, typeNumber, list, data)
    ensures SplitsInto(Values(data), blocks, d, e)
  {
    hide Padded, PayloadBits, CountWidth, BitsOf, Values, Stream, I.Deinterleaved, I.Before, Capacity, TotalCounts, SumOfCounts;
    var bytes: seq<bv8> :| |bytes| == Capacity(blocks) && Values(data) == Stream(bytes, blocks);
    var dcs, ecs := DataCounts(blocks), EcCounts(blocks);
    var maxDc, maxEc := Greatest(dcs, |blocks|), Greatest(ecs, |blocks|);
    StreamLength(bytes, blocks);
    d := I.Deinterleaved(dcs, Values(data)[..I.Before(dcs, maxDc)], maxDc);
    e := I.Deinterleaved(ecs, Values(data)[I.Before(dcs, maxDc)..], maxEc);
  }
}
