/** QRCode: from strings to a finished symbol. */
module QRCode {
  import opened Wrappers
  import opened QRMath
  import opened Polynomials
  import opened BitBuffer
  import opened DataStream
  import opened QRPolynomial
  import opened Codewords
  import opened FunctionPatterns
  import opened FunctionGrid
  import opened DataPlacement
  import Bch

  // ----- the two lookup tables -----

  /** Rows of (count, total, data) triples, four rows per type in the order
      L, M, Q, H. */
  type BlockTable = seq<seq<nat>>

  const MOST_CHECK_BYTES := 30

  ghost predicate ValidRow(row: seq<nat>) {
    && |row| % 3 == 0
    && forall i: nat | 3 * i + 2 < |row| ::
         row[3 * i + 2] <= row[3 * i + 1] && row[3 * i + 1] - row[3 * i + 2] <= MOST_CHECK_BYTES
  }

  ghost predicate ValidTable(table: BlockTable) {
    forall k | 0 <= k < |table| :: ValidRow(table[k])
  }

  function Copies(count: nat, block: RSBlock): seq<RSBlock> {
    seq(count, _ => block)
  }

  /** The blocks of the first i triples. */
  function Expand(row: seq<nat>, i: nat): seq<RSBlock>
    requires 3 * i <= |row|
  {
    if i == 0 then []
    else Expand(row, i - 1) + Copies(row[3 * i - 3], RSBlock(row[3 * i - 2], row[3 * i - 1]))
  }

  /** getRsBlockTable: None where the program reads undefined. */
  function RowFor(table: BlockTable, typeNumber: int, level: int): Option<seq<nat>> {
    var k := if level == 1 then 0 else if level == 0 then 1 else if level == 3 then 2 else if level == 2 then 3 else -1;
    var index := (typeNumber - 1) * 4 + k;
    if k >= 0 && 0 <= index < |table| then Some(table[index]) else None
  }

  /** Levels are numbered M, L, H, Q from 0; the table lists L, M, Q, H. */
  lemma RowsOfLevels(table: BlockTable, typeNumber: nat)
    requires typeNumber >= 1 && |table| >= 4 * typeNumber
    ensures RowFor(table, typeNumber, 1) == Some(table[4 * typeNumber - 4])
    ensures RowFor(table, typeNumber, 0) == Some(table[4 * typeNumber - 3])
    ensures RowFor(table, typeNumber, 3) == Some(table[4 * typeNumber - 2])
    ensures RowFor(table, typeNumber, 2) == Some(table[4 * typeNumber - 1])
  {}

  /** There is a row exactly for the four levels and the types of the table. */
  lemma RowsAreExact(table: BlockTable, typeNumber: int, level: int)
    requires |table| % 4 == 0
    ensures RowFor(table, typeNumber, level).Some? <==> 0 <= level < 4 && 1 <= typeNumber <= |table| / 4
  {}

  /** Block j of triple i comes after all blocks of the triples before it, and has
      the total and the data count of that triple. */
  lemma {:induction false} ExpandAt(row: seq<nat>, m: nat, i: nat, j: nat)
    requires 3 * m <= |row| && i < m && j < row[3 * i]
    ensures |Expand(row, i + 1)| == |Expand(row, i)| + row[3 * i]
    ensures |Expand(row, i)| + j < |Expand(row, m)|
    ensures Expand(row, m)[|Expand(row, i)| + j] == RSBlock(row[3 * i + 1], row[3 * i + 2])
    decreases m
  {
    if i < m - 1 { ExpandAt(row, m - 1, i, j); }
  }

  function BlocksFor(table: BlockTable, typeNumber: int, level: int): Option<seq<RSBlock>> {
    match RowFor(table, typeNumber, level)
    case None => None
    case Some(row) => Some(Expand(row, |row| / 3))
  }

  ghost predicate UsableBlocks(blocks: seq<RSBlock>) {
    ValidBlocks(blocks) && forall b | 0 <= b < |blocks| :: blocks[b].EcCount() <= MOST_CHECK_BYTES
  }

  lemma {:induction false} ExpandValid(row: seq<nat>, i: nat)
    requires ValidRow(row) && 3 * i <= |row|
    ensures UsableBlocks(Expand(row, i))
  {
    if i > 0 {
      ExpandValid(row, i - 1);
      assert row[3 * (i - 1) + 2] <= row[3 * (i - 1) + 1];
    }
  }

  /** getRSBlocks. */
  method GetRSBlocks(table: BlockTable, typeNumber: int, level: int) returns (r: Result<seq<RSBlock>>)
    requires ValidTable(table)
    ensures match BlocksFor(table, typeNumber, level)
            case None => r == Thrown
            case Some(blocks) => r == Ok(blocks) && UsableBlocks(blocks)
  {
    var row := RowFor(table, typeNumber, level);
    if row.None? { return Thrown; }
    var length := |row.value| / 3;
    var list: seq<RSBlock> := [];
    for i := 0 to length
      invariant list == Expand(row.value, i)
    {
      var count := row.value[i * 3 + 0];
      var totalCount := row.value[i * 3 + 1];
      var dataCount := row.value[i * 3 + 2];
      ghost var block := RSBlock(totalCount, dataCount);
      for j := 0 to count
        invariant list == Expand(row.value, i) + Copies(j, block)
      {
        assert Copies(j + 1, block) == Copies(j, block) + [block];
        list := list + [RSBlock(totalCount, dataCount)];
      }
    }
    ExpandValid(row.value, length);
    r := Ok(list);
  }

  // ----- createData -----

  ghost function Capacity(blocks: seq<RSBlock>): nat {
    SumOfCounts(DataCounts(blocks), |blocks|)
  }

  method TotalDataCount(blocks: seq<RSBlock>) returns (total: nat)
    ensures total == Capacity(blocks)
  {
    total := 0;
    for i := 0 to |blocks|
      invariant total == SumOfCounts(DataCounts(blocks), i)
    {
      total := total + blocks[i].dataCount;
    }
  }

  ghost predicate Fits(blocks: seq<RSBlock>, typeNumber: int, list: seq<Text>) {
    |PayloadBits(list, CountWidth(typeNumber))| <= Capacity(blocks) * 8
  }

  /** Strings fit when mode, counts and characters need no more bits than the data
      codewords of the blocks have. */
  lemma FitsByCounting(blocks: seq<RSBlock>, typeNumber: int, list: seq<Text>)
    requires typeNumber < 41
    ensures Fits(blocks, typeNumber, list) <==>
              |list| * (if 1 <= typeNumber <= 9 then 12 else 20) + 8 * CharacterCount(list) <= 8 * Capacity(blocks)
  {
    hide PayloadBits, CountWidth, Capacity;
    PayloadLength(list, typeNumber);
  }

  /** The values of `data` are the interleaved codewords of the padded payload. */
  ghost predicate Encodes(blocks: seq<RSBlock>, typeNumber: int, list: seq<Text>, data: seq<Coef>)
    requires ValidBlocks(blocks)
  {
    exists bytes: seq<bv8> ::
      && |bytes| == Capacity(blocks)
      && Padded(PayloadBits(list, CountWidth(typeNumber)), BitsOf(bytes), Capacity(blocks) * 8)
      && Values(data) == Stream(bytes, blocks)
      && |data| == SumOfCounts(TotalCounts(blocks), |blocks|)
  }

  /** createData throws where a lookup fails or the payload is too long. */
  ghost predicate CreateDataThrows(table: BlockTable, typeNumber: int, level: int, list: seq<Text>) {
    match BlocksFor(table, typeNumber, level)
    case None => true
    case Some(blocks) => (list != [] && typeNumber >= 41) || !Fits(blocks, typeNumber, list)
  }

  method CreateData(t: Tables, table: BlockTable, typeNumber: int, level: int, list: seq<Text>)
    returns (r: Result<seq<Coef>>)
    requires t.Valid() && ValidTable(table)
    ensures r == Thrown <==> CreateDataThrows(table, typeNumber, level, list)
    ensures r.Ok? ==>
              var blocks := BlocksFor(table, typeNumber, level).value;
              ValidBlocks(blocks) && Encodes(blocks, typeNumber, list, r.value)
  {
    hide Padded, Stream, PayloadBits, BitsOf, BlockThrows;
    var rsBlocks := GetRSBlocks(table, typeNumber, level);
    if rsBlocks.Thrown? { return Thrown; }
    var blocks := rsBlocks.value;
    var buffer := new QRBitBuffer();
    var thrown := WritePayload(list, typeNumber, buffer);
    if thrown { return Thrown; }
    var total := TotalDataCount(blocks);
    thrown := PadBuffer(buffer, total);
    if thrown { return Thrown; }
    forall b | 0 <= b < |blocks|
      ensures !BlockThrows(DataBlocks(buffer.buffer, blocks)[b], blocks[b].EcCount())
    {
      SmallBlocksNeverThrow(DataBlocks(buffer.buffer, blocks)[b], blocks[b].EcCount());
    }
    r := CreateBytes(t, buffer.buffer, blocks);
  }

  lemma SmallBlocksNeverThrow(data: Poly, ecCount: nat)
    requires ecCount <= MOST_CHECK_BYTES
    ensures !BlockThrows(data, ecCount)
  {}

  // ----- the setup phase -----

  /** (errorCorrectLevel << 3) | maskPattern, encoded and masked. */
  ghost function FormatWord(level: int, maskPattern: MaskPattern): nat {
    Bch.Xor(Bch.Word((level * 8 + maskPattern) % 0x40_0000, 10, Bch.G15), Bch.G15_MASK)
  }

  ghost function VersionWord(typeNumber: int): nat {
    Bch.Word(typeNumber % 0x10_0000, 12, Bch.G18)
  }

  ghost function EmptySymbol(typeNumber: int, pos: seq<int>, test: bool, level: int, maskPattern: MaskPattern): Grid {
    Reserved(typeNumber, pos, test, FormatWord(level, maskPattern), VersionWord(typeNumber))
  }

  method NewModules(n: nat) returns (m: array2<Cell>)
    ensures fresh(m) && Square(m, n) && GridOf(m) == Blank(n)
  {
    m := new Cell[n, n]((_, _) => None);
  }

  /** The calls of makeImpl between the blank grid and the data. */
  method SetupPhase(m: array2<Cell>, typeNumber: int, pos: seq<int>, test: bool, level: int, maskPattern: MaskPattern)
    requires typeNumber >= 1 && Square(m, typeNumber * 4 + 17)
    requires CentresInside(pos, typeNumber * 4 + 17)
    requires GridOf(m) == Blank(typeNumber * 4 + 17)
    modifies m
    ensures GridOf(m) == EmptySymbol(typeNumber, pos, test, level, maskPattern)
  {
    hide GridOf, Blank, WithProbe, WithAdjusts, WithTiming, WithTypeInfo, WithVersion, Bch.Xor, Bch.Word;
    var n := typeNumber * 4 + 17;
    SetupPositionProbePattern(m, n, 0, 0);
    SetupPositionProbePattern(m, n, n - 7, 0);
    SetupPositionProbePattern(m, n, 0, n - 7);
    SetupPositionAdjustPattern(m, n, pos);
    SetupTimingPattern(m, n);
    var bits := Bch.GetBCHTypeInfo(level * 8 + maskPattern);
    SetupTypeInfo(m, n, test, bits);
    if typeNumber >= 7 {
      bits := Bch.GetBCHTypeNumber(typeNumber);
      SetupTypeNumber(m, n, test, bits);
    }
  }

  // ----- automatic sizing -----

  ghost predicate FitsType(table: BlockTable, typeNumber: int, level: int, list: seq<Text>) {
    var blocks := BlocksFor(table, typeNumber, level);
    blocks.Some? && Fits(blocks.value, typeNumber, list)
  }

  /** All 40 types and 4 levels are present, as in the shipped tables. */
  ghost predicate Complete(table: BlockTable, positionTable: seq<seq<int>>, level: int) {
    |table| == 160 && |positionTable| == 40 && 0 <= level < 4
  }

  /** The sizing loop of make: the first fitting type below 40, or 40. */
  method ChooseType(table: BlockTable, level: int, list: seq<Text>) returns (r: Result<int>)
    requires ValidTable(table)
    ensures r.Ok? ==> 1 <= r.value <= 40 && forall k | 1 <= k < r.value :: !FitsType(table, k, level, list)
    ensures r.Ok? && r.value < 40 ==> FitsType(table, r.value, level, list)
    ensures r.Thrown? ==> exists k :: 1 <= k < 40 && BlocksFor(table, k, level) == None
  {
    hide PayloadBits, BlocksFor, CountWidth, Capacity, BitsOf, ValidTable, UsableBlocks;
    var typeNumber := 1;
    while typeNumber < 40
      invariant 1 <= typeNumber <= 40
      invariant forall k | 1 <= k < typeNumber :: !FitsType(table, k, level, list)
    {
      var rsBlocks := GetRSBlocks(table, typeNumber, level);
      if rsBlocks.Thrown? { return Thrown; }
      var buffer := new QRBitBuffer();
      var total := TotalDataCount(rsBlocks.value);
      var thrown := WritePayload(list, typeNumber, buffer);
      if thrown { return Thrown; }
      var bits := buffer.GetLengthInBits();
      if bits <= total * 8 { break; }
      typeNumber := typeNumber + 1;
    }
    r := Ok(typeNumber);
  }

  /** The first of the trial symbols with the lowest score. */
  ghost predicate Best(scores: seq<real>, pattern: nat) {
    && pattern < |scores|
    && forall k | 0 <= k < |scores| ::
         scores[pattern] <= scores[k] && (scores[k] == scores[pattern] ==> pattern <= k)
  }

  // ----- the encoder object -----

  class QRCode {
    var typeNumber: int
    var errorCorrectLevel: int
    var modules: array2<Cell>
    var moduleCount: int
    var dataCache: Option<seq<Coef>>
    var dataList: seq<Text>
    const tables: Tables
    const blockTable: BlockTable
    const positionTable: seq<seq<int>>

    /** The cache is empty or holds the encoding of the current strings at the
        current type and level. */
    ghost predicate Valid()
      reads this, tables.expTable, tables.logTable
    {
      && tables.Valid()
      && ValidTable(blockTable)
      && (forall k | 0 <= k < |positionTable| :: CentresInside(positionTable[k], 4 * k + 21))
      && (dataCache.Some? ==>
            && !CreateDataThrows(blockTable, typeNumber, errorCorrectLevel, dataList)
            && ValidBlocks(BlocksFor(blockTable, typeNumber, errorCorrectLevel).value)
            && Encodes(BlocksFor(blockTable, typeNumber, errorCorrectLevel).value, typeNumber, dataList, dataCache.value))
    }

    constructor (typeNumber: int, errorCorrectLevel: int, tables: Tables, blockTable: BlockTable, positionTable: seq<seq<int>>)
      requires tables.Valid() && ValidTable(blockTable)
      requires forall k | 0 <= k < |positionTable| :: CentresInside(positionTable[k], 4 * k + 21)
      ensures Valid() && dataList == [] && dataCache == None
      ensures this.typeNumber == typeNumber && this.errorCorrectLevel == errorCorrectLevel
      ensures this.tables == tables && this.blockTable == blockTable && this.positionTable == positionTable
      ensures fresh(modules)
    {
      this.typeNumber := typeNumber;
      this.errorCorrectLevel := errorCorrectLevel;
      this.modules := new Cell[0, 0];
      this.moduleCount := 0;
      this.dataCache := None;
      this.dataList := [];
      this.tables := tables;
      this.blockTable := blockTable;
      this.positionTable := positionTable;
    }

    method AddData(data: Text)
      requires Valid()
      modifies this
      ensures Valid() && dataCache == None && dataList == old(dataList) + [data]
      ensures unchanged(`typeNumber) && unchanged(`errorCorrectLevel) && unchanged(`modules) && unchanged(`moduleCount)
    {
      hide CreateDataThrows, Encodes, CentresInside, ValidTable;
      dataList := dataList + [data];
      dataCache := None;
    }

    /** The finished symbol shows the cached data over the function patterns. */
    ghost predicate Shows(test: bool, maskPattern: MaskPattern)
      reads this, modules
    {
      && 1 <= typeNumber <= |positionTable| && moduleCount == typeNumber * 4 + 17
      && Square(modules, moduleCount) && dataCache.Some?
      && Mapped(EmptySymbol(typeNumber, positionTable[typeNumber - 1], test, errorCorrectLevel, maskPattern),
                GridOf(modules), Walk(moduleCount, StripCount(moduleCount)), dataCache.value, maskPattern)
    }

    /** makeImpl fails exactly for types without a table entry and for data that
        createData rejects. */
    method MakeImpl(test: bool, maskPattern: MaskPattern) returns (thrown: bool)
      requires Valid()
      modifies this
      ensures Valid() && unchanged(`typeNumber) && unchanged(`errorCorrectLevel) && unchanged(`dataList)
      ensures thrown <==> !(1 <= typeNumber <= |positionTable|)
                          || CreateDataThrows(blockTable, typeNumber, errorCorrectLevel, dataList)
      ensures thrown ==> unchanged(`dataCache)
      ensures !thrown ==> Shows(test, maskPattern) && fresh(modules)
    {
      hide Mapped, GridOf, Walk, Reserved, CreateDataThrows, Encodes, CentresInside, FormatWord, VersionWord;
      hide SymbolSize, StripCount;
      if !(1 <= typeNumber <= |positionTable|) { return true; }
      moduleCount := typeNumber * 4 + 17;
      modules := NewModules(moduleCount);
      SetupPhase(modules, typeNumber, positionTable[typeNumber - 1], test, errorCorrectLevel, maskPattern);
      if dataCache == None {
        var data := CreateData(tables, blockTable, typeNumber, errorCorrectLevel, dataList);
        if data.Thrown? { return true; }
        dataCache := Some(data.value);
      }
      OddSide(typeNumber);
      MapData(modules, moduleCount, dataCache.value, maskPattern);
      return false;
    }

    /** Eight trial symbols; the scores stand for getLostPoint of each. */
    method GetBestMaskPattern(scores: seq<real>) returns (r: Result<MaskPattern>)
      requires Valid() && |scores| == 8
      modifies this
      ensures Valid() && unchanged(`typeNumber) && unchanged(`errorCorrectLevel) && unchanged(`dataList)
      ensures r == Thrown <==> !(1 <= typeNumber <= |positionTable|)
                               || CreateDataThrows(blockTable, typeNumber, errorCorrectLevel, dataList)
      ensures r.Thrown? ==> unchanged(`dataCache)
      ensures r.Ok? ==> Best(scores, r.value)
      ensures r.Ok? ==> (forall k | 0 <= k < 8 :: scores[r.value] <= scores[k])
                        && forall k | 0 <= k < r.value :: scores[r.value] < scores[k]
    {
      hide CreateDataThrows, Encodes, CentresInside, Shows;
      var minLostPoint := 0.0;
      var pattern: MaskPattern := 0;
      for i := 0 to 8
        invariant Valid() && unchanged(`typeNumber) && unchanged(`errorCorrectLevel) && unchanged(`dataList)
        invariant i == 0 ==> unchanged(`dataCache)
        invariant i > 0 ==> !CreateDataThrows(blockTable, typeNumber, errorCorrectLevel, dataList)
                            && 1 <= typeNumber <= |positionTable|
        invariant i > 0 ==> pattern < i && minLostPoint == scores[pattern]
        invariant i > 0 ==> Best(scores[..i], pattern)
      {
        var thrown := MakeImpl(true, i);
        if thrown { return Thrown; }
        var lostPoint := scores[i];
        if i == 0 || minLostPoint > lostPoint {
          minLostPoint := lostPoint;
          pattern := i;
        }
      }
      assert scores[..8] == scores;
      r := Ok(pattern);
    }

    /** make.  With the complete tables, automatic sizing fails exactly when the
        strings fit no type at all. */
    method Make(scores: seq<real>) returns (thrown: bool)
      requires Valid() && |scores| == 8
      modifies this
      ensures Valid() && unchanged(`errorCorrectLevel) && unchanged(`dataList)
      ensures old(typeNumber) >= 1 ==> unchanged(`typeNumber)
      ensures old(typeNumber) >= 1 ==>
                (thrown <==> typeNumber > |positionTable|
                             || CreateDataThrows(blockTable, typeNumber, errorCorrectLevel, dataList))
      ensures old(typeNumber) < 1 && !thrown ==>
                && 1 <= typeNumber <= 40
                && (forall k | 1 <= k < typeNumber :: !FitsType(blockTable, k, errorCorrectLevel, dataList))
                && (typeNumber < 40 ==> FitsType(blockTable, typeNumber, errorCorrectLevel, dataList))
      ensures !thrown ==> exists maskPattern: MaskPattern :: Best(scores, maskPattern) && Shows(false, maskPattern)
      ensures old(typeNumber) < 1 && Complete(blockTable, positionTable, errorCorrectLevel) ==>
                (thrown <==> forall k | 1 <= k <= 40 :: !FitsType(blockTable, k, errorCorrectLevel, dataList))
    {
      hide Encodes, CentresInside, Shows, Fits, Expand;
      if typeNumber < 1 {
        ThrowsBelowOne(blockTable, typeNumber, errorCorrectLevel, dataList);
        var chosen := ChooseType(blockTable, errorCorrectLevel, dataList);
        if chosen.Thrown? {
          ThrownOnlyIfIncomplete();
          return true;
        }
        typeNumber := chosen.value;
        FitsMeansNoThrow(blockTable, positionTable, typeNumber, errorCorrectLevel, dataList);
      }
      hide CreateDataThrows, FitsType, Best;
      var maskPattern := GetBestMaskPattern(scores);
      if maskPattern.Thrown? { return true; }
      thrown := MakeImpl(false, maskPattern.value);
    }

    lemma ThrownOnlyIfIncomplete()
      requires exists k :: 1 <= k < 40 && BlocksFor(blockTable, k, errorCorrectLevel) == None
      ensures !Complete(blockTable, positionTable, errorCorrectLevel)
    {}
  }

  lemma ThrowsBelowOne(table: BlockTable, typeNumber: int, level: int, list: seq<Text>)
    requires typeNumber < 1
    ensures CreateDataThrows(table, typeNumber, level, list)
  {}

  lemma FitsMeansNoThrow(table: BlockTable, positionTable: seq<seq<int>>, typeNumber: int, level: int, list: seq<Text>)
    requires 1 <= typeNumber <= 40
    ensures FitsType(table, typeNumber, level, list) <==> !CreateDataThrows(table, typeNumber, level, list)
  {}
}
