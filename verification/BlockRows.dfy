/** The table of block sizes the encoder ships with, and what its rows add up to. */
module BlockRows {
  import opened Codewords
  import opened QRCode

  // ----- the rows -----

  /** RS_BLOCK_TABLE by type: the rows of levels L, M, Q and H. */
  function RowsOfType(typeNumber: nat): (rows: seq<seq<nat>>)
    ensures |rows| == 4
  {
    if typeNumber <= 10 then RowsTo10(typeNumber)
    else if typeNumber <= 20 then RowsTo20(typeNumber)
    else if typeNumber <= 30 then RowsTo30(typeNumber)
    else RowsTo40(typeNumber)
  }

  function RowsTo10(typeNumber: nat): (rows: seq<seq<nat>>)
    ensures |rows| == 4
  {
    match typeNumber
    case 1 => [[1, 26, 19], [1, 26, 16], [1, 26, 13], [1, 26, 9]]
    case 2 => [[1, 44, 34], [1, 44, 28], [1, 44, 22], [1, 44, 16]]
    case 3 => [[1, 70, 55], [1, 70, 44], [2, 35, 17], [2, 35, 13]]
    case 4 => [[1, 100, 80], [2, 50, 32], [2, 50, 24], [4, 25, 9]]
    case 5 => [[1, 134, 108], [2, 67, 43], [2, 33, 15, 2, 34, 16], [2, 33, 11, 2, 34, 12]]
    case 6 => [[2, 86, 68], [4, 43, 27], [4, 43, 19], [4, 43, 15]]
    case 7 => [[2, 98, 78], [4, 49, 31], [2, 32, 14, 4, 33, 15], [4, 39, 13, 1, 40, 14]]
    case 8 => [[2, 121, 97], [2, 60, 38, 2, 61, 39], [4, 40, 18, 2, 41, 19], [4, 40, 14, 2, 41, 15]]
    case 9 => [[2, 146, 116], [3, 58, 36, 2, 59, 37], [4, 36, 16, 4, 37, 17], [4, 36, 12, 4, 37, 13]]
    case 10 => [[2, 86, 68, 2, 87, 69], [4, 69, 43, 1, 70, 44], [6, 43, 19, 2, 44, 20], [6, 43, 15, 2, 44, 16]]
    case _ => [[], [], [], []]
  }

  function RowsTo20(typeNumber: nat): (rows: seq<seq<nat>>)
    ensures |rows| == 4
  {
    match typeNumber
    case 11 => [[4, 101, 81], [1, 80, 50, 4, 81, 51], [4, 50, 22, 4, 51, 23], [3, 36, 12, 8, 37, 13]]
    case 12 => [[2, 116, 92, 2, 117, 93], [6, 58, 36, 2, 59, 37], [4, 46, 20, 6, 47, 21], [7, 42, 14, 4, 43, 15]]
    case 13 => [[4, 133, 107], [8, 59, 37, 1, 60, 38], [8, 44, 20, 4, 45, 21], [12, 33, 11, 4, 34, 12]]
    case 14 => [[3, 145, 115, 1, 146, 116], [4, 64, 40, 5, 65, 41], [11, 36, 16, 5, 37, 17], [11, 36, 12, 5, 37, 13]]
    case 15 => [[5, 109, 87, 1, 110, 88], [5, 65, 41, 5, 66, 42], [5, 54, 24, 7, 55, 25], [11, 36, 12]]
    case 16 => [[5, 122, 98, 1, 123, 99], [7, 73, 45, 3, 74, 46], [15, 43, 19, 2, 44, 20], [3, 45, 15, 13, 46, 16]]
    case 17 => [[1, 135, 107, 5, 136, 108], [10, 74, 46, 1, 75, 47], [1, 50, 22, 15, 51, 23], [2, 42, 14, 17, 43, 15]]
    case 18 => [[5, 150, 120, 1, 151, 121], [9, 69, 43, 4, 70, 44], [17, 50, 22, 1, 51, 23], [2, 42, 14, 19, 43, 15]]
    case 19 => [[3, 141, 113, 4, 142, 114], [3, 70, 44, 11, 71, 45], [17, 47, 21, 4, 48, 22], [9, 39, 13, 16, 40, 14]]
    case 20 => [[3, 135, 107, 5, 136, 108], [3, 67, 41, 13, 68, 42], [15, 54, 24, 5, 55, 25], [15, 43, 15, 10, 44, 16]]
    case _ => [[], [], [], []]
  }

  function RowsTo30(typeNumber: nat): (rows: seq<seq<nat>>)
    ensures |rows| == 4
  {
    match typeNumber
    case 21 => [[4, 144, 116, 4, 145, 117], [17, 68, 42], [17, 50, 22, 6, 51, 23], [19, 46, 16, 6, 47, 17]]
    case 22 => [[2, 139, 111, 7, 140, 112], [17, 74, 46], [7, 54, 24, 16, 55, 25], [34, 37, 13]]
    case 23 => [[4, 151, 121, 5, 152, 122], [4, 75, 47, 14, 76, 48], [11, 54, 24, 14, 55, 25], [16, 45, 15, 14, 46, 16]]
    case 24 => [[6, 147, 117, 4, 148, 118], [6, 73, 45, 14, 74, 46], [11, 54, 24, 16, 55, 25], [30, 46, 16, 2, 47, 17]]
    case 25 => [[8, 132, 106, 4, 133, 107], [8, 75, 47, 13, 76, 48], [7, 54, 24, 22, 55, 25], [22, 45, 15, 13, 46, 16]]
    case 26 => [[10, 142, 114, 2, 143, 115], [19, 74, 46, 4, 75, 47], [28, 50, 22, 6, 51, 23], [33, 46, 16, 4, 47, 17]]
    case 27 => [[8, 152, 122, 4, 153, 123], [22, 73, 45, 3, 74, 46], [8, 53, 23, 26, 54, 24], [12, 45, 15, 28, 46, 16]]
    case 28 => [[3, 147, 117, 10, 148, 118], [3, 73, 45, 23, 74, 46], [4, 54, 24, 31, 55, 25], [11, 45, 15, 31, 46, 16]]
    case 29 => [[7, 146, 116, 7, 147, 117], [21, 73, 45, 7, 74, 46], [1, 53, 23, 37, 54, 24], [19, 45, 15, 26, 46, 16]]
    case 30 => [[5, 145, 115, 10, 146, 116], [19, 75, 47, 10, 76, 48], [15, 54, 24, 25, 55, 25], [23, 45, 15, 25, 46, 16]]
    case _ => [[], [], [], []]
  }

  function RowsTo40(typeNumber: nat): (rows: seq<seq<nat>>)
    ensures |rows| == 4
  {
    match typeNumber
    case 31 => [[13, 145, 115, 3, 146, 116], [2, 74, 46, 29, 75, 47], [42, 54, 24, 1, 55, 25], [23, 45, 15, 28, 46, 16]]
    case 32 => [[17, 145, 115], [10, 74, 46, 23, 75, 47], [10, 54, 24, 35, 55, 25], [19, 45, 15, 35, 46, 16]]
    case 33 => [[17, 145, 115, 1, 146, 116], [14, 74, 46, 21, 75, 47], [29, 54, 24, 19, 55, 25], [11, 45, 15, 46, 46, 16]]
    case 34 => [[13, 145, 115, 6, 146, 116], [14, 74, 46, 23, 75, 47], [44, 54, 24, 7, 55, 25], [59, 46, 16, 1, 47, 17]]
    case 35 => [[12, 151, 121, 7, 152, 122], [12, 75, 47, 26, 76, 48], [39, 54, 24, 14, 55, 25], [22, 45, 15, 41, 46, 16]]
    case 36 => [[6, 151, 121, 14, 152, 122], [6, 75, 47, 34, 76, 48], [46, 54, 24, 10, 55, 25], [2, 45, 15, 64, 46, 16]]
    case 37 => [[17, 152, 122, 4, 153, 123], [29, 74, 46, 14, 75, 47], [49, 54, 24, 10, 55, 25], [24, 45, 15, 46, 46, 16]]
    case 38 => [[4, 152, 122, 18, 153, 123], [13, 74, 46, 32, 75, 47], [48, 54, 24, 14, 55, 25], [42, 45, 15, 32, 46, 16]]
    case 39 => [[20, 147, 117, 4, 148, 118], [40, 75, 47, 7, 76, 48], [43, 54, 24, 22, 55, 25], [10, 45, 15, 67, 46, 16]]
    case 40 => [[19, 148, 118, 6, 149, 119], [18, 75, 47, 31, 76, 48], [34, 54, 24, 34, 55, 25], [20, 45, 15, 61, 46, 16]]
    case _ => [[], [], [], []]
  }

  // ----- sums over a row -----

  function RowTotal(row: seq<nat>, i: nat): nat
    requires 3 * i <= |row|
  {
    if i == 0 then 0 else RowTotal(row, i - 1) + row[3 * i - 3] * row[3 * i - 2]
  }

  function RowData(row: seq<nat>, i: nat): nat
    requires 3 * i <= |row|
  {
    if i == 0 then 0 else RowData(row, i - 1) + row[3 * i - 3] * row[3 * i - 1]
  }

  lemma {:induction false} SumJoins(a: seq<nat>, b: seq<nat>, r: nat)
    requires r <= |b|
    ensures SumOfCounts(a + b, |a| + r) == SumOfCounts(a, |a|) + SumOfCounts(b, r)
    decreases r
  {
    if r == 0 {
      SumOfPrefix(a, b, |a|);
    } else {
      SumJoins(a, b, r - 1);
    }
  }

  lemma {:induction false} SumOfPrefix(a: seq<nat>, b: seq<nat>, r: nat)
    requires r <= |a|
    ensures SumOfCounts(a + b, r) == SumOfCounts(a, r)
  {
    if r > 0 { SumOfPrefix(a, b, r - 1); }
  }

  lemma {:induction false} SumOfEqual(counts: seq<nat>, x: nat, r: nat)
    requires r <= |counts| && forall k | 0 <= k < r :: counts[k] == x
    ensures SumOfCounts(counts, r) == r * x
  {
    if r > 0 {
      SumOfEqual(counts, x, r - 1);
      assert r * x == (r - 1) * x + x;
    }
  }

  lemma SumOfMore(a: seq<nat>, b: seq<nat>, x: nat)
    requires forall k | 0 <= k < |b| :: b[k] == x
    ensures SumOfCounts(a + b, |a| + |b|) == SumOfCounts(a, |a|) + |b| * x
  {
    SumJoins(a, b, |b|);
    SumOfEqual(b, x, |b|);
  }

  lemma CountsJoin(a: seq<RSBlock>, b: seq<RSBlock>)
    ensures TotalCounts(a + b) == TotalCounts(a) + TotalCounts(b)
    ensures DataCounts(a + b) == DataCounts(a) + DataCounts(b)
  {}

  lemma CountsOfMore(a: seq<RSBlock>, count: nat, block: RSBlock)
    ensures SumOfCounts(TotalCounts(a + Copies(count, block)), |a| + count)
         == SumOfCounts(TotalCounts(a), |a|) + count * block.totalCount
    ensures SumOfCounts(DataCounts(a + Copies(count, block)), |a| + count)
         == SumOfCounts(DataCounts(a), |a|) + count * block.dataCount
  {
    hide SumOfCounts;
    var b := Copies(count, block);
    CountsJoin(a, b);
    SumOfMore(TotalCounts(a), TotalCounts(b), block.totalCount);
    SumOfMore(DataCounts(a), DataCounts(b), block.dataCount);
  }

  /** The blocks of a row have the codewords that the triples multiply out to. */
  lemma {:induction false} RowSums(row: seq<nat>, i: nat)
    requires 3 * i <= |row|
    ensures SumOfCounts(TotalCounts(Expand(row, i)), |Expand(row, i)|) == RowTotal(row, i)
    ensures Capacity(Expand(row, i)) == RowData(row, i)
  {
    hide TotalCounts, DataCounts;
    if i > 0 {
      RowSums(row, i - 1);
      CountsOfMore(Expand(row, i - 1), row[3 * i - 3], RSBlock(row[3 * i - 2], row[3 * i - 1]));
    }
  }

  // ----- what every row satisfies -----

  /** Triples that add up to so many codewords and at most so many data codewords,
      in blocks that Reed-Solomon codes allow. */
  ghost predicate RowFits(row: seq<nat>, total: int, mostData: nat) {
    && ValidRow(row) && RowTotal(row, |row| / 3) == total && RowData(row, |row| / 3) <= mostData
    && forall i: nat | 3 * i + 2 < |row| :: row[3 * i + 1] <= 255
  }

  lemma One(c: nat, t: nat, d: nat, total: nat, mostData: nat)
    requires d <= t <= 255 && t - d <= MOST_CHECK_BYTES && c * t == total && c * d <= mostData
    ensures RowFits([c, t, d], total, mostData)
  {
    var row := [c, t, d];
    assert RowTotal(row, 0) == 0 && RowData(row, 0) == 0;
    assert |row| / 3 == 1;
  }

  lemma Two(c: nat, t: nat, d: nat, c': nat, t': nat, d': nat, total: nat, mostData: nat)
    requires d <= t <= 255 && t - d <= MOST_CHECK_BYTES && d' <= t' <= 255 && t' - d' <= MOST_CHECK_BYTES
    requires c * t + c' * t' == total && c * d + c' * d' <= mostData
    ensures RowFits([c, t, d, c', t', d'], total, mostData)
  {
    var row := [c, t, d, c', t', d'];
    assert RowTotal(row, 0) == 0 && RowData(row, 0) == 0;
    assert RowTotal(row, 1) == c * t && RowData(row, 1) == c * d;
    assert |row| / 3 == 2;
  }

  /** Codewords of a full symbol: the free modules by eights. */
  function CodewordCount(typeNumber: nat): int {
    var m := typeNumber / 7 + 2;
    (16 * typeNumber * typeNumber + 128 * typeNumber + 64
     - (if typeNumber <= 1 then 0 else 25 * m * m - 10 * m - 55) - (if typeNumber >= 7 then 36 else 0)) / 8
  }

  function MostData(typeNumber: nat): nat {
    if typeNumber <= 9 then 256 else 65536
  }

  ghost predicate RowsFit(typeNumber: nat, rows: seq<seq<nat>>) {
    && |rows| == 4
    && forall k | 0 <= k < 4 && !(typeNumber == 15 && k == 3) ::
         RowFits(rows[k], CodewordCount(typeNumber), MostData(typeNumber))
  }

  lemma FourRows(typeNumber: nat, a: seq<nat>, b: seq<nat>, c: seq<nat>, d: seq<nat>, total: int, mostData: nat)
    requires total == CodewordCount(typeNumber) && mostData == MostData(typeNumber)
    requires RowFits(a, total, mostData) && RowFits(b, total, mostData) && RowFits(c, total, mostData)
    requires typeNumber == 15 || RowFits(d, total, mostData)
    ensures RowsFit(typeNumber, [a, b, c, d])
  {}

  lemma RowsFitTo5(typeNumber: nat)
    requires 1 <= typeNumber <= 5
    ensures RowsFit(typeNumber, RowsTo10(typeNumber))
  {
    hide RowFits, RowsFit;
    match typeNumber
    case 1 =>
      One(1, 26, 19, 26, 256);
      One(1, 26, 16, 26, 256);
      One(1, 26, 13, 26, 256);
      One(1, 26, 9, 26, 256);
      FourRows(1, [1, 26, 19], [1, 26, 16], [1, 26, 13], [1, 26, 9], 26, 256);
    case 2 =>
      One(1, 44, 34, 44, 256);
      One(1, 44, 28, 44, 256);
      One(1, 44, 22, 44, 256);
      One(1, 44, 16, 44, 256);
      FourRows(2, [1, 44, 34], [1, 44, 28], [1, 44, 22], [1, 44, 16], 44, 256);
    case 3 =>
      One(1, 70, 55, 70, 256);
      One(1, 70, 44, 70, 256);
      One(2, 35, 17, 70, 256);
      One(2, 35, 13, 70, 256);
      FourRows(3, [1, 70, 55], [1, 70, 44], [2, 35, 17], [2, 35, 13], 70, 256);
    case 4 =>
      One(1, 100, 80, 100, 256);
      One(2, 50, 32, 100, 256);
      One(2, 50, 24, 100, 256);
      One(4, 25, 9, 100, 256);
      FourRows(4, [1, 100, 80], [2, 50, 32], [2, 50, 24], [4, 25, 9], 100, 256);
    case 5 =>
      One(1, 134, 108, 134, 256);
      One(2, 67, 43, 134, 256);
      Two(2, 33, 15, 2, 34, 16, 134, 256);
      Two(2, 33, 11, 2, 34, 12, 134, 256);
      FourRows(5, [1, 134, 108], [2, 67, 43], [2, 33, 15, 2, 34, 16], [2, 33, 11, 2, 34, 12], 134, 256);
  }

  lemma RowsFitTo10(typeNumber: nat)
    requires 6 <= typeNumber <= 10
    ensures RowsFit(typeNumber, RowsTo10(typeNumber))
  {
    hide RowFits, RowsFit;
    match typeNumber
    case 6 =>
      One(2, 86, 68, 172, 256);
      One(4, 43, 27, 172, 256);
      One(4, 43, 19, 172, 256);
      One(4, 43, 15, 172, 256);
      FourRows(6, [2, 86, 68], [4, 43, 27], [4, 43, 19], [4, 43, 15], 172, 256);
    case 7 =>
      One(2, 98, 78, 196, 256);
      One(4, 49, 31, 196, 256);
      Two(2, 32, 14, 4, 33, 15, 196, 256);
      Two(4, 39, 13, 1, 40, 14, 196, 256);
      FourRows(7, [2, 98, 78], [4, 49, 31], [2, 32, 14, 4, 33, 15], [4, 39, 13, 1, 40, 14], 196, 256);
    case 8 =>
      One(2, 121, 97, 242, 256);
      Two(2, 60, 38, 2, 61, 39, 242, 256);
      Two(4, 40, 18, 2, 41, 19, 242, 256);
      Two(4, 40, 14, 2, 41, 15, 242, 256);
      FourRows(8, [2, 121, 97], [2, 60, 38, 2, 61, 39], [4, 40, 18, 2, 41, 19], [4, 40, 14, 2, 41, 15], 242, 256);
    case 9 =>
      One(2, 146, 116, 292, 256);
      Two(3, 58, 36, 2, 59, 37, 292, 256);
      Two(4, 36, 16, 4, 37, 17, 292, 256);
      Two(4, 36, 12, 4, 37, 13, 292, 256);
      FourRows(9, [2, 146, 116], [3, 58, 36, 2, 59, 37], [4, 36, 16, 4, 37, 17], [4, 36, 12, 4, 37, 13], 292, 256);
    case 10 =>
      Two(2, 86, 68, 2, 87, 69, 346, 65536);
      Two(4, 69, 43, 1, 70, 44, 346, 65536);
      Two(6, 43, 19, 2, 44, 20, 346, 65536);
      Two(6, 43, 15, 2, 44, 16, 346, 65536);
      FourRows(10, [2, 86, 68, 2, 87, 69], [4, 69, 43, 1, 70, 44],
               [6, 43, 19, 2, 44, 20], [6, 43, 15, 2, 44, 16], 346, 65536);
  }

  lemma RowsFitTo15(typeNumber: nat)
    requires 11 <= typeNumber <= 15
    ensures RowsFit(typeNumber, RowsTo20(typeNumber))
  {
    hide RowFits, RowsFit;
    match typeNumber
    case 11 =>
      One(4, 101, 81, 404, 65536);
      Two(1, 80, 50, 4, 81, 51, 404, 65536);
      Two(4, 50, 22, 4, 51, 23, 404, 65536);
      Two(3, 36, 12, 8, 37, 13, 404, 65536);
      FourRows(11, [4, 101, 81], [1, 80, 50, 4, 81, 51], [4, 50, 22, 4, 51, 23], [3, 36, 12, 8, 37, 13], 404, 65536);
    case 12 =>
      Two(2, 116, 92, 2, 117, 93, 466, 65536);
      Two(6, 58, 36, 2, 59, 37, 466, 65536);
      Two(4, 46, 20, 6, 47, 21, 466, 65536);
      Two(7, 42, 14, 4, 43, 15, 466, 65536);
      FourRows(12, [2, 116, 92, 2, 117, 93], [6, 58, 36, 2, 59, 37],
               [4, 46, 20, 6, 47, 21], [7, 42, 14, 4, 43, 15], 466, 65536);
    case 13 =>
      One(4, 133, 107, 532, 65536);
      Two(8, 59, 37, 1, 60, 38, 532, 65536);
      Two(8, 44, 20, 4, 45, 21, 532, 65536);
      Two(12, 33, 11, 4, 34, 12, 532, 65536);
      FourRows(13, [4, 133, 107], [8, 59, 37, 1, 60, 38], [8, 44, 20, 4, 45, 21], [12, 33, 11, 4, 34, 12], 532, 65536);
    case 14 =>
      Two(3, 145, 115, 1, 146, 116, 581, 65536);
      Two(4, 64, 40, 5, 65, 41, 581, 65536);
      Two(11, 36, 16, 5, 37, 17, 581, 65536);
      Two(11, 36, 12, 5, 37, 13, 581, 65536);
      FourRows(14, [3, 145, 115, 1, 146, 116], [4, 64, 40, 5, 65, 41],
               [11, 36, 16, 5, 37, 17], [11, 36, 12, 5, 37, 13], 581, 65536);
    case 15 =>
      Two(5, 109, 87, 1, 110, 88, 655, 65536);
      Two(5, 65, 41, 5, 66, 42, 655, 65536);
      Two(5, 54, 24, 7, 55, 25, 655, 65536);
      FourRows(15, [5, 109, 87, 1, 110, 88], [5, 65, 41, 5, 66, 42], [5, 54, 24, 7, 55, 25], [11, 36, 12], 655, 65536);
  }

  lemma RowsFitTo20(typeNumber: nat)
    requires 16 <= typeNumber <= 20
    ensures RowsFit(typeNumber, RowsTo20(typeNumber))
  {
    hide RowFits, RowsFit;
    match typeNumber
    case 16 =>
      Two(5, 122, 98, 1, 123, 99, 733, 65536);
      Two(7, 73, 45, 3, 74, 46, 733, 65536);
      Two(15, 43, 19, 2, 44, 20, 733, 65536);
      Two(3, 45, 15, 13, 46, 16, 733, 65536);
      FourRows(16, [5, 122, 98, 1, 123, 99], [7, 73, 45, 3, 74, 46],
               [15, 43, 19, 2, 44, 20], [3, 45, 15, 13, 46, 16], 733, 65536);
    case 17 =>
      Two(1, 135, 107, 5, 136, 108, 815, 65536);
      Two(10, 74, 46, 1, 75, 47, 815, 65536);
      Two(1, 50, 22, 15, 51, 23, 815, 65536);
      Two(2, 42, 14, 17, 43, 15, 815, 65536);
      FourRows(17, [1, 135, 107, 5, 136, 108], [10, 74, 46, 1, 75, 47],
               [1, 50, 22, 15, 51, 23], [2, 42, 14, 17, 43, 15], 815, 65536);
    case 18 =>
      Two(5, 150, 120, 1, 151, 121, 901, 65536);
      Two(9, 69, 43, 4, 70, 44, 901, 65536);
      Two(17, 50, 22, 1, 51, 23, 901, 65536);
      Two(2, 42, 14, 19, 43, 15, 901, 65536);
      FourRows(18, [5, 150, 120, 1, 151, 121], [9, 69, 43, 4, 70, 44],
               [17, 50, 22, 1, 51, 23], [2, 42, 14, 19, 43, 15], 901, 65536);
    case 19 =>
      Two(3, 141, 113, 4, 142, 114, 991, 65536);
      Two(3, 70, 44, 11, 71, 45, 991, 65536);
      Two(17, 47, 21, 4, 48, 22, 991, 65536);
      Two(9, 39, 13, 16, 40, 14, 991, 65536);
      FourRows(19, [3, 141, 113, 4, 142, 114], [3, 70, 44, 11, 71, 45],
               [17, 47, 21, 4, 48, 22], [9, 39, 13, 16, 40, 14], 991, 65536);
    case 20 =>
      Two(3, 135, 107, 5, 136, 108, 1085, 65536);
      Two(3, 67, 41, 13, 68, 42, 1085, 65536);
      Two(15, 54, 24, 5, 55, 25, 1085, 65536);
      Two(15, 43, 15, 10, 44, 16, 1085, 65536);
      FourRows(20, [3, 135, 107, 5, 136, 108], [3, 67, 41, 13, 68, 42],
               [15, 54, 24, 5, 55, 25], [15, 43, 15, 10, 44, 16], 1085, 65536);
  }

  lemma RowsFitTo25(typeNumber: nat)
    requires 21 <= typeNumber <= 25
    ensures RowsFit(typeNumber, RowsTo30(typeNumber))
  {
    hide RowFits, RowsFit;
    match typeNumber
    case 21 =>
      Two(4, 144, 116, 4, 145, 117, 1156, 65536);
      One(17, 68, 42, 1156, 65536);
      Two(17, 50, 22, 6, 51, 23, 1156, 65536);
      Two(19, 46, 16, 6, 47, 17, 1156, 65536);
      FourRows(21, [4, 144, 116, 4, 145, 117], [17, 68, 42],
               [17, 50, 22, 6, 51, 23], [19, 46, 16, 6, 47, 17], 1156, 65536);
    case 22 =>
      Two(2, 139, 111, 7, 140, 112, 1258, 65536);
      One(17, 74, 46, 1258, 65536);
      Two(7, 54, 24, 16, 55, 25, 1258, 65536);
      One(34, 37, 13, 1258, 65536);
      FourRows(22, [2, 139, 111, 7, 140, 112], [17, 74, 46], [7, 54, 24, 16, 55, 25], [34, 37, 13], 1258, 65536);
    case 23 =>
      Two(4, 151, 121, 5, 152, 122, 1364, 65536);
      Two(4, 75, 47, 14, 76, 48, 1364, 65536);
      Two(11, 54, 24, 14, 55, 25, 1364, 65536);
      Two(16, 45, 15, 14, 46, 16, 1364, 65536);
      FourRows(23, [4, 151, 121, 5, 152, 122], [4, 75, 47, 14, 76, 48],
               [11, 54, 24, 14, 55, 25], [16, 45, 15, 14, 46, 16], 1364, 65536);
    case 24 =>
      Two(6, 147, 117, 4, 148, 118, 1474, 65536);
      Two(6, 73, 45, 14, 74, 46, 1474, 65536);
      Two(11, 54, 24, 16, 55, 25, 1474, 65536);
      Two(30, 46, 16, 2, 47, 17, 1474, 65536);
      FourRows(24, [6, 147, 117, 4, 148, 118], [6, 73, 45, 14, 74, 46],
               [11, 54, 24, 16, 55, 25], [30, 46, 16, 2, 47, 17], 1474, 65536);
    case 25 =>
      Two(8, 132, 106, 4, 133, 107, 1588, 65536);
      Two(8, 75, 47, 13, 76, 48, 1588, 65536);
      Two(7, 54, 24, 22, 55, 25, 1588, 65536);
      Two(22, 45, 15, 13, 46, 16, 1588, 65536);
      FourRows(25, [8, 132, 106, 4, 133, 107], [8, 75, 47, 13, 76, 48],
               [7, 54, 24, 22, 55, 25], [22, 45, 15, 13, 46, 16], 1588, 65536);
  }

  lemma RowsFitTo30(typeNumber: nat)
    requires 26 <= typeNumber <= 30
    ensures RowsFit(typeNumber, RowsTo30(typeNumber))
  {
    hide RowFits, RowsFit;
    match typeNumber
    case 26 =>
      Two(10, 142, 114, 2, 143, 115, 1706, 65536);
      Two(19, 74, 46, 4, 75, 47, 1706, 65536);
      Two(28, 50, 22, 6, 51, 23, 1706, 65536);
      Two(33, 46, 16, 4, 47, 17, 1706, 65536);
      FourRows(26, [10, 142, 114, 2, 143, 115], [19, 74, 46, 4, 75, 47],
               [28, 50, 22, 6, 51, 23], [33, 46, 16, 4, 47, 17], 1706, 65536);
    case 27 =>
      Two(8, 152, 122, 4, 153, 123, 1828, 65536);
      Two(22, 73, 45, 3, 74, 46, 1828, 65536);
      Two(8, 53, 23, 26, 54, 24, 1828, 65536);
      Two(12, 45, 15, 28, 46, 16, 1828, 65536);
      FourRows(27, [8, 152, 122, 4, 153, 123], [22, 73, 45, 3, 74, 46],
               [8, 53, 23, 26, 54, 24], [12, 45, 15, 28, 46, 16], 1828, 65536);
    case 28 =>
      Two(3, 147, 117, 10, 148, 118, 1921, 65536);
      Two(3, 73, 45, 23, 74, 46, 1921, 65536);
      Two(4, 54, 24, 31, 55, 25, 1921, 65536);
      Two(11, 45, 15, 31, 46, 16, 1921, 65536);
      FourRows(28, [3, 147, 117, 10, 148, 118], [3, 73, 45, 23, 74, 46],
               [4, 54, 24, 31, 55, 25], [11, 45, 15, 31, 46, 16], 1921, 65536);
    case 29 =>
      Two(7, 146, 116, 7, 147, 117, 2051, 65536);
      Two(21, 73, 45, 7, 74, 46, 2051, 65536);
      Two(1, 53, 23, 37, 54, 24, 2051, 65536);
      Two(19, 45, 15, 26, 46, 16, 2051, 65536);
      FourRows(29, [7, 146, 116, 7, 147, 117], [21, 73, 45, 7, 74, 46],
               [1, 53, 23, 37, 54, 24], [19, 45, 15, 26, 46, 16], 2051, 65536);
    case 30 =>
      Two(5, 145, 115, 10, 146, 116, 2185, 65536);
      Two(19, 75, 47, 10, 76, 48, 2185, 65536);
      Two(15, 54, 24, 25, 55, 25, 2185, 65536);
      Two(23, 45, 15, 25, 46, 16, 2185, 65536);
      FourRows(30, [5, 145, 115, 10, 146, 116], [19, 75, 47, 10, 76, 48],
               [15, 54, 24, 25, 55, 25], [23, 45, 15, 25, 46, 16], 2185, 65536);
  }

  lemma RowsFitTo35(typeNumber: nat)
    requires 31 <= typeNumber <= 35
    ensures RowsFit(typeNumber, RowsTo40(typeNumber))
  {
    hide RowFits, RowsFit;
    match typeNumber
    case 31 =>
      Two(13, 145, 115, 3, 146, 116, 2323, 65536);
      Two(2, 74, 46, 29, 75, 47, 2323, 65536);
      Two(42, 54, 24, 1, 55, 25, 2323, 65536);
      Two(23, 45, 15, 28, 46, 16, 2323, 65536);
      FourRows(31, [13, 145, 115, 3, 146, 116], [2, 74, 46, 29, 75, 47],
               [42, 54, 24, 1, 55, 25], [23, 45, 15, 28, 46, 16], 2323, 65536);
    case 32 =>
      One(17, 145, 115, 2465, 65536);
      Two(10, 74, 46, 23, 75, 47, 2465, 65536);
      Two(10, 54, 24, 35, 55, 25, 2465, 65536);
      Two(19, 45, 15, 35, 46, 16, 2465, 65536);
      FourRows(32, [17, 145, 115], [10, 74, 46, 23, 75, 47],
               [10, 54, 24, 35, 55, 25], [19, 45, 15, 35, 46, 16], 2465, 65536);
    case 33 =>
      Two(17, 145, 115, 1, 146, 116, 2611, 65536);
      Two(14, 74, 46, 21, 75, 47, 2611, 65536);
      Two(29, 54, 24, 19, 55, 25, 2611, 65536);
      Two(11, 45, 15, 46, 46, 16, 2611, 65536);
      FourRows(33, [17, 145, 115, 1, 146, 116], [14, 74, 46, 21, 75, 47],
               [29, 54, 24, 19, 55, 25], [11, 45, 15, 46, 46, 16], 2611, 65536);
    case 34 =>
      Two(13, 145, 115, 6, 146, 116, 2761, 65536);
      Two(14, 74, 46, 23, 75, 47, 2761, 65536);
      Two(44, 54, 24, 7, 55, 25, 2761, 65536);
      Two(59, 46, 16, 1, 47, 17, 2761, 65536);
      FourRows(34, [13, 145, 115, 6, 146, 116], [14, 74, 46, 23, 75, 47],
               [44, 54, 24, 7, 55, 25], [59, 46, 16, 1, 47, 17], 2761, 65536);
    case 35 =>
      Two(12, 151, 121, 7, 152, 122, 2876, 65536);
      Two(12, 75, 47, 26, 76, 48, 2876, 65536);
      Two(39, 54, 24, 14, 55, 25, 2876, 65536);
      Two(22, 45, 15, 41, 46, 16, 2876, 65536);
      FourRows(35, [12, 151, 121, 7, 152, 122], [12, 75, 47, 26, 76, 48],
               [39, 54, 24, 14, 55, 25], [22, 45, 15, 41, 46, 16], 2876, 65536);
  }

  lemma RowsFitTo40(typeNumber: nat)
    requires 36 <= typeNumber <= 40
    ensures RowsFit(typeNumber, RowsTo40(typeNumber))
  {
    hide RowFits, RowsFit;
    match typeNumber
    case 36 =>
      Two(6, 151, 121, 14, 152, 122, 3034, 65536);
      Two(6, 75, 47, 34, 76, 48, 3034, 65536);
      Two(46, 54, 24, 10, 55, 25, 3034, 65536);
      Two(2, 45, 15, 64, 46, 16, 3034, 65536);
      FourRows(36, [6, 151, 121, 14, 152, 122], [6, 75, 47, 34, 76, 48],
               [46, 54, 24, 10, 55, 25], [2, 45, 15, 64, 46, 16], 3034, 65536);
    case 37 =>
      Two(17, 152, 122, 4, 153, 123, 3196, 65536);
      Two(29, 74, 46, 14, 75, 47, 3196, 65536);
      Two(49, 54, 24, 10, 55, 25, 3196, 65536);
      Two(24, 45, 15, 46, 46, 16, 3196, 65536);
      FourRows(37, [17, 152, 122, 4, 153, 123], [29, 74, 46, 14, 75, 47],
               [49, 54, 24, 10, 55, 25], [24, 45, 15, 46, 46, 16], 3196, 65536);
    case 38 =>
      Two(4, 152, 122, 18, 153, 123, 3362, 65536);
      Two(13, 74, 46, 32, 75, 47, 3362, 65536);
      Two(48, 54, 24, 14, 55, 25, 3362, 65536);
      Two(42, 45, 15, 32, 46, 16, 3362, 65536);
      FourRows(38, [4, 152, 122, 18, 153, 123], [13, 74, 46, 32, 75, 47],
               [48, 54, 24, 14, 55, 25], [42, 45, 15, 32, 46, 16], 3362, 65536);
    case 39 =>
      Two(20, 147, 117, 4, 148, 118, 3532, 65536);
      Two(40, 75, 47, 7, 76, 48, 3532, 65536);
      Two(43, 54, 24, 22, 55, 25, 3532, 65536);
      Two(10, 45, 15, 67, 46, 16, 3532, 65536);
      FourRows(39, [20, 147, 117, 4, 148, 118], [40, 75, 47, 7, 76, 48],
               [43, 54, 24, 22, 55, 25], [10, 45, 15, 67, 46, 16], 3532, 65536);
    case 40 =>
      Two(19, 148, 118, 6, 149, 119, 3706, 65536);
      Two(18, 75, 47, 31, 76, 48, 3706, 65536);
      Two(34, 54, 24, 34, 55, 25, 3706, 65536);
      Two(20, 45, 15, 61, 46, 16, 3706, 65536);
      FourRows(40, [19, 148, 118, 6, 149, 119], [18, 75, 47, 31, 76, 48],
               [34, 54, 24, 34, 55, 25], [20, 45, 15, 61, 46, 16], 3706, 65536);
  }

  lemma AllRowsFit(typeNumber: nat)
    requires 1 <= typeNumber <= 40
    ensures RowsFit(typeNumber, RowsOfType(typeNumber))
  {
    hide RowsFit, RowsTo10, RowsTo20, RowsTo30, RowsTo40;
    if typeNumber <= 5 { RowsFitTo5(typeNumber); }
    else if typeNumber <= 10 { RowsFitTo10(typeNumber); }
    else if typeNumber <= 15 { RowsFitTo15(typeNumber); }
    else if typeNumber <= 20 { RowsFitTo20(typeNumber); }
    else if typeNumber <= 25 { RowsFitTo25(typeNumber); }
    else if typeNumber <= 30 { RowsFitTo30(typeNumber); }
    else if typeNumber <= 35 { RowsFitTo35(typeNumber); }
    else { RowsFitTo40(typeNumber); }
  }

  /** The exception: eleven blocks of type 15 and level H, where there is room for
      259 codewords more. */
  lemma ShortRow()
    ensures RowsOfType(15)[3] == [11, 36, 12] && CodewordCount(15) == 655
    ensures RowFits(RowsOfType(15)[3], 396, 65536)
  {
    One(11, 36, 12, 396, 65536);
    hide RowFits;
  }
}
