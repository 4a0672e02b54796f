/** mapData: the zigzag walk over the symbol, and what it leaves in the modules. */
module DataPlacement {
  import opened Wrappers
  import opened BitBuffer
  import opened Numbers
  import opened QRPolynomial
  import opened FunctionPatterns

  // ----- the walk -----

  /** Right column of strip k: pairs of columns from the right edge, stepping
      over column 6. */
  function StripCol(n: int, k: nat): int {
    if n - 1 - 2 * k > 6 then n - 1 - 2 * k else n - 2 - 2 * k
  }

  /** Strips run alternately upwards and downwards. */
  function StripRow(n: int, k: nat, s: nat): int {
    if k % 2 == 0 then n - 1 - s else s
  }

  /** The first s rows of strip k, both columns of each. */
  function Strip(n: int, k: nat, s: nat): seq<Pos> {
    if s == 0 then []
    else Strip(n, k, s - 1) + [(StripRow(n, k, s - 1), StripCol(n, k)), (StripRow(n, k, s - 1), StripCol(n, k) - 1)]
  }

  /** The first k strips. */
  function Walk(n: nat, k: nat): seq<Pos> {
    if k == 0 then [] else Walk(n, k - 1) + Strip(n, k - 1, n)
  }

  ghost predicate SymbolSize(n: int) {
    n >= 21 && n % 2 == 1
  }

  lemma OddSide(typeNumber: int)
    requires typeNumber >= 1
    ensures SymbolSize(typeNumber * 4 + 17)
  {
    var half := typeNumber * 2 + 8;
    RemainderOfSum(half, 1, 2);
    assert typeNumber * 4 + 17 == half * 2 + 1;
  }

  ghost predicate Distinct(walk: seq<Pos>) {
    forall i, j | 0 <= i < j < |walk| :: walk[i] != walk[j]
  }

  /** The rows that the first s steps of strip k cover. */
  ghost predicate RowCovered(n: nat, k: nat, s: nat, row: int) {
    if k % 2 == 0 then n - s <= row < n else 0 <= row < s
  }

  lemma {:induction false} StripMembers(n: nat, k: nat, s: nat)
    requires s <= n
    ensures forall p :: p in Strip(n, k, s) <==>
              RowCovered(n, k, s, p.0) && StripCol(n, k) - 1 <= p.1 <= StripCol(n, k)
    ensures Distinct(Strip(n, k, s))
  {
    if s > 0 {
      StripMembers(n, k, s - 1);
    }
  }

  function StripCount(n: nat): nat {
    if n == 0 then 0 else (n - 1) / 2
  }

  /** The leftmost column that the first k strips reach. */
  function LeftEdge(n: nat, k: nat): int {
    if k == 0 then n else StripCol(n, k - 1) - 1
  }

  lemma StripMember(n: nat, k: nat, p: Pos)
    ensures p in Strip(n, k, n) <==> 0 <= p.0 < n && StripCol(n, k) - 1 <= p.1 <= StripCol(n, k)
  {
    StripMembers(n, k, n);
  }

  lemma {:induction false} WalkMember(n: nat, k: nat, p: Pos)
    requires SymbolSize(n) && k <= StripCount(n)
    ensures p in Walk(n, k) <==> 0 <= p.0 < n && LeftEdge(n, k) <= p.1 < n && p.1 != 6
  {
    hide Strip, StripCol, SymbolSize, StripCount;
    if k > 0 {
      WalkMember(n, k - 1, p);
      StripMember(n, k - 1, p);
      StripIsNew(n, k - 1);
      hide LeftEdge;
    }
  }

  lemma {:induction false} WalkDistinct(n: nat, k: nat)
    requires SymbolSize(n) && k <= StripCount(n)
    ensures Distinct(Walk(n, k))
  {
    hide Strip, StripCol, SymbolSize, StripCount, LeftEdge;
    if k > 0 {
      WalkDistinct(n, k - 1);
      StripMembers(n, k - 1, n);
      StripIsNew(n, k - 1);
      var a, b := Walk(n, k - 1), Strip(n, k - 1, n);
      forall i, j | 0 <= i < |a| && 0 <= j < |b| ensures a[i] != b[j] {
        assert a[i] in a && b[j] in b;
        WalkMember(n, k - 1, a[i]);
        StripMember(n, k - 1, b[j]);
      }
      JoinDistinct(a, b);
    }
  }

  lemma JoinDistinct(a: seq<Pos>, b: seq<Pos>)
    requires Distinct(a) && Distinct(b) && forall i, j | 0 <= i < |a| && 0 <= j < |b| :: a[i] != b[j]
    ensures Distinct(a + b)
  {}

  lemma WalkSnoc(n: nat, k: nat)
    ensures Walk(n, k + 1) == Walk(n, k) + Strip(n, k, n)
  {}

  /** A strip starts right of where the previous ones ended, skipping only
      column 6. */
  lemma StripIsNew(n: nat, k: nat)
    requires SymbolSize(n) && k < StripCount(n)
    ensures StripCol(n, k) < LeftEdge(n, k) && StripCol(n, k) - 1 >= 0
    ensures StripCol(n, k) != 6 && StripCol(n, k) != 7
    ensures LeftEdge(n, k + 1) == StripCol(n, k) - 1 && LeftEdge(n, k) <= n
    ensures LeftEdge(n, k) == StripCol(n, k) + 1 || (LeftEdge(n, k) == 7 && StripCol(n, k) == 5)
  {}

  lemma {:induction false} WalkLength(n: nat, k: nat)
    ensures |Walk(n, k)| == k * (2 * n)
  {
    hide Strip;
    if k > 0 {
      WalkLength(n, k - 1);
      StripLength(n, k - 1, n);
      assert k * (2 * n) == (k - 1) * (2 * n) + 2 * n;
    }
  }

  lemma {:induction false} StripLength(n: nat, k: nat, s: nat)
    ensures |Strip(n, k, s)| == 2 * s
  {
    if s > 0 { StripLength(n, k, s - 1); }
  }

  lemma AllStrips(n: nat)
    requires SymbolSize(n)
    ensures LeftEdge(n, StripCount(n)) == 0 && 2 * StripCount(n) == n - 1
  {}

  /** The walk visits every module outside column 6 exactly once, and no other. */
  lemma WalkVisitsOnce(n: nat)
    requires SymbolSize(n)
    ensures Distinct(Walk(n, StripCount(n)))
    ensures forall p :: p in Walk(n, StripCount(n)) <==> InRange(p, n) && p.1 != 6
    ensures |Walk(n, StripCount(n))| == n * (n - 1)
  {
    hide Walk, LeftEdge, StripCount, SymbolSize, Distinct;
    var k := StripCount(n);
    AllStrips(n);
    WalkDistinct(n, k);
    WalkLength(n, k);
    forall p ensures p in Walk(n, k) <==> InRange(p, n) && p.1 != 6 { WalkMember(n, k, p); }
    TwiceTimes(k, n);
  }

  lemma TwiceTimes(k: nat, n: nat)
    ensures k * (2 * n) == (2 * k) * n == n * (2 * k)
  {}

  // ----- the order of the walk -----

  lemma {:induction false} StripAt(n: nat, k: nat, s: nat, i: nat)
    requires i < s
    ensures |Strip(n, k, s)| == 2 * s
    ensures Strip(n, k, s)[2 * i] == (StripRow(n, k, i), StripCol(n, k))
    ensures Strip(n, k, s)[2 * i + 1] == (StripRow(n, k, i), StripCol(n, k) - 1)
  {
    hide StripRow, StripCol;
    StripLength(n, k, s);
    StripLength(n, k, s - 1);
    if i < s - 1 { StripAt(n, k, s - 1, i); }
  }

  /** Both modules of row i of strip k stand next to each other in the walk. */
  lemma {:induction false} WalkAt(n: nat, count: nat, k: nat, i: nat)
    requires k < count && i < n
    ensures 0 <= k * (2 * n) && k * (2 * n) + 2 * i + 1 < |Walk(n, count)|
    ensures Walk(n, count)[k * (2 * n) + 2 * i] == (StripRow(n, k, i), StripCol(n, k))
    ensures Walk(n, count)[k * (2 * n) + 2 * i + 1] == (StripRow(n, k, i), StripCol(n, k) - 1)
  {
    hide Strip, StripRow, StripCol;
    WalkLength(n, count - 1);
    StripLength(n, count - 1, n);
    if k < count - 1 {
      WalkAt(n, count - 1, k, i);
    } else {
      StripAt(n, k, n, i);
    }
  }

  lemma NextInStrip(n: nat, count: nat, k: nat, i: nat)
    requires k < count && i + 1 < n
    ensures var walk, at := Walk(n, count), k * (2 * n) + 2 * i;
            && 0 <= at && at + 2 < |walk|
            && walk[at + 2] == (walk[at].0 + (if k % 2 == 0 then -1 else 1), walk[at].1)
  {
    hide Walk, StripCol;
    WalkAt(n, count, k, i);
    WalkAt(n, count, k, i + 1);
  }

  lemma NextStrip(n: nat, count: nat, k: nat)
    requires k + 1 < count <= StripCount(n) && SymbolSize(n)
    ensures var walk, at := Walk(n, count), k * (2 * n) + 2 * (n - 1);
            && 0 <= at && at + 2 < |walk|
            && walk[at + 2] == (walk[at].0, if walk[at].1 == 8 then 5 else walk[at].1 - 2)
  {
    hide Walk, StripCol, StripRow;
    WalkAt(n, count, k, n - 1);
    WalkAt(n, count, k + 1, 0);
    assert (k + 1) * (2 * n) == k * (2 * n) + 2 * n;
    Turn(n, k);
  }

  lemma Turn(n: nat, k: nat)
    requires k + 1 < StripCount(n) && SymbolSize(n)
    ensures StripRow(n, k + 1, 0) == StripRow(n, k, n - 1)
    ensures StripCol(n, k + 1) == if StripCol(n, k) == 8 then 5 else StripCol(n, k) - 2
  {}

  lemma WalkStarts(n: nat, count: nat)
    requires SymbolSize(n) && count > 0
    ensures |Walk(n, count)| > 0 && Walk(n, count)[0] == (n - 1, n - 1)
  {
    hide Walk;
    WalkAt(n, count, 0, 0);
    assert 0 * (2 * n) == 0;
  }

  /** The zigzag: from the lower right corner, always the module to the left
      first, then up the first pair of columns, down the next, and so on; at the
      edge on to the next pair, and from columns 8 and 7 over column 6 to 5. */
  lemma WalkZigzags(n: nat, k: nat, s: nat)
    requires SymbolSize(n) && k < StripCount(n) && s < n
    ensures var walk, i := Walk(n, StripCount(n)), k * (2 * n) + 2 * s;
            && 0 <= i && i + 1 < |walk| && walk[0] == (n - 1, n - 1)
            && walk[i + 1] == (walk[i].0, walk[i].1 - 1)
            && (s + 1 < n ==> i + 2 < |walk| && walk[i + 2] == (walk[i].0 + (if k % 2 == 0 then -1 else 1), walk[i].1))
            && (s + 1 == n && k + 1 < StripCount(n) ==>
                  i + 2 < |walk| && walk[i + 2] == (walk[i].0, if walk[i].1 == 8 then 5 else walk[i].1 - 2))
  {
    var count := StripCount(n);
    WalkStarts(n, count);
    hide Walk, StripCol, StripRow, StripCount;
    WalkAt(n, count, k, s);
    if s + 1 < n {
      NextInStrip(n, count, k, s);
    } else if k + 1 < count {
      NextStrip(n, count, k);
    }
  }

  // ----- masks -----

  /** QRMaskPattern: the eight patterns. */
  type MaskPattern = k: nat | k < 8

  function GetMask(maskPattern: MaskPattern, i: nat, j: nat): bool {
    if maskPattern == 0 then (i + j) % 2 == 0
    else if maskPattern == 1 then i % 2 == 0
    else if maskPattern == 2 then j % 3 == 0
    else if maskPattern == 3 then (i + j) % 3 == 0
    else if maskPattern == 4 then (i / 2 + j / 3) % 2 == 0
    else if maskPattern == 5 then (i * j) % 2 + (i * j) % 3 == 0
    else if maskPattern == 6 then ((i * j) % 2 + (i * j) % 3) % 2 == 0
    else ((i * j) % 3 + (i + j) % 2) % 2 == 0
  }

  /** Patterns 0 and 3: equal along anti-diagonals, every second and every third of
      which is flipped, beginning in the corner. */
  lemma DiagonalMasks(i: nat, j: nat)
    ensures GetMask(0, i + 1, j) == GetMask(0, i, j + 1) && GetMask(3, i + 1, j) == GetMask(3, i, j + 1)
    ensures GetMask(0, 0, 0) && GetMask(0, i + 1, j) == !GetMask(0, i, j)
    ensures GetMask(3, 0, 0) && !GetMask(3, 1, 0) && !GetMask(3, 2, 0) && GetMask(3, i + 3, j) == GetMask(3, i, j)
  {}

  /** Pattern 1: every second row as a whole, beginning with row 0. */
  lemma RowMask(i: nat, j: nat, j': nat)
    ensures GetMask(1, i, j) == GetMask(1, i, j') && GetMask(1, 0, j) && GetMask(1, i + 1, j) == !GetMask(1, i, j)
  {}

  /** Pattern 2: every third column as a whole, beginning with column 0. */
  lemma ColumnMask(i: nat, i': nat, j: nat)
    ensures GetMask(2, i, j) == GetMask(2, i', j) && GetMask(2, i, j + 3) == GetMask(2, i, j)
    ensures GetMask(2, i, 0) && !GetMask(2, i, 1) && !GetMask(2, i, 2)
  {}

  /** Pattern 4: blocks of two rows and three columns, flipped like a chess board. */
  lemma BlockMask(a: nat, b: nat, r: nat, c: nat)
    requires r < 2 && c < 3
    ensures GetMask(4, 2 * a + r, 3 * b + c) == GetMask(4, 2 * a, 3 * b)
    ensures GetMask(4, 2 * (a + 1), 3 * b) == GetMask(4, 2 * a, 3 * (b + 1)) == !GetMask(4, 2 * a, 3 * b)
    ensures GetMask(4, 0, 0)
  {
    hide GetMask;
    BlockColour(a, b, r, c);
    BlockColour(a, b, 0, 0);
    BlockColour(a + 1, b, 0, 0);
    BlockColour(a, b + 1, 0, 0);
    BlockColour(0, 0, 0, 0);
  }

  lemma BlockColour(a: nat, b: nat, r: nat, c: nat)
    requires r < 2 && c < 3
    ensures GetMask(4, 2 * a + r, 3 * b + c) <==> (a + b) % 2 == 0
  {
    QuotientOfSum(a, r, 2);
    QuotientOfSum(b, c, 3);
  }

  /** Patterns 5, 6 and 7 in terms of the product of row and column. */
  lemma ProductMasks(i: nat, j: nat)
    ensures GetMask(5, i, j) <==> i * j % 6 == 0
    ensures GetMask(6, i, j) <==> i * j % 6 < 3
    ensures GetMask(7, i, j) <==> i * j % 3 % 2 == (i + j) % 2
  {
    SixthsOf(i * j);
  }

  lemma SixthsOf(x: nat)
    ensures x % 2 + x % 3 == 0 <==> x % 6 == 0
    ensures (x % 2 + x % 3) % 2 == 0 <==> x % 6 < 3
  {
    Sixth(x / 6, x % 6);
  }

  lemma Sixth(q: nat, r: nat)
    requires r < 6
    ensures (6 * q + r) % 2 == r % 2 && (6 * q + r) % 3 == r % 3
  {
    RemainderOfSum(3 * q + r / 2, r % 2, 2);
    RemainderOfSum(2 * q + r / 3, r % 3, 3);
  }

  function MaskAt(maskPattern: MaskPattern, p: Pos): bool {
    p.0 >= 0 && p.1 >= 0 && GetMask(maskPattern, p.0, p.1)
  }

  // ----- placing bits -----

  /** Bit i of the data, most significant bit of each byte first; zero past the end. */
  function DataBit(data: seq<Coef>, i: nat): bool {
    i / 8 < |data| && Bit(Value(data[i / 8]), i % 8)
  }

  ghost predicate Free(g: Grid, p: Pos) {
    p in g && g[p] == None
  }

  /** How many modules of a walk are free. */
  ghost function FreeCount(g: Grid, walk: seq<Pos>): nat {
    if walk == [] then 0
    else FreeCount(g, walk[..|walk| - 1]) + if Free(g, walk[|walk| - 1]) then 1 else 0
  }

  /** h is g with the free modules along the walk holding the data bits in
      order, each flipped where the mask says so. */
  ghost predicate Mapped(g: Grid, h: Grid, walk: seq<Pos>, data: seq<Coef>, maskPattern: MaskPattern) {
    && h.Keys == g.Keys
    && (forall i | 0 <= i < |walk| && Free(g, walk[i]) ::
          h[walk[i]] == Some(DataBit(data, FreeCount(g, walk[..i])) != MaskAt(maskPattern, walk[i])))
    && (forall p | p in g && !(p in walk && Free(g, p)) :: h[p] == g[p])
  }

  lemma MappedStep(g: Grid, h: Grid, h': Grid, walk: seq<Pos>, p: Pos, data: seq<Coef>, maskPattern: MaskPattern)
    requires Mapped(g, h, walk, data, maskPattern) && p in g && p !in walk
    requires h' == if Free(g, p) then h[p := Some(DataBit(data, FreeCount(g, walk)) != MaskAt(maskPattern, p))] else h
    ensures Mapped(g, h', walk + [p], data, maskPattern)
    ensures FreeCount(g, walk + [p]) == FreeCount(g, walk) + if Free(g, p) then 1 else 0
  {
    hide DataBit, MaskAt, FreeCount;
    var next := walk + [p];
    FreeCountSnoc(g, walk, p);
    forall i | 0 <= i < |next| && Free(g, next[i])
      ensures h'[next[i]] == Some(DataBit(data, FreeCount(g, next[..i])) != MaskAt(maskPattern, next[i]))
    {
      if i < |walk| {
        assert next[..i] == walk[..i] && next[i] == walk[i] && walk[i] in walk;
      } else {
        assert next[..i] == walk;
      }
    }
  }

  lemma FreeCountSnoc(g: Grid, walk: seq<Pos>, p: Pos)
    ensures FreeCount(g, walk + [p]) == FreeCount(g, walk) + if Free(g, p) then 1 else 0
  {
    assert (walk + [p])[..|walk|] == walk;
  }

  method SetModule(m: array2<Cell>, row: nat, col: nat, dark: bool)
    requires row < m.Length0 && col < m.Length1
    modifies m
    ensures GridOf(m) == old(GridOf(m))[(row as int, col as int) := Some(dark)]
  {
    m[row, col] := Some(dark);
  }

  /** The body of the two-column loop. */
  method VisitModule(m: array2<Cell>, n: nat, row: int, col: int, data: seq<Coef>, maskPattern: MaskPattern,
                     byteIndex: nat, bitIndex: int, ghost g: Grid, ghost seen: seq<Pos>)
    returns (byteIndex': nat, bitIndex': int)
    requires Square(m, n) && InRange((row, col), n)
    requires Mapped(g, GridOf(m), seen, data, maskPattern)
    requires 0 <= bitIndex <= 7 && byteIndex * 8 + 7 - bitIndex == FreeCount(g, seen)
    requires (row, col) !in seen
    modifies m
    ensures Mapped(g, GridOf(m), seen + [(row, col)], data, maskPattern)
    ensures 0 <= bitIndex' <= 7 && byteIndex' * 8 + 7 - bitIndex' == FreeCount(g, seen + [(row, col)])
  {
    hide GetMask, Bit, FreeCount, Mapped, GridOf;
    byteIndex', bitIndex' := byteIndex, bitIndex;
    ghost var h := GridOf(m);
    KeysOfMapped(g, h, seen, data, maskPattern, (row, col));
    if m[row, col] == None {
      var dark := false;
      if byteIndex < |data| {
        dark := Bit(Value(data[byteIndex]), 7 - bitIndex);
      }
      var mask := GetMask(maskPattern, row, col);
      if mask {
        dark := !dark;
      }
      SetModule(m, row, col, dark);
      bitIndex' := bitIndex' - 1;
      if bitIndex' == -1 {
        byteIndex' := byteIndex' + 1;
        bitIndex' := 7;
      }
    }
    MappedStep(g, h, GridOf(m), seen, (row, col), data, maskPattern);
  }

  lemma KeysOfMapped(g: Grid, h: Grid, seen: seq<Pos>, data: seq<Coef>, maskPattern: MaskPattern, p: Pos)
    requires Mapped(g, h, seen, data, maskPattern) && p in h && p !in seen
    ensures p in g && g[p] == h[p]
  {}

  /** One pass along a strip: the inner loop of mapData. */
  method MapStrip(m: array2<Cell>, n: nat, ghost k: nat, col: int, startRow: int, startInc: int,
                  data: seq<Coef>, maskPattern: MaskPattern, startByte: nat, startBit: int, ghost g: Grid)
    returns (row: int, inc: int, byteIndex: nat, bitIndex: int)
    requires Square(m, n) && SymbolSize(n) && k < StripCount(n)
    requires col == StripCol(n, k) && startRow == StripRow(n, k, 0)
    requires startInc == if k % 2 == 0 then -1 else 1
    requires Mapped(g, GridOf(m), Walk(n, k), data, maskPattern)
    requires 0 <= startBit <= 7 && startByte * 8 + 7 - startBit == FreeCount(g, Walk(n, k))
    modifies m
    ensures Mapped(g, GridOf(m), Walk(n, k + 1), data, maskPattern)
    ensures 0 <= bitIndex <= 7 && byteIndex * 8 + 7 - bitIndex == FreeCount(g, Walk(n, k + 1))
    ensures row == StripRow(n, k + 1, 0) && inc == -startInc
  {
    hide Mapped, FreeCount, GridOf, Walk, Strip, StripCol, StripRow;
    row, inc, byteIndex, bitIndex := startRow, startInc, startByte, startBit;
    ghost var s := 0;
    ghost var base := Walk(n, k);
    StripStart(n, k);
    while true
      invariant s < n && row == StripRow(n, k, s) && inc == startInc
      invariant Mapped(g, GridOf(m), base + Strip(n, k, s), data, maskPattern)
      invariant 0 <= bitIndex <= 7 && byteIndex * 8 + 7 - bitIndex == FreeCount(g, base + Strip(n, k, s))
      decreases n - s
    {
      StripStep(n, k, s);
      ghost var seen := base + Strip(n, k, s);
      byteIndex, bitIndex := VisitModule(m, n, row, col, data, maskPattern, byteIndex, bitIndex, g, seen);
      seen := seen + [(row, col)];
      byteIndex, bitIndex := VisitModule(m, n, row, col - 1, data, maskPattern, byteIndex, bitIndex, g, seen);
      s := s + 1;
      row := row + inc;
      if row < 0 || n <= row {
        row := row - inc;
        inc := -inc;
        break;
      }
    }
  }

  lemma StripStart(n: nat, k: nat)
    ensures Walk(n, k) + Strip(n, k, 0) == Walk(n, k)
  {}

  lemma RowStep(n: nat, k: nat, s: nat)
    requires s < n
    ensures var row, next := StripRow(n, k, s), StripRow(n, k, s + 1);
            && 0 <= row < n && !RowCovered(n, k, s, row)
            && next == row + (if k % 2 == 0 then -1 else 1)
            && (0 <= next < n <==> s + 1 < n)
            && (s + 1 == n ==> row == StripRow(n, k + 1, 0))
  {}

  /** The two modules of step s are new and extend the walk. */
  lemma StripStep(n: nat, k: nat, s: nat)
    requires SymbolSize(n) && k < StripCount(n) && s < n
    ensures var row, col := StripRow(n, k, s), StripCol(n, k);
            var seen := Walk(n, k) + Strip(n, k, s);
            && InRange((row, col), n) && InRange((row, col - 1), n)
            && (row, col) !in seen && (row, col - 1) !in seen + [(row, col)]
            && seen + [(row, col)] + [(row, col - 1)] == Walk(n, k) + Strip(n, k, s + 1)
            && StripRow(n, k, s + 1) == row + (if k % 2 == 0 then -1 else 1)
            && (0 <= StripRow(n, k, s + 1) < n <==> s + 1 < n)
            && (s + 1 == n ==> row == StripRow(n, k + 1, 0) && Walk(n, k + 1) == Walk(n, k) + Strip(n, k, s + 1))
  {
    hide Walk, Strip, StripCol, LeftEdge, StripRow, RowCovered, SymbolSize, StripCount;
    var row, col := StripRow(n, k, s), StripCol(n, k);
    RowStep(n, k, s);
    StripIsNew(n, k);
    WalkMember(n, k, (row, col));
    WalkMember(n, k, (row, col - 1));
    StripSnoc(n, k, s);
    WalkSnoc(n, k);
  }

  lemma StripSnoc(n: nat, k: nat, s: nat)
    requires s < n
    ensures var row, col := StripRow(n, k, s), StripCol(n, k);
            && Strip(n, k, s + 1) == Strip(n, k, s) + [(row, col), (row, col - 1)]
            && (row, col) !in Strip(n, k, s) && (row, col - 1) !in Strip(n, k, s)
  {
    hide StripCol;
    StripMembers(n, k, s);
    assert !RowCovered(n, k, s, StripRow(n, k, s));
  }

  /** mapData. */
  method MapData(m: array2<Cell>, n: nat, data: seq<Coef>, maskPattern: MaskPattern)
    requires Square(m, n) && SymbolSize(n)
    modifies m
    ensures Mapped(old(GridOf(m)), GridOf(m), Walk(n, StripCount(n)), data, maskPattern)
  {
    ghost var g := GridOf(m);
    var inc := -1;
    var row := n - 1;
    var bitIndex := 7;
    var byteIndex := 0;
    var col := n - 1;
    ghost var k := 0;
    hide Mapped, FreeCount, GridOf, Walk;
    MappedStart(g, n, data, maskPattern);
    while col > 0
      invariant k <= StripCount(n)
      invariant col == if k == 0 then n - 1 else StripCol(n, k - 1) - 2
      invariant row == StripRow(n, k, 0) && inc == if k % 2 == 0 then -1 else 1
      invariant Mapped(g, GridOf(m), Walk(n, k), data, maskPattern)
      invariant 0 <= bitIndex <= 7 && byteIndex * 8 + 7 - bitIndex == FreeCount(g, Walk(n, k))
      decreases StripCount(n) - k
    {
      if col == 6 { col := col - 1; }
      row, inc, byteIndex, bitIndex :=
        MapStrip(m, n, k, col, row, inc, data, maskPattern, byteIndex, bitIndex, g);
      k := k + 1;
      col := col - 2;
    }
  }

  lemma MappedStart(g: Grid, n: nat, data: seq<Coef>, maskPattern: MaskPattern)
    ensures Mapped(g, g, Walk(n, 0), data, maskPattern) && FreeCount(g, Walk(n, 0)) == 0
  {}

  // ----- reading the symbol back -----

  /** The bits a reader collects along a walk: the modules that are free in the
      empty symbol g, with the mask removed. */
  ghost function ReadModules(g: Grid, h: Grid, walk: seq<Pos>, maskPattern: MaskPattern): BitSeq {
    if walk == [] then []
    else
      var p := walk[|walk| - 1];
      ReadModules(g, h, walk[..|walk| - 1], maskPattern)
      + if Free(g, p) then [p in h && h[p] == Some(!MaskAt(maskPattern, p))] else []
  }

  lemma {:induction false} ReadMapped(g: Grid, h: Grid, whole: seq<Pos>, k: nat, data: seq<Coef>, maskPattern: MaskPattern)
    requires Mapped(g, h, whole, data, maskPattern) && k <= |whole|
    ensures |ReadModules(g, h, whole[..k], maskPattern)| == FreeCount(g, whole[..k])
    ensures forall i | 0 <= i < FreeCount(g, whole[..k]) ::
              ReadModules(g, h, whole[..k], maskPattern)[i] == DataBit(data, i)
  {
    hide DataBit, MaskAt;
    if k > 0 {
      ReadMapped(g, h, whole, k - 1, data, maskPattern);
      assert whole[..k][..k - 1] == whole[..k - 1];
    }
  }

  /** Walking the finished symbol and removing the mask yields the data bits in
      order, then zero bits. */
  lemma ReadBack(g: Grid, h: Grid, walk: seq<Pos>, data: seq<Coef>, maskPattern: MaskPattern)
    requires Mapped(g, h, walk, data, maskPattern)
    requires FreeCount(g, walk) >= 8 * |data|
    ensures ReadModules(g, h, walk, maskPattern)
         == BitsOf(Values(data)) + Falses(FreeCount(g, walk) - 8 * |data|)
  {
    hide Bit, FreeCount, ReadModules, Mapped;
    assert walk[..|walk|] == walk;
    ReadMapped(g, h, walk, |walk|, data, maskPattern);
    var bits := ReadModules(g, h, walk, maskPattern);
    var rest := FreeCount(g, walk) - 8 * |data|;
    forall i | 0 <= i < |bits| ensures bits[i] == (BitsOf(Values(data)) + Falses(rest))[i] {
      DataBitValue(data, i);
    }
  }

  /** Under pattern 1 a dark module means a one in odd rows and a zero in even ones;
      the k-th free module of the walk holds bit k of the data. */
  lemma EvenRowsAreFlipped(g: Grid, h: Grid, walk: seq<Pos>, data: seq<Coef>, i: nat)
    requires Mapped(g, h, walk, data, 1) && i < |walk| && Free(g, walk[i]) && walk[i].0 >= 0 && walk[i].1 >= 0
    ensures var k := FreeCount(g, walk[..i]);
            h[walk[i]] == Some((k < 8 * |data| && BitsOf(Values(data))[k]) != (walk[i].0 % 2 == 0))
  {
    hide Bit, FreeCount;
    DataBitValue(data, FreeCount(g, walk[..i]));
  }

  lemma DataBitValue(data: seq<Coef>, i: nat)
    ensures i < 8 * |data| ==> DataBit(data, i) == BitsOf(Values(data))[i]
    ensures i >= 8 * |data| ==> !DataBit(data, i)
  {
    hide Bit;
    if i < 8 * |data| { assert Values(data)[i / 8] == Value(data[i / 8]); }
  }

  /** No module is left undecided when column 6 is reserved. */
  lemma NothingLeftFree(g: Grid, h: Grid, n: nat, data: seq<Coef>, maskPattern: MaskPattern, p: Pos)
    requires SymbolSize(n) && g.Keys == Range(n) && InRange(p, n)
    requires forall r | 0 <= r < n :: (r, 6) in g && g[(r, 6)].Some?
    requires Mapped(g, h, Walk(n, StripCount(n)), data, maskPattern)
    ensures p in h && h[p].Some?
  {
    hide Walk;
    WalkVisitsOnce(n);
    if Free(g, p) {
      assert p.1 != 6;
      var i :| 0 <= i < |Walk(n, StripCount(n))| && Walk(n, StripCount(n))[i] == p;
    }
  }
}
