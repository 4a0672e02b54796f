/** How many modules the setup phase leaves for data. */
module ModuleCount {
  import opened Wrappers
  import opened FunctionPatterns
  import opened FunctionGrid
  import opened DataPlacement
  import opened PatternPositions
  import opened SymbolAppearance

  // ----- sizes of areas -----

  ghost function Cells(top: int, bottom: int, left: int, right: int): set<Pos> {
    set r, c | top <= r < bottom && left <= c < right :: (r, c)
  }

  lemma {:induction false} RowSize(row: int, left: int, width: nat)
    ensures |Cells(row, row + 1, left, left + width)| == width
  {
    hide Cells;
    if width == 0 {
      NoCells(row, row + 1, left, left);
    } else {
      RowSize(row, left, width - 1);
      OneMore(row, left, left + width - 1);
    }
  }

  lemma NoCells(top: int, bottom: int, left: int, right: int)
    requires top >= bottom || left >= right
    ensures |Cells(top, bottom, left, right)| == 0
  {
    assert Cells(top, bottom, left, right) == {};
  }

  lemma OneMore(row: int, left: int, right: int)
    requires left <= right
    ensures Cells(row, row + 1, left, right + 1) == Cells(row, row + 1, left, right) + {(row, right)}
    ensures (row, right) !in Cells(row, row + 1, left, right)
  {}

  lemma {:induction false} AreaSize(top: int, bottom: int, left: int, right: int)
    requires top <= bottom && left <= right
    ensures |Cells(top, bottom, left, right)| == (bottom - top) * (right - left)
    decreases bottom - top
  {
    hide Cells;
    if top == bottom {
      NoCells(top, top, left, right);
    } else {
      AreaSize(top, bottom - 1, left, right);
      RowSize(bottom - 1, left, right - left);
      NextRow(top, bottom - 1, left, right);
      assert (bottom - top) * (right - left) == (bottom - 1 - top) * (right - left) + (right - left);
    }
  }

  lemma NextRow(top: int, bottom: int, left: int, right: int)
    requires top <= bottom && left <= right
    ensures |Cells(top, bottom + 1, left, right)|
         == |Cells(top, bottom, left, right)| + |Cells(bottom, bottom + 1, left, right)|
  {
    assert Cells(top, bottom + 1, left, right) == Cells(top, bottom, left, right) + Cells(bottom, bottom + 1, left, right);
    Disjoint(Cells(top, bottom, left, right), Cells(bottom, bottom + 1, left, right));
  }

  lemma Disjoint(a: set<Pos>, b: set<Pos>)
    requires a !! b
    ensures |a + b| == |a| + |b|
  {}

  lemma Beside(top: int, bottom: int, left: int, right: int, top': int, bottom': int, left': int, right': int)
    requires bottom <= top' || bottom' <= top || right <= left' || right' <= left
    ensures Cells(top, bottom, left, right) !! Cells(top', bottom', left', right')
  {}

  ghost function FinderArea(n: int): set<Pos> {
    Cells(0, 8, 0, 8) + Cells(n - 8, n, 0, 8) + Cells(0, 8, n - 8, n)
  }

  ghost function TimingArea(n: int): set<Pos> {
    Cells(8, n - 8, 6, 7) + Cells(6, 7, 8, n - 8)
  }

  /** The format modules beside the timing lines. */
  ghost function FormatCells(n: int): set<Pos> {
    Cells(8, 9, 0, 6) + Cells(8, 9, 7, 9) + Cells(8, 9, n - 8, n)
    + (Cells(0, 6, 8, 9) + Cells(7, 8, 8, 9) + Cells(n - 8, n, 8, 9))
  }

  ghost function VersionCells(n: int): set<Pos> {
    Cells(0, 6, n - 11, n - 8) + Cells(n - 11, n - 8, 0, 6)
  }

  lemma FinderAreaSize(n: int)
    requires n >= 21
    ensures |FinderArea(n)| == 192
  {
    hide Cells;
    AreaSize(0, 8, 0, 8);
    AreaSize(n - 8, n, 0, 8);
    AreaSize(0, 8, n - 8, n);
    Beside(0, 8, 0, 8, n - 8, n, 0, 8);
    Beside(0, 8, 0, 8, 0, 8, n - 8, n);
    Beside(n - 8, n, 0, 8, 0, 8, n - 8, n);
    Three(Cells(0, 8, 0, 8), Cells(n - 8, n, 0, 8), Cells(0, 8, n - 8, n));
  }

  lemma Three(a: set<Pos>, b: set<Pos>, c: set<Pos>)
    requires a !! b && a !! c && b !! c
    ensures |a + b + c| == |a| + |b| + |c|
  {
    Disjoint(a, b);
    Disjoint(a + b, c);
  }

  lemma TimingAreaSize(n: int)
    requires n >= 21
    ensures |TimingArea(n)| == 2 * n - 32
  {
    hide Cells;
    AreaSize(8, n - 8, 6, 7);
    AreaSize(6, 7, 8, n - 8);
    Beside(8, n - 8, 6, 7, 6, 7, 8, n - 8);
    Disjoint(Cells(8, n - 8, 6, 7), Cells(6, 7, 8, n - 8));
  }

  lemma FormatRowSize(n: int)
    requires n >= 21
    ensures |Cells(8, 9, 0, 6) + Cells(8, 9, 7, 9) + Cells(8, 9, n - 8, n)| == 16
  {
    hide Cells;
    AreaSize(8, 9, 0, 6);
    AreaSize(8, 9, 7, 9);
    AreaSize(8, 9, n - 8, n);
    Beside(8, 9, 0, 6, 8, 9, 7, 9);
    Beside(8, 9, 0, 6, 8, 9, n - 8, n);
    Beside(8, 9, 7, 9, 8, 9, n - 8, n);
    Three(Cells(8, 9, 0, 6), Cells(8, 9, 7, 9), Cells(8, 9, n - 8, n));
  }

  lemma FormatColumnSize(n: int)
    requires n >= 21
    ensures |Cells(0, 6, 8, 9) + Cells(7, 8, 8, 9) + Cells(n - 8, n, 8, 9)| == 15
  {
    hide Cells;
    AreaSize(0, 6, 8, 9);
    AreaSize(7, 8, 8, 9);
    AreaSize(n - 8, n, 8, 9);
    Beside(0, 6, 8, 9, 7, 8, 8, 9);
    Beside(0, 6, 8, 9, n - 8, n, 8, 9);
    Beside(7, 8, 8, 9, n - 8, n, 8, 9);
    Three(Cells(0, 6, 8, 9), Cells(7, 8, 8, 9), Cells(n - 8, n, 8, 9));
  }

  lemma FormatCellsSize(n: int)
    requires n >= 21
    ensures |FormatCells(n)| == 31
  {
    hide Cells;
    FormatRowSize(n);
    FormatColumnSize(n);
    var row := Cells(8, 9, 0, 6) + Cells(8, 9, 7, 9) + Cells(8, 9, n - 8, n);
    var column := Cells(0, 6, 8, 9) + Cells(7, 8, 8, 9) + Cells(n - 8, n, 8, 9);
    InRow(0, 6);
    InRow(7, 9);
    InRow(n - 8, n);
    OutsideRow(0, 6);
    OutsideRow(7, 8);
    OutsideRow(n - 8, n);
    Disjoint(row, column);
  }

  lemma InRow(left: int, right: int)
    ensures forall p | p in Cells(8, 9, left, right) :: p.0 == 8
  {}

  lemma OutsideRow(top: int, bottom: int)
    requires bottom <= 8 || top > 8
    ensures forall p | p in Cells(top, bottom, 8, 9) :: p.0 != 8
  {}

  lemma VersionCellsSize(n: int)
    requires n >= 21
    ensures |VersionCells(n)| == 36
  {
    hide Cells;
    AreaSize(0, 6, n - 11, n - 8);
    AreaSize(n - 11, n - 8, 0, 6);
    Beside(0, 6, n - 11, n - 8, n - 11, n - 8, 0, 6);
    Disjoint(Cells(0, 6, n - 11, n - 8), Cells(n - 11, n - 8, 0, 6));
  }

  // ----- alignment patterns off the timing lines -----

  predicate OnTiming(p: Pos) {
    p.0 == 6 || p.1 == 6
  }

  /** What the pattern around c claims besides the timing lines. */
  ghost function Around(c: Pos): (s: set<Pos>)
    ensures forall p :: p in s <==> Ring(p, c) <= 2 && !OnTiming(p)
  {
    set p | p in Cells(c.0 - 2, c.0 + 3, c.1 - 2, c.1 + 3) && !OnTiming(p)
  }

  function SquareSize(n: int, c: Pos): nat {
    if c in {(6, 6), (6, n - 7), (n - 7, 6)} then 0 else if OnTiming(c) then 20 else 25
  }

  lemma AroundOnRow(col: int)
    requires col >= 9
    ensures |Around((6, col))| == 20
  {
    hide Ring;
    AreaSize(4, 6, col - 2, col + 3);
    AreaSize(7, 9, col - 2, col + 3);
    Beside(4, 6, col - 2, col + 3, 7, 9, col - 2, col + 3);
    Disjoint(Cells(4, 6, col - 2, col + 3), Cells(7, 9, col - 2, col + 3));
    SameCells(Around((6, col)), Cells(4, 6, col - 2, col + 3) + Cells(7, 9, col - 2, col + 3));
  }

  lemma AroundOnColumn(row: int)
    requires row >= 9
    ensures |Around((row, 6))| == 20
  {
    hide Ring;
    AreaSize(row - 2, row + 3, 4, 6);
    AreaSize(row - 2, row + 3, 7, 9);
    Beside(row - 2, row + 3, 4, 6, row - 2, row + 3, 7, 9);
    Disjoint(Cells(row - 2, row + 3, 4, 6), Cells(row - 2, row + 3, 7, 9));
    SameCells(Around((row, 6)), Cells(row - 2, row + 3, 4, 6) + Cells(row - 2, row + 3, 7, 9));
  }

  lemma AroundElsewhere(c: Pos)
    requires c.0 >= 9 && c.1 >= 9
    ensures |Around(c)| == 25
  {
    hide Ring;
    AreaSize(c.0 - 2, c.0 + 3, c.1 - 2, c.1 + 3);
    SameCells(Around(c), Cells(c.0 - 2, c.0 + 3, c.1 - 2, c.1 + 3));
  }

  lemma AroundSize(n: int, c: Pos)
    requires n >= 21 && GoodCoordinate(n, c.0) && GoodCoordinate(n, c.1) && !FinderZone(n, c)
    ensures |Around(c)| == if OnTiming(c) then 20 else 25
  {
    hide Around;
    if c.0 == 6 {
      AroundOnRow(c.1);
    } else if c.1 == 6 {
      AroundOnColumn(c.0);
    } else {
      AroundElsewhere(c);
    }
  }

  lemma SameCells(a: set<Pos>, b: set<Pos>)
    requires forall p: Pos :: p in a <==> p in b
    ensures a == b
  {}

  /** What the patterns around some centres claim besides the timing lines. */
  ghost function AroundAll(centres: set<Pos>): (s: set<Pos>)
    ensures forall p :: p in s <==> exists c :: c in centres && p in Around(c)
  {
    set c, p | c in centres && p in Around(c) :: p
  }

  lemma AroundApart(c: Pos, c': Pos)
    requires Ring(c, c') >= 5
    ensures Around(c) !! Around(c')
  {
    hide Ring, Around;
    forall p | p in Around(c) ensures p !in Around(c') {
      FarFromEachOther(c, c', p);
    }
  }

  lemma ZoneCentres(n: int, c: Pos)
    requires n >= 21 && GoodCoordinate(n, c.0) && GoodCoordinate(n, c.1)
    ensures FinderZone(n, c) <==> c in {(6, 6), (6, n - 7), (n - 7, 6)}
  {}

  ghost function SizeDrawn(n: int, pos: seq<int>, k: nat, j: nat): nat {
    |AroundAll(Drawn(n, pos, k, j))|
  }

  lemma AroundStep(n: int, pos: seq<int>, k: nat, j: nat)
    requires n >= 21 && GoodCentres(n, pos) && k < |pos| && j < |pos|
    ensures SizeDrawn(n, pos, k, j + 1) == SizeDrawn(n, pos, k, j) + SquareSize(n, (pos[k], pos[j]))
  {
    hide Ring, Around, AroundAll, Drawn, FinderZone;
    var c := (pos[k], pos[j]);
    DrawnStep(n, pos, k, j);
    ZoneCentres(n, c);
    if !FinderZone(n, c) {
      forall c' | c' in Drawn(n, pos, k, j) ensures Around(c) !! Around(c') { AroundApart(c, c'); }
      var before := AroundAll(Drawn(n, pos, k, j));
      forall p | p in before ensures p !in Around(c) {}
      SameCells(AroundAll(Drawn(n, pos, k, j + 1)), before + Around(c));
      Disjoint(before, Around(c));
      AroundSize(n, c);
    }
  }

  function RowCost(n: int, pos: seq<int>, k: nat, j: nat): nat
    requires k < |pos| && j <= |pos|
  {
    if j == 0 then 0 else RowCost(n, pos, k, j - 1) + SquareSize(n, (pos[k], pos[j - 1]))
  }

  function Cost(n: int, pos: seq<int>, k: nat): nat
    requires k <= |pos|
  {
    if k == 0 then 0 else Cost(n, pos, k - 1) + RowCost(n, pos, k - 1, |pos|)
  }

  lemma {:induction false} RowSizeIs(n: int, pos: seq<int>, k: nat, j: nat)
    requires n >= 21 && GoodCentres(n, pos) && k < |pos| && j <= |pos|
    ensures SizeDrawn(n, pos, k, j) == SizeDrawn(n, pos, k, 0) + RowCost(n, pos, k, j)
  {
    hide SizeDrawn, SquareSize, GoodCentres;
    if j > 0 {
      RowSizeIs(n, pos, k, j - 1);
      AroundStep(n, pos, k, j - 1);
    }
  }

  lemma RowDone(n: int, pos: seq<int>, k: nat)
    ensures SizeDrawn(n, pos, k, |pos|) == SizeDrawn(n, pos, k + 1, 0)
  {
    hide Drawn, AroundAll;
    DrawnRow(n, pos, k);
  }

  lemma NothingDrawn(n: int, pos: seq<int>)
    ensures SizeDrawn(n, pos, 0, 0) == 0
  {
    hide AroundAll, Around, FinderZone;
    assert Drawn(n, pos, 0, 0) == {};
    SameCells(AroundAll({}), {});
  }

  lemma {:induction false} AllSizeIs(n: int, pos: seq<int>, k: nat)
    requires n >= 21 && GoodCentres(n, pos) && k <= |pos|
    ensures SizeDrawn(n, pos, k, 0) == Cost(n, pos, k)
  {
    hide GoodCentres, RowCost, SizeDrawn;
    if k == 0 {
      NothingDrawn(n, pos);
    } else {
      AllSizeIs(n, pos, k - 1);
      RowSizeIs(n, pos, k - 1, |pos|);
      RowDone(n, pos, k - 1);
    }
  }

  // ----- the closed form -----

  /** From 6 to n - 7, all others between. */
  ghost predicate Spanning(n: int, pos: seq<int>) {
    GoodCentres(n, pos) && |pos| >= 2 && pos[0] == 6 && pos[|pos| - 1] == n - 7
  }

  lemma SquareSizes(n: int, pos: seq<int>, a: nat, b: nat)
    requires n >= 25 && Spanning(n, pos) && a < |pos| && b < |pos|
    ensures |pos| >= 2
    ensures SquareSize(n, (pos[a], pos[b]))
         == if a > 0 && b > 0 then 25 else if a + b == 0 || a + b == |pos| - 1 then 0 else 20
  {
    assert a > 0 ==> pos[0] + 5 <= pos[a];
    assert b > 0 ==> pos[0] + 5 <= pos[b];
    assert a < |pos| - 1 ==> pos[a] + 5 <= pos[|pos| - 1];
    assert b < |pos| - 1 ==> pos[b] + 5 <= pos[|pos| - 1];
  }

  lemma {:induction false} RowCostIs(n: int, pos: seq<int>, k: nat, j: nat)
    requires n >= 25 && Spanning(n, pos) && k < |pos| && 1 <= j <= |pos|
    ensures RowCost(n, pos, k, j)
         == if k == 0 then 20 * (if j == |pos| then j - 2 else j - 1)
            else 25 * (j - 1) + if k == |pos| - 1 then 0 else 20
  {
    hide SquareSize, Spanning;
    SquareSizes(n, pos, k, j - 1);
    if j > 1 { RowCostIs(n, pos, k, j - 1); }
  }

  lemma {:induction false} CostIs(n: int, pos: seq<int>, k: nat)
    requires n >= 25 && Spanning(n, pos) && 1 <= k < |pos|
    ensures Cost(n, pos, k) == 20 * (|pos| - 2) + (k - 1) * (25 * |pos| - 5)
  {
    hide RowCost, Spanning;
    RowCostIs(n, pos, k - 1, |pos|);
    if k > 1 {
      CostIs(n, pos, k - 1);
      assert (k - 1) * (25 * |pos| - 5) == (k - 2) * (25 * |pos| - 5) + (25 * |pos| - 5);
    }
  }

  /** All patterns of m by m centres. */
  lemma WholeCost(n: int, pos: seq<int>)
    requires n >= 25 && Spanning(n, pos)
    ensures var m := |pos|; Cost(n, pos, m) == 25 * m * m - 10 * m - 55
  {
    hide RowCost, GoodCentres;
    var m := |pos|;
    CostIs(n, pos, m - 1);
    RowCostIs(n, pos, m - 1, m);
    assert (m - 2) * (25 * m - 5) == 25 * m * m - 55 * m + 10;
  }

  // ----- all areas together -----

  lemma AreasAre(n: int, p: Pos)
    requires n >= 21 && InRange(p, n)
    ensures p in FinderArea(n) <==> FinderZone(n, p)
    ensures p in TimingArea(n) <==> OnTiming(p) && !FinderZone(n, p)
    ensures p in FormatCells(n) <==> FormatArea(n, p) && !OnTiming(p)
    ensures p in VersionCells(n) <==> VersionArea(n, p)
  {}

  lemma AreasInside(n: int)
    requires n >= 21
    ensures FinderArea(n) <= Cells(0, n, 0, n) && TimingArea(n) <= Cells(0, n, 0, n)
    ensures FormatCells(n) <= Cells(0, n, 0, n) && VersionCells(n) <= Cells(0, n, 0, n)
  {}

  lemma AreasDisjoint(n: int)
    requires n >= 21
    ensures FinderArea(n) !! TimingArea(n) && FinderArea(n) !! FormatCells(n) && TimingArea(n) !! FormatCells(n)
    ensures n >= 45 ==> FinderArea(n) !! VersionCells(n) && TimingArea(n) !! VersionCells(n)
                        && FormatCells(n) !! VersionCells(n)
  {
    hide FinderArea, TimingArea, FormatCells, VersionCells;
    AreasInside(n);
    forall p | InRange(p, n)
      ensures p in FinderArea(n) <==> FinderZone(n, p)
      ensures p in TimingArea(n) <==> OnTiming(p) && !FinderZone(n, p)
      ensures p in FormatCells(n) <==> FormatArea(n, p) && !OnTiming(p)
      ensures p in VersionCells(n) <==> VersionArea(n, p)
    {
      AreasAre(n, p);
    }
  }

  /** An alignment pattern away from the finders keeps clear of all other areas. */
  lemma AroundIsElsewhere(n: int, c: Pos, p: Pos)
    requires n >= 21 && GoodCoordinate(n, c.0) && GoodCoordinate(n, c.1) && !FinderZone(n, c) && p in Around(c)
    ensures InRange(p, n) && !FinderZone(n, p) && !OnTiming(p) && !FormatArea(n, p) && !VersionArea(n, p)
  {
    hide Around;
  }

  ghost function AlignmentArea(n: int, pos: seq<int>): set<Pos> {
    AroundAll(Centres(n, pos))
  }

  lemma AlignmentIsElsewhere(n: int, pos: seq<int>, p: Pos)
    requires n >= 21 && GoodCentres(n, pos) && p in AlignmentArea(n, pos)
    ensures InRange(p, n)
    ensures p !in FinderArea(n) && p !in TimingArea(n) && p !in FormatCells(n) && p !in VersionCells(n)
  {
    hide Around, FinderZone, FormatArea, VersionArea, OnTiming, FinderArea, TimingArea, FormatCells, VersionCells,
         GoodCentres, Drawn;
    var c :| c in Centres(n, pos) && p in Around(c);
    CentreCoordinates(n, pos, c);
    AroundIsElsewhere(n, c, p);
    AreasAre(n, p);
  }

  /** Everything that the setup phase claims. */
  ghost function ClaimedArea(typeNumber: int, pos: seq<int>): set<Pos> {
    var n := typeNumber * 4 + 17;
    FinderArea(n) + TimingArea(n) + FormatCells(n) + (if typeNumber >= 7 then VersionCells(n) else {})
    + AlignmentArea(n, pos)
  }

  lemma ClaimedSize(typeNumber: int, pos: seq<int>)
    requires typeNumber >= 1 && GoodCentres(typeNumber * 4 + 17, pos)
    ensures |ClaimedArea(typeNumber, pos)|
         == 225 + 8 * typeNumber + (if typeNumber >= 7 then 36 else 0) + Cost(typeNumber * 4 + 17, pos, |pos|)
  {
    hide FinderArea, TimingArea, FormatCells, VersionCells, AlignmentArea, GoodCentres, Cost;
    var n := typeNumber * 4 + 17;
    FinderAreaSize(n);
    TimingAreaSize(n);
    FormatCellsSize(n);
    VersionCellsSize(n);
    AlignmentAreaSize(n, pos);
    AreasDisjoint(n);
    var version := if typeNumber >= 7 then VersionCells(n) else {};
    forall p | p in AlignmentArea(n, pos)
      ensures p !in FinderArea(n) && p !in TimingArea(n) && p !in FormatCells(n) && p !in version
    {
      AlignmentIsElsewhere(n, pos, p);
    }
    Three(FinderArea(n), TimingArea(n), FormatCells(n));
    Disjoint(FinderArea(n) + TimingArea(n) + FormatCells(n), version);
    Disjoint(FinderArea(n) + TimingArea(n) + FormatCells(n) + version, AlignmentArea(n, pos));
  }

  lemma AlignmentAreaSize(n: int, pos: seq<int>)
    requires n >= 21 && GoodCentres(n, pos)
    ensures |AlignmentArea(n, pos)| == Cost(n, pos, |pos|)
  {
    hide GoodCentres, Cost, Drawn, AroundAll;
    AllSizeIs(n, pos, |pos|);
  }

  // ----- what is left -----

  ghost function FreeCells(g: Grid): set<Pos> {
    set p | p in g && g[p] == None
  }

  lemma FreeOrClaimed(typeNumber: int, pos: seq<int>, test: bool, format: nat, version: nat, p: Pos)
    requires typeNumber >= 1 && GoodCentres(typeNumber * 4 + 17, pos) && InRange(p, typeNumber * 4 + 17)
    ensures p in Reserved(typeNumber, pos, test, format, version)
    ensures Reserved(typeNumber, pos, test, format, version)[p] == None <==> p !in ClaimedArea(typeNumber, pos)
  {
    hide Reserved, FinderArea, TimingArea, FormatCells, VersionCells, GoodCentres, Around, Ring, Drawn,
         FinderZone, FormatArea, VersionArea, InFinder;
    var n := typeNumber * 4 + 17;
    FreeModules(typeNumber, pos, test, format, version, p);
    ZoneIsRings(n, p);
    AreasAre(n, p);
    hide FormatCells;
    if p in AlignmentArea(n, pos) {
      var c :| c in Centres(n, pos) && p in Around(c);
    }
  }

  lemma ClaimedInside(typeNumber: int, pos: seq<int>, p: Pos)
    requires typeNumber >= 1 && GoodCentres(typeNumber * 4 + 17, pos) && p in ClaimedArea(typeNumber, pos)
    ensures InRange(p, typeNumber * 4 + 17)
  {
    hide FinderArea, TimingArea, FormatCells, VersionCells, AlignmentArea, GoodCentres;
    var n := typeNumber * 4 + 17;
    AreasInside(n);
    if p in AlignmentArea(n, pos) { AlignmentIsElsewhere(n, pos, p); }
  }

  lemma FreeCellsSize(typeNumber: int, pos: seq<int>, test: bool, format: nat, version: nat)
    requires typeNumber >= 1 && GoodCentres(typeNumber * 4 + 17, pos)
    ensures var n := typeNumber * 4 + 17;
            |FreeCells(Reserved(typeNumber, pos, test, format, version))| == n * n - |ClaimedArea(typeNumber, pos)|
  {
    hide Reserved, ClaimedArea, GoodCentres;
    var n := typeNumber * 4 + 17;
    var g := Reserved(typeNumber, pos, test, format, version);
    ReservedDomain(typeNumber, pos, test, format, version);
    forall p | InRange(p, n) ensures p in g && (p in FreeCells(g) <==> p !in ClaimedArea(typeNumber, pos)) {
      FreeOrClaimed(typeNumber, pos, test, format, version, p);
    }
    forall p | p in ClaimedArea(typeNumber, pos) ensures InRange(p, n) { ClaimedInside(typeNumber, pos, p); }
    SameCells(Cells(0, n, 0, n), FreeCells(g) + ClaimedArea(typeNumber, pos));
    Disjoint(FreeCells(g), ClaimedArea(typeNumber, pos));
    AreaSize(0, n, 0, n);
  }

  ghost function FreeOn(g: Grid, walk: seq<Pos>): set<Pos> {
    set p | p in walk && Free(g, p)
  }

  /** Along a walk without repetition, free modules are counted once each. */
  lemma {:induction false} FreeCountIsSize(g: Grid, walk: seq<Pos>)
    requires Distinct(walk)
    ensures FreeCount(g, walk) == |FreeOn(g, walk)|
  {
    if walk == [] {
      SameCells(FreeOn(g, walk), {});
    } else {
      var front, last := walk[..|walk| - 1], walk[|walk| - 1];
      FreeCountIsSize(g, front);
      assert walk == front + [last];
      LastIsNew(front, last);
      hide Free;
      var before := FreeOn(g, front);
      SameCells(FreeOn(g, walk), if Free(g, last) then before + {last} else before);
    }
  }

  lemma LastIsNew(front: seq<Pos>, last: Pos)
    requires Distinct(front + [last])
    ensures last !in front && Distinct(front)
  {
    var walk := front + [last];
    forall i | 0 <= i < |front| ensures front[i] != last { assert walk[i] != walk[|front|]; }
    forall i, j | 0 <= i < j < |front| ensures front[i] != front[j] { assert walk[i] != walk[j]; }
  }

  lemma WalkCountsFree(typeNumber: int, pos: seq<int>, test: bool, format: nat, version: nat)
    requires typeNumber >= 1
    ensures var n, g := typeNumber * 4 + 17, Reserved(typeNumber, pos, test, format, version);
            FreeCount(g, Walk(n, StripCount(n))) == |FreeCells(g)|
  {
    hide Reserved, Walk, StripCount, SymbolSize, FreeCount, Distinct;
    var n, g := typeNumber * 4 + 17, Reserved(typeNumber, pos, test, format, version);
    OddSide(typeNumber);
    WalkVisitsOnce(n);
    ReservedDomain(typeNumber, pos, test, format, version);
    var walk := Walk(n, StripCount(n));
    FreeCountIsSize(g, walk);
    forall r | 0 <= r < n ensures (r, 6) in g && g[(r, 6)].Some? {
      ColumnSixIsReserved(typeNumber, pos, test, format, version, r);
    }
    SameCells(FreeOn(g, walk), FreeCells(g));
  }

  /** The free modules of type t with m alignment coordinates:
      16 t^2 + 128 t + 64, less 25 m^2 - 10 m - 55 from type 2 on and less 36 from
      type 7 on. */
  lemma FreeModuleCount(typeNumber: int, pos: seq<int>, test: bool, format: nat, version: nat)
    requires typeNumber >= 1
    requires if typeNumber == 1 then pos == [] else Spanning(typeNumber * 4 + 17, pos)
    ensures var n, m := typeNumber * 4 + 17, |pos|;
            FreeCount(Reserved(typeNumber, pos, test, format, version), Walk(n, StripCount(n)))
            == 16 * typeNumber * typeNumber + 128 * typeNumber + 64
               - (if typeNumber == 1 then 0 else 25 * m * m - 10 * m - 55) - (if typeNumber >= 7 then 36 else 0)
  {
    hide Reserved, FreeCount, Walk, StripCount, ClaimedArea, FreeCells, GoodCentres;
    var n := typeNumber * 4 + 17;
    assert GoodCentres(n, pos) by { if typeNumber == 1 { NoCentres(n); } }
    WalkCountsFree(typeNumber, pos, test, format, version);
    FreeCellsSize(typeNumber, pos, test, format, version);
    ClaimedSize(typeNumber, pos);
    if typeNumber > 1 { WholeCost(n, pos); }
    assert n * n == 16 * typeNumber * typeNumber + 136 * typeNumber + 289;
  }

  lemma NoCentres(n: int)
    ensures GoodCentres(n, [])
  {}
}
