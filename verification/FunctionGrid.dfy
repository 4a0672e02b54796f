/** What the setup phase as a whole guarantees. */
module FunctionGrid {
  import opened Wrappers
  import opened Numbers
  import opened FunctionPatterns

  ghost function Blank(n: int): Grid {
    map p | p in Range(n) :: None
  }

  /** The three finders. */
  ghost function Finders(n: int): Grid {
    WithProbe(WithProbe(WithProbe(Blank(n), 0, 0), n - 7, 0), 0, n - 7)
  }

  /** Everything that does not depend on mask or test mode. */
  ghost function Skeleton(n: int, pos: seq<int>): Grid {
    WithTiming(WithAdjusts(Finders(n), pos, |pos|), n)
  }

  /** The grid before data is mapped. */
  ghost function Reserved(typeNumber: int, pos: seq<int>, test: bool, format: nat, version: nat): Grid {
    var n := typeNumber * 4 + 17;
    var g := WithTypeInfo(Skeleton(n, pos), n, test, format);
    if typeNumber >= 7 then WithVersion(g, n, test, version) else g
  }

  // ----- layers only ever claim modules -----

  ghost predicate Extends(g: Grid, h: Grid) {
    g.Keys == h.Keys && forall p | p in g :: g[p].Some? ==> h[p].Some?
  }

  lemma {:induction false} AdjustRowExtends(g: Grid, row: int, pos: seq<int>, k: nat)
    requires k <= |pos|
    ensures Extends(g, AdjustRow(g, row, pos, k))
  {
    if k > 0 { AdjustRowExtends(g, row, pos, k - 1); }
  }

  lemma {:induction false} AdjustsExtend(g: Grid, pos: seq<int>, k: nat)
    requires k <= |pos|
    ensures Extends(g, WithAdjusts(g, pos, k))
  {
    if k > 0 {
      AdjustsExtend(g, pos, k - 1);
      AdjustRowExtends(WithAdjusts(g, pos, k - 1), pos[k - 1], pos, |pos|);
    }
  }

  lemma FinderCells(n: int, p: Pos)
    requires n >= 21 && InRange(p, n)
    ensures p in Finders(n)
    ensures Finders(n)[p] == Over(ProbeCell(0, n - 7, p), Over(ProbeCell(n - 7, 0, p), ProbeCell(0, 0, p)))
  {}

  lemma SkeletonCells(n: int, pos: seq<int>, p: Pos)
    requires n >= 21 && InRange(p, n)
    ensures p in WithAdjusts(Finders(n), pos, |pos|) && p in Skeleton(n, pos)
    ensures Skeleton(n, pos)[p] == Over(WithAdjusts(Finders(n), pos, |pos|)[p], TimingCell(n, p))
    ensures Finders(n)[p].Some? ==> Skeleton(n, pos)[p].Some?
  {
    FinderCells(n, p);
    AdjustsExtend(Finders(n), pos, |pos|);
  }

  lemma ReservedCells(typeNumber: int, pos: seq<int>, test: bool, format: nat, version: nat, p: Pos)
    requires typeNumber >= 1 && InRange(p, typeNumber * 4 + 17)
    ensures var n := typeNumber * 4 + 17;
            && p in Reserved(typeNumber, pos, test, format, version)
            && p in Skeleton(n, pos)
            && Reserved(typeNumber, pos, test, format, version)[p]
               == Over(if typeNumber >= 7 then VersionCell(n, test, version, p) else None,
                       Over(TypeInfoCell(n, test, format, p), Skeleton(n, pos)[p]))
  {
    SkeletonCells(typeNumber * 4 + 17, pos, p);
  }

  lemma ReservedDomain(typeNumber: int, pos: seq<int>, test: bool, format: nat, version: nat)
    requires typeNumber >= 1
    ensures Reserved(typeNumber, pos, test, format, version).Keys == Range(typeNumber * 4 + 17)
  {
    var n := typeNumber * 4 + 17;
    AdjustsExtend(Finders(n), pos, |pos|);
  }

  // ----- theorems -----

  /** Column 6, which the data walk steps over, is fully claimed. */
  lemma ColumnSixIsReserved(typeNumber: int, pos: seq<int>, test: bool, format: nat, version: nat, r: int)
    requires typeNumber >= 1 && 0 <= r < typeNumber * 4 + 17
    ensures (r, 6) in Reserved(typeNumber, pos, test, format, version)
    ensures Reserved(typeNumber, pos, test, format, version)[(r, 6)].Some?
  {
    hide Reserved, Skeleton, Finders, TypeInfoCell, VersionCell;
    var n := typeNumber * 4 + 17;
    FinderCells(n, (r, 6));
    SkeletonCells(n, pos, (r, 6));
    ReservedCells(typeNumber, pos, test, format, version, (r, 6));
  }

  /** The modules of format and version information and the fixed dark module. */
  ghost predicate InformationModule(typeNumber: int, p: Pos) {
    var n := typeNumber * 4 + 17;
    || p == (n - 8, 8)
    || HorizontalBit(n, p).Some?
    || VerticalBit(n, p).Some?
    || (typeNumber >= 7 && (VersionRight(n, p).Some? || VersionRight(n, (p.1, p.0)).Some?))
  }

  /** Trial symbols used to score a mask and the final symbol claim the same
      modules and agree on all but the information modules, whatever the mask. */
  lemma TestSymbolsReserveTheSame(typeNumber: int, pos: seq<int>, format: nat, format': nat,
                                  version: nat, test: bool, test': bool, p: Pos)
    requires typeNumber >= 1 && InRange(p, typeNumber * 4 + 17)
    ensures p in Reserved(typeNumber, pos, test, format, version)
    ensures p in Reserved(typeNumber, pos, test', format', version)
    ensures var a, b := Reserved(typeNumber, pos, test, format, version)[p],
                        Reserved(typeNumber, pos, test', format', version)[p];
            a.Some? == b.Some? && (!InformationModule(typeNumber, p) ==> a == b)
  {
    hide Reserved, Skeleton, BitAt;
    ReservedCells(typeNumber, pos, test, format, version, p);
    ReservedCells(typeNumber, pos, test', format', version, p);
  }

  /** Both copies of the format word can be read back, and the fixed module. */
  lemma FormatReadable(typeNumber: int, pos: seq<int>, test: bool, format: nat, version: nat, i: nat)
    requires typeNumber >= 1 && i < 15
    ensures var n := typeNumber * 4 + 17;
            var g := Reserved(typeNumber, pos, test, format, version);
            && (FormatRow(n, i), 8) in g && (8, FormatCol(n, i)) in g && (n - 8, 8) in g
            && g[(FormatRow(n, i), 8)] == Some(!test && BitAt(format, i))
            && g[(8, FormatCol(n, i))] == Some(!test && BitAt(format, i))
            && g[(n - 8, 8)] == Some(!test)
  {
    hide Reserved, Skeleton, BitAt;
    var n := typeNumber * 4 + 17;
    ReservedCells(typeNumber, pos, test, format, version, (FormatRow(n, i), 8));
    ReservedCells(typeNumber, pos, test, format, version, (8, FormatCol(n, i)));
    ReservedCells(typeNumber, pos, test, format, version, (n - 8, 8));
  }

  /** From type 7 on, both copies of the version word can be read back. */
  lemma VersionReadable(typeNumber: int, pos: seq<int>, test: bool, format: nat, version: nat, i: nat)
    requires typeNumber >= 7 && i < 18
    ensures var n := typeNumber * 4 + 17;
            var g := Reserved(typeNumber, pos, test, format, version);
            && (i / 3, i % 3 + n - 11) in g && (i % 3 + n - 11, i / 3) in g
            && g[(i / 3, i % 3 + n - 11)] == Some(!test && BitAt(version, i))
            && g[(i % 3 + n - 11, i / 3)] == Some(!test && BitAt(version, i))
  {
    hide Reserved, Skeleton, BitAt, TypeInfoCell;
    var n := typeNumber * 4 + 17;
    ReservedCells(typeNumber, pos, test, format, version, (i / 3, i % 3 + n - 11));
    ReservedCells(typeNumber, pos, test, format, version, (i % 3 + n - 11, i / 3));
  }

  // ----- finders survive -----

  /** The corners that finders and their separators occupy. */
  ghost predicate FinderZone(n: int, p: Pos) {
    || (0 <= p.0 < 8 && 0 <= p.1 < 8)
    || (n - 8 <= p.0 < n && 0 <= p.1 < 8)
    || (0 <= p.0 < 8 && n - 8 <= p.1 < n)
  }

  /** Centre coordinates of the position table: on the timing lines, level with
      a finder, or clear of the finder zones. */
  ghost predicate TableCentres(n: int, pos: seq<int>) {
    forall k | 0 <= k < |pos| :: pos[k] == 6 || pos[k] == n - 7 || 10 <= pos[k] < n - 10
  }

  ghost predicate SameInZone(n: int, g: Grid, h: Grid) {
    g.Keys == h.Keys == Range(n) && forall p | p in g && FinderZone(n, p) :: g[p].Some? && h[p] == g[p]
  }

  lemma AdjustSparesFinders(n: int, g: Grid, h: Grid, row: int, col: int)
    requires n >= 21 && SameInZone(n, g, h)
    requires row == 6 || row == n - 7 || 10 <= row < n - 10
    requires col == 6 || col == n - 7 || 10 <= col < n - 10
    ensures SameInZone(n, g, WithAdjust(h, row, col))
  {
    if FinderZone(n, (row, col)) {
      assert (row, col) in g;
    }
  }

  lemma {:induction false} AdjustRowSparesFinders(n: int, g: Grid, h: Grid, row: int, pos: seq<int>, k: nat)
    requires n >= 21 && SameInZone(n, g, h) && TableCentres(n, pos) && k <= |pos|
    requires row == 6 || row == n - 7 || 10 <= row < n - 10
    ensures SameInZone(n, g, AdjustRow(h, row, pos, k))
  {
    if k > 0 {
      AdjustRowSparesFinders(n, g, h, row, pos, k - 1);
      AdjustSparesFinders(n, g, AdjustRow(h, row, pos, k - 1), row, pos[k - 1]);
    }
  }

  lemma {:induction false} AdjustsSpareFinders(n: int, g: Grid, pos: seq<int>, k: nat)
    requires n >= 21 && SameInZone(n, g, g) && TableCentres(n, pos) && k <= |pos|
    ensures SameInZone(n, g, WithAdjusts(g, pos, k))
  {
    if k > 0 {
      AdjustsSpareFinders(n, g, pos, k - 1);
      AdjustRowSparesFinders(n, g, WithAdjusts(g, pos, k - 1), pos[k - 1], pos, |pos|);
    }
  }

  lemma OthersSpareFinders(n: int, test: bool, format: nat, version: nat, p: Pos)
    requires n >= 21 && FinderZone(n, p)
    ensures TypeInfoCell(n, test, format, p) == None && VersionCell(n, test, version, p) == None
    ensures TimingCell(n, p) == None
  {}

  lemma FinderInZone(n: int, p: Pos)
    requires n >= 21 && FinderZone(n, p) && InRange(p, n)
    ensures p in Finders(n)
    ensures Finders(n)[p] == (if p.0 >= 8 then ProbeCell(n - 7, 0, p) else if p.1 >= 8 then ProbeCell(0, n - 7, p)
                              else ProbeCell(0, 0, p))
    ensures Finders(n)[p].Some?
  {
    hide ProbeDark;
    FinderCells(n, p);
    hide Finders, WithProbe;
  }

  lemma FinderZoneSurvives(typeNumber: int, pos: seq<int>, test: bool, format: nat, version: nat, p: Pos)
    requires typeNumber >= 1 && InRange(p, typeNumber * 4 + 17) && FinderZone(typeNumber * 4 + 17, p)
    requires TableCentres(typeNumber * 4 + 17, pos)
    ensures var n := typeNumber * 4 + 17;
            var g := Reserved(typeNumber, pos, test, format, version);
            && p in g
            && g[p] == (if p.0 >= 8 then ProbeCell(n - 7, 0, p) else if p.1 >= 8 then ProbeCell(0, n - 7, p)
                        else ProbeCell(0, 0, p))
  {
    hide ProbeCell, Finders, Skeleton, Reserved, TypeInfoCell, VersionCell, TimingCell, WithAdjusts;
    var n := typeNumber * 4 + 17;
    var f := Finders(n);
    FindersDomain(n);
    forall q | q in f && FinderZone(n, q) ensures f[q].Some? { FinderInZone(n, q); }
    AdjustsSpareFinders(n, f, pos, |pos|);
    FinderInZone(n, p);
    SkeletonCells(n, pos, p);
    OthersSpareFinders(n, test, format, version, p);
    ReservedCells(typeNumber, pos, test, format, version, p);
  }

  /** No later pattern touches a finder or its separator: around its centre each
      is dark, but for the light rings 2 and 4. */
  lemma FindersSurvive(typeNumber: int, pos: seq<int>, test: bool, format: nat, version: nat, c: Pos, p: Pos)
    requires typeNumber >= 1 && TableCentres(typeNumber * 4 + 17, pos)
    requires var n := typeNumber * 4 + 17;
             c in {(3, 3), (n - 4, 3), (3, n - 4)} && InRange(p, n) && Ring(p, c) <= 4
    ensures p in Reserved(typeNumber, pos, test, format, version)
    ensures Reserved(typeNumber, pos, test, format, version)[p] == Some(Ring(p, c) != 2 && Ring(p, c) != 4)
  {
    hide ProbeCell, Reserved, TableCentres;
    FinderZoneSurvives(typeNumber, pos, test, format, version, p);
    FinderRings(c.0 - 3, c.1 - 3, p);
  }

  lemma FindersDomain(n: int)
    ensures Finders(n).Keys == Range(n)
  {}
}
