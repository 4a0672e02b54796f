/** What a finished symbol looks like, module by module: finders, alignment and
    timing patterns in rings and stripes, and which modules are left for data. */
module SymbolAppearance {
  import opened Wrappers
  import opened Numbers
  import opened QRPolynomial
  import opened FunctionPatterns
  import opened FunctionGrid
  import opened PatternPositions
  import opened DataPlacement
  import opened QRCode
  import opened SymbolRoundTrip
  import Bch
  import BchDistance

  // ----- alignment patterns are drawn apart -----

  /** The centres that the first k rows and j more patterns draw: all but the
      three that coincide with a finder. */
  ghost function Drawn(n: int, pos: seq<int>, k: nat, j: nat): set<Pos> {
    set a: nat, b: nat | a < |pos| && b < |pos| && (a < k || (a == k && b < j)) && !FinderZone(n, (pos[a], pos[b]))
      :: (pos[a], pos[b])
  }

  ghost function Centres(n: int, pos: seq<int>): set<Pos> {
    Drawn(n, pos, |pos|, 0)
  }

  /** Each module shows the finder it belongs to, or the ring of an alignment
      pattern, or is still free. */
  ghost predicate CellIsRight(n: int, g: Grid, centres: set<Pos>, p: Pos)
    requires p in g
  {
    if FinderZone(n, p) then g[p].Some?
    else if exists c :: c in centres && Ring(p, c) <= 2 then
      forall c | c in centres && Ring(p, c) <= 2 :: g[p] == Some(Ring(p, c) != 1)
    else g[p] == None
  }

  ghost predicate GridIsRight(n: int, g: Grid, centres: set<Pos>) {
    g.Keys == Range(n) && forall p | p in g :: CellIsRight(n, g, centres, p)
  }

  ghost predicate GoodCoordinate(n: int, x: int) {
    x == 6 || x == n - 7 || 14 <= x < n - 14
  }

  /** A centre outside the finders is far from them. */
  lemma FarFromFinders(n: int, c: Pos, p: Pos)
    requires n >= 21 && GoodCoordinate(n, c.0) && GoodCoordinate(n, c.1) && !FinderZone(n, c) && InRange(p, n)
    requires Ring(p, c) <= 2
    ensures !FinderZone(n, p)
  {}

  lemma FarFromEachOther(c: Pos, c': Pos, p: Pos)
    requires Ring(c, c') >= 5 && Ring(p, c) <= 2
    ensures Ring(p, c') > 2
  {}

  lemma CellAfterAdjust(n: int, g: Grid, c: Pos, p: Pos)
    requires InRange(c, n) && c in g && p in g
    ensures WithAdjust(g, c.0, c.1).Keys == g.Keys
    ensures WithAdjust(g, c.0, c.1)[p]
         == if g[c] == None && Ring(p, c) <= 2 then Some(Ring(p, c) != 1) else g[p]
  {
    hide AdjustDark, Ring;
    AlignmentRings(c.0, c.1, p);
  }

  lemma AdjustOneCell(n: int, g: Grid, centres: set<Pos>, c: Pos, p: Pos)
    requires n >= 21 && g.Keys == Range(n) && p in g && CellIsRight(n, g, centres, p)
    requires GoodCoordinate(n, c.0) && GoodCoordinate(n, c.1) && InRange(c, n) && !FinderZone(n, c)
    requires g[c] == None && forall c' | c' in centres :: Ring(c, c') >= 5
    ensures p in WithAdjust(g, c.0, c.1) && CellIsRight(n, WithAdjust(g, c.0, c.1), centres + {c}, p)
  {
    hide Ring, FinderZone, GoodCoordinate;
    CellAfterAdjust(n, g, c, p);
    hide WithAdjust;
    if Ring(p, c) <= 2 {
      FarFromFinders(n, c, p);
      forall c' | c' in centres ensures Ring(p, c') > 2 { FarFromEachOther(c, c', p); }
      assert c in centres + {c};
    }
  }

  /** A pattern is drawn where its centre is free, and the centre of a finder
      zone never is. */
  lemma AdjustOne(n: int, g: Grid, centres: set<Pos>, c: Pos)
    requires n >= 21 && GridIsRight(n, g, centres)
    requires GoodCoordinate(n, c.0) && GoodCoordinate(n, c.1) && InRange(c, n)
    requires forall c' | c' in centres :: Ring(c, c') >= 5
    ensures GridIsRight(n, WithAdjust(g, c.0, c.1), if FinderZone(n, c) then centres else centres + {c})
  {
    hide Ring, FinderZone, GoodCoordinate;
    assert c in g && CellIsRight(n, g, centres, c);
    if !FinderZone(n, c) {
      forall c' | c' in centres ensures Ring(c, c') > 2 {}
      assert g[c] == None;
      hide CellIsRight;
      forall p | p in g
        ensures p in WithAdjust(g, c.0, c.1) && CellIsRight(n, WithAdjust(g, c.0, c.1), centres + {c}, p)
      {
        AdjustOneCell(n, g, centres, c, p);
      }
      KeysAfterAdjust(g, c);
    }
  }

  lemma KeysAfterAdjust(g: Grid, c: Pos)
    ensures WithAdjust(g, c.0, c.1).Keys == g.Keys
  {}

  lemma DrawnStep(n: int, pos: seq<int>, k: nat, j: nat)
    requires GoodCentres(n, pos) && k < |pos| && j < |pos|
    ensures var c := (pos[k], pos[j]);
            && Drawn(n, pos, k, j + 1) == (if FinderZone(n, c) then Drawn(n, pos, k, j) else Drawn(n, pos, k, j) + {c})
            && forall c' | c' in Drawn(n, pos, k, j) :: Ring(c, c') >= 5
  {
    hide FinderZone;
  }

  lemma DrawnRow(n: int, pos: seq<int>, k: nat)
    ensures Drawn(n, pos, k, |pos|) == Drawn(n, pos, k + 1, 0)
  {
    hide FinderZone;
  }

  lemma {:induction false} RowDrawn(n: int, g: Grid, pos: seq<int>, k: nat, j: nat)
    requires n >= 21 && GoodCentres(n, pos) && k < |pos| && j <= |pos|
    requires GridIsRight(n, g, Drawn(n, pos, k, 0))
    ensures GridIsRight(n, AdjustRow(g, pos[k], pos, j), Drawn(n, pos, k, j))
  {
    hide GridIsRight, Drawn, WithAdjust, FinderZone, Ring;
    if j > 0 {
      RowDrawn(n, g, pos, k, j - 1);
      DrawnStep(n, pos, k, j - 1);
      AdjustOne(n, AdjustRow(g, pos[k], pos, j - 1), Drawn(n, pos, k, j - 1), (pos[k], pos[j - 1]));
    }
  }

  lemma {:induction false} AllDrawn(n: int, g: Grid, pos: seq<int>, k: nat)
    requires n >= 21 && GoodCentres(n, pos) && k <= |pos| && GridIsRight(n, g, {})
    ensures GridIsRight(n, WithAdjusts(g, pos, k), Drawn(n, pos, k, 0))
  {
    hide GridIsRight, WithAdjust, FinderZone;
    if k > 0 {
      AllDrawn(n, g, pos, k - 1);
      RowDrawn(n, WithAdjusts(g, pos, k - 1), pos, k - 1, |pos|);
      DrawnRow(n, pos, k - 1);
    } else {
      assert Drawn(n, pos, 0, 0) == {};
    }
  }

  // ----- what the setup phase leaves -----

  lemma FindersAreRight(n: int)
    requires n >= 21
    ensures GridIsRight(n, Finders(n), {})
  {
    FindersDomain(n);
    forall p | p in Finders(n) ensures CellIsRight(n, Finders(n), {}, p) {
      FinderCells(n, p);
    }
  }

  lemma SkeletonIsRight(n: int, pos: seq<int>, p: Pos)
    requires n >= 21 && InRange(p, n) && GoodCentres(n, pos)
    ensures var adjusted := WithAdjusts(Finders(n), pos, |pos|);
            && p in adjusted && CellIsRight(n, adjusted, Centres(n, pos), p)
            && p in Skeleton(n, pos) && Skeleton(n, pos)[p] == Over(adjusted[p], TimingCell(n, p))
  {
    hide WithAdjusts, Finders, Skeleton, GoodCentres, CellIsRight, Drawn;
    FindersAreRight(n);
    AllDrawn(n, Finders(n), pos, |pos|);
    SkeletonCells(n, pos, p);
  }

  lemma CentresAre(n: int, pos: seq<int>, a: nat, b: nat)
    requires n >= 21 && GoodCentres(n, pos) && a < |pos| && b < |pos|
    ensures (pos[a], pos[b]) in Centres(n, pos) <==> (pos[a], pos[b]) !in {(6, 6), (6, n - 7), (n - 7, 6)}
  {
    assert FinderZone(n, (pos[a], pos[b])) <==> (pos[a], pos[b]) in {(6, 6), (6, n - 7), (n - 7, 6)};
    hide FinderZone;
  }

  lemma CentreCoordinates(n: int, pos: seq<int>, c: Pos)
    requires GoodCentres(n, pos) && c in Centres(n, pos)
    ensures GoodCoordinate(n, c.0) && GoodCoordinate(n, c.1) && c.0 % 2 == 0 && c.1 % 2 == 0 && !FinderZone(n, c)
  {
    hide FinderZone;
  }

  lemma OthersSpareAlignments(n: int, test: bool, format: nat, version: nat, c: Pos, p: Pos)
    requires n >= 21 && GoodCoordinate(n, c.0) && GoodCoordinate(n, c.1) && !FinderZone(n, c)
    requires InRange(p, n) && Ring(p, c) <= 2
    ensures TypeInfoCell(n, test, format, p) == None && VersionCell(n, test, version, p) == None
  {
    hide BitAt;
  }

  /** Every alignment pattern away from the finders is shown, ring by ring: no
      other pattern touches it. */
  lemma AlignmentsSurvive(typeNumber: int, pos: seq<int>, test: bool, format: nat, version: nat, c: Pos, p: Pos)
    requires typeNumber >= 1 && GoodCentres(typeNumber * 4 + 17, pos)
    requires c in Centres(typeNumber * 4 + 17, pos) && InRange(p, typeNumber * 4 + 17) && Ring(p, c) <= 2
    ensures p in Reserved(typeNumber, pos, test, format, version)
    ensures Reserved(typeNumber, pos, test, format, version)[p] == Some(Ring(p, c) != 1)
  {
    hide Reserved, Skeleton, WithAdjusts, Finders, Ring, GoodCentres, Drawn, GoodCoordinate, FinderZone, TypeInfoCell, VersionCell;
    var n := typeNumber * 4 + 17;
    CentreCoordinates(n, pos, c);
    FarFromFinders(n, c, p);
    SkeletonIsRight(n, pos, p);
    OthersSpareAlignments(n, test, format, version, c, p);
    ReservedCells(typeNumber, pos, test, format, version, p);
  }

  predicate EvenSum(p: Pos) {
    (p.0 + p.1) % 2 == 0
  }

  lemma SumsAlternate(typeNumber: nat, k: nat)
    ensures EvenSum((k, 6)) == EvenSum((6, k)) == !EvenSum((k + 1, 6))
    ensures EvenSum((8, 6)) && EvenSum((typeNumber * 4 + 8, 6))
  {
    RemainderOfSum(typeNumber * 2 + 7, 0, 2);
    assert typeNumber * 4 + 14 == (typeNumber * 2 + 7) * 2;
  }

  lemma OthersSpareTiming(n: int, test: bool, format: nat, version: nat, p: Pos)
    requires n >= 21 && ((p.1 == 6 && 8 <= p.0 < n - 8) || (p.0 == 6 && 8 <= p.1 < n - 8))
    ensures TypeInfoCell(n, test, format, p) == None && VersionCell(n, test, version, p) == None
    ensures !FinderZone(n, p) && TimingCell(n, p) == Some(EvenSum(p))
  {
    hide BitAt;
  }

  lemma AlignmentOnTimingLine(n: int, c: Pos, p: Pos)
    requires n >= 21 && GoodCoordinate(n, c.0) && GoodCoordinate(n, c.1) && c.0 % 2 == 0 && c.1 % 2 == 0
    requires !FinderZone(n, c) && Ring(p, c) <= 2
    requires (p.1 == 6 && 8 <= p.0 < n - 8) || (p.0 == 6 && 8 <= p.1 < n - 8)
    ensures Ring(p, c) != 1 <==> EvenSum(p)
  {}

  lemma TimingSurvives(typeNumber: int, pos: seq<int>, test: bool, format: nat, version: nat, p: Pos)
    requires typeNumber >= 1 && GoodCentres(typeNumber * 4 + 17, pos)
    requires var n := typeNumber * 4 + 17;
             (p.1 == 6 && 8 <= p.0 < n - 8) || (p.0 == 6 && 8 <= p.1 < n - 8)
    ensures p in Reserved(typeNumber, pos, test, format, version)
    ensures Reserved(typeNumber, pos, test, format, version)[p] == Some(EvenSum(p))
  {
    hide Reserved, Skeleton, WithAdjusts, Finders, Ring, GoodCentres, Drawn, GoodCoordinate, FinderZone, TypeInfoCell, VersionCell,
         TimingCell, EvenSum;
    var n := typeNumber * 4 + 17;
    SkeletonIsRight(n, pos, p);
    OthersSpareTiming(n, test, format, version, p);
    ReservedCells(typeNumber, pos, test, format, version, p);
    if c :| c in Centres(n, pos) && Ring(p, c) <= 2 {
      CentreCoordinates(n, pos, c);
      AlignmentOnTimingLine(n, c, p);
    }
  }

  // ----- which modules are left -----

  ghost predicate InFinder(n: int, p: Pos) {
    Ring(p, (3, 3)) <= 4 || Ring(p, (n - 4, 3)) <= 4 || Ring(p, (3, n - 4)) <= 4
  }

  /** Along row 8 and column 8 next to the finders. */
  ghost predicate FormatArea(n: int, p: Pos) {
    (p.0 == 8 && (p.1 <= 8 || p.1 >= n - 8)) || (p.1 == 8 && (p.0 <= 8 || p.0 >= n - 8))
  }

  /** Two blocks of six by three modules inwards of the finders. */
  ghost predicate VersionArea(n: int, p: Pos) {
    (p.0 < 6 && n - 11 <= p.1 < n - 8) || (p.1 < 6 && n - 11 <= p.0 < n - 8)
  }

  lemma ZoneIsRings(n: int, p: Pos)
    requires n >= 21 && InRange(p, n)
    ensures FinderZone(n, p) <==> InFinder(n, p)
  {}

  lemma AreasClaimed(n: int, test: bool, format: nat, version: nat, p: Pos)
    requires n >= 21 && InRange(p, n)
    ensures TypeInfoCell(n, test, format, p).Some? ==> FormatArea(n, p)
    ensures FormatArea(n, p) ==> TypeInfoCell(n, test, format, p).Some? || p.0 == 6 || p.1 == 6
    ensures VersionCell(n, test, version, p).Some? <==> VersionArea(n, p)
    ensures TimingCell(n, p).Some? <==> (p.0 == 6 || p.1 == 6) && !FinderZone(n, p)
  {
    hide BitAt;
  }

  /** The setup phase leaves for data exactly the modules outside the finders, the
      timing lines, the alignment patterns, and the format and version areas. */
  lemma FreeModules(typeNumber: int, pos: seq<int>, test: bool, format: nat, version: nat, p: Pos)
    requires typeNumber >= 1 && GoodCentres(typeNumber * 4 + 17, pos) && InRange(p, typeNumber * 4 + 17)
    ensures p in Reserved(typeNumber, pos, test, format, version)
    ensures var n := typeNumber * 4 + 17;
            Reserved(typeNumber, pos, test, format, version)[p] == None <==>
              && !InFinder(n, p) && p.0 != 6 && p.1 != 6 && !FormatArea(n, p)
              && (typeNumber >= 7 ==> !VersionArea(n, p))
              && forall c | c in Centres(n, pos) :: Ring(p, c) > 2
  {
    hide Reserved, Skeleton, WithAdjusts, Finders, Ring, GoodCentres, Drawn, FinderZone, TypeInfoCell, VersionCell,
         TimingCell, InFinder, FormatArea, VersionArea;
    var n := typeNumber * 4 + 17;
    SkeletonIsRight(n, pos, p);
    ReservedCells(typeNumber, pos, test, format, version, p);
    AreasClaimed(n, test, format, version, p);
    ZoneIsRings(n, p);
  }

  // ----- the finished symbol -----

  lemma FinishedKeeps(typeNumber: int, pos: seq<int>, test: bool, format: nat, version: nat,
                      maskPattern: MaskPattern, data: seq<Coef>, h: Grid, p: Pos)
    requires Finished(typeNumber, pos, test, format, version, maskPattern, data, h)
    requires p in Reserved(typeNumber, pos, test, format, version)
    requires Reserved(typeNumber, pos, test, format, version)[p].Some?
    ensures p in h && h[p] == Reserved(typeNumber, pos, test, format, version)[p]
  {
    hide Reserved, Walk;
  }

  /** The three finders of a finished symbol, ring by ring. */
  lemma FinishedFinders(typeNumber: int, pos: seq<int>, test: bool, format: nat, version: nat,
                        maskPattern: MaskPattern, data: seq<Coef>, h: Grid, c: Pos, p: Pos)
    requires Finished(typeNumber, pos, test, format, version, maskPattern, data, h)
    requires var n := typeNumber * 4 + 17;
             GoodCentres(n, pos) && c in {(3, 3), (n - 4, 3), (3, n - 4)} && InRange(p, n) && Ring(p, c) <= 4
    ensures p in h && h[p] == Some(Ring(p, c) != 2 && Ring(p, c) != 4)
  {
    hide Finished, Reserved, Ring;
    assert typeNumber >= 1 by { FinishedType(typeNumber, pos, test, format, version, maskPattern, data, h); }
    GoodIsTable(typeNumber * 4 + 17, pos);
    FindersSurvive(typeNumber, pos, test, format, version, c, p);
    FinishedKeeps(typeNumber, pos, test, format, version, maskPattern, data, h, p);
  }

  lemma FinishedType(typeNumber: int, pos: seq<int>, test: bool, format: nat, version: nat,
                     maskPattern: MaskPattern, data: seq<Coef>, h: Grid)
    requires Finished(typeNumber, pos, test, format, version, maskPattern, data, h)
    ensures typeNumber >= 1
  {}

  /** Its alignment patterns: dark, light, dark from the centre out. */
  lemma FinishedAlignments(typeNumber: int, pos: seq<int>, test: bool, format: nat, version: nat,
                           maskPattern: MaskPattern, data: seq<Coef>, h: Grid, a: nat, b: nat, p: Pos)
    requires Finished(typeNumber, pos, test, format, version, maskPattern, data, h)
    requires var n := typeNumber * 4 + 17;
             && GoodCentres(n, pos) && a < |pos| && b < |pos|
             && (pos[a], pos[b]) !in {(6, 6), (6, n - 7), (n - 7, 6)}
             && InRange(p, n) && Ring(p, (pos[a], pos[b])) <= 2
    ensures p in h && h[p] == Some(Ring(p, (pos[a], pos[b])) != 1)
  {
    hide Finished, Reserved, Ring, GoodCentres, Drawn;
    FinishedType(typeNumber, pos, test, format, version, maskPattern, data, h);
    CentresAre(typeNumber * 4 + 17, pos, a, b);
    AlignmentsSurvive(typeNumber, pos, test, format, version, (pos[a], pos[b]), p);
    FinishedKeeps(typeNumber, pos, test, format, version, maskPattern, data, h, p);
  }

  /** Its timing lines begin and end dark and alternate from module to module. */
  lemma FinishedTiming(typeNumber: int, pos: seq<int>, test: bool, format: nat, version: nat,
                       maskPattern: MaskPattern, data: seq<Coef>, h: Grid, k: int)
    requires Finished(typeNumber, pos, test, format, version, maskPattern, data, h)
    requires GoodCentres(typeNumber * 4 + 17, pos) && 8 <= k < typeNumber * 4 + 17 - 8
    ensures var n := typeNumber * 4 + 17;
            && (k, 6) in h && (6, k) in h && h[(k, 6)] == h[(6, k)] && h[(k, 6)].Some?
            && (k == 8 || k == n - 9 ==> h[(k, 6)] == Some(true))
            && (k + 1 < n - 8 ==> (k + 1, 6) in h && h[(k + 1, 6)] == Some(!h[(k, 6)].value))
  {
    hide Finished, Reserved, GoodCentres, EvenSum;
    FinishedType(typeNumber, pos, test, format, version, maskPattern, data, h);
    var n := typeNumber * 4 + 17;
    SumsAlternate(typeNumber, k);
    TimingSurvives(typeNumber, pos, test, format, version, (k, 6));
    TimingSurvives(typeNumber, pos, test, format, version, (6, k));
    FinishedKeeps(typeNumber, pos, test, format, version, maskPattern, data, h, (k, 6));
    FinishedKeeps(typeNumber, pos, test, format, version, maskPattern, data, h, (6, k));
    if k + 1 < n - 8 {
      TimingSurvives(typeNumber, pos, test, format, version, (k + 1, 6));
      FinishedKeeps(typeNumber, pos, test, format, version, maskPattern, data, h, (k + 1, 6));
    }
  }

  // ----- the version modules name the type -----

  /** Both copies of bit i of the version word. */
  ghost predicate ShowsVersion(h: Grid, n: int, version: nat, i: nat) {
    && (i / 3, i % 3 + n - 11) in h && (i % 3 + n - 11, i / 3) in h
    && h[(i / 3, i % 3 + n - 11)] == Some(BitAt(version, i))
    && h[(i % 3 + n - 11, i / 3)] == Some(BitAt(version, i))
  }

  lemma FinishedVersion(typeNumber: int, pos: seq<int>, format: nat, version: nat, maskPattern: MaskPattern,
                        data: seq<Coef>, h: Grid, i: nat)
    requires Finished(typeNumber, pos, false, format, version, maskPattern, data, h) && typeNumber >= 7 && i < 18
    ensures ShowsVersion(h, typeNumber * 4 + 17, version, i)
  {
    hide Finished, Reserved, BitAt;
    var n := typeNumber * 4 + 17;
    VersionReadable(typeNumber, pos, false, format, version, i);
    FinishedKeeps(typeNumber, pos, false, format, version, maskPattern, data, h, (i / 3, i % 3 + n - 11));
    FinishedKeeps(typeNumber, pos, false, format, version, maskPattern, data, h, (i % 3 + n - 11, i / 3));
  }

  /** The number that the first i version modules beside the right finder spell. */
  ghost function ReadVersion(h: Grid, n: int, i: nat): nat {
    if i == 0 then 0
    else
      var p := ((i - 1) / 3, (i - 1) % 3 + n - 11);
      ReadVersion(h, n, i - 1) + if p in h && h[p] == Some(true) then Pow2(i - 1) else 0
  }

  lemma {:induction false} VersionIsRead(h: Grid, n: int, version: nat, i: nat)
    requires i <= 18 && forall k: nat | k < 18 :: ShowsVersion(h, n, version, k)
    ensures ReadVersion(h, n, i) == version % Pow2(i)
  {
    if i > 0 {
      VersionIsRead(h, n, version, i - 1);
      assert ShowsVersion(h, n, version, i - 1);
      AddBit(version, Pow2(i - 1));
    }
  }

  /** From type 7 on, the type of a finished symbol can be read from its modules. */
  lemma TypeIsRead(typeNumber: int, pos: seq<int>, format: nat, maskPattern: MaskPattern, data: seq<Coef>, h: Grid)
    requires 7 <= typeNumber < 64
    requires Finished(typeNumber, pos, false, format, VersionWord(typeNumber), maskPattern, data, h)
    ensures ReadVersion(h, typeNumber * 4 + 17, 18) / Pow2(12) == typeNumber
  {
    hide Finished, ShowsVersion, ReadVersion, Bch.Word;
    var n, version := typeNumber * 4 + 17, VersionWord(typeNumber);
    forall k: nat | k < 18 ensures ShowsVersion(h, n, version, k) {
      FinishedVersion(typeNumber, pos, format, version, maskPattern, data, h, k);
    }
    VersionIsRead(h, n, version, 18);
    VersionWordIs(typeNumber);
    SmallRemainder(version, Pow2(18));
  }

  lemma VersionWordIs(typeNumber: int)
    requires 0 <= typeNumber < 64
    ensures VersionWord(typeNumber) < Pow2(18) && VersionWord(typeNumber) / Pow2(12) == typeNumber
  {
    Bch.GeneratorLengths();
    BchDistance.PowersOfTwo();
    hide Bch.Word, Bch.Digits, Bch.Clmul, Pow2;
    SmallRemainder(typeNumber, 0x10_0000);
    Bch.WordIsCodeword(typeNumber, 12, Bch.G18);
    BchDistance.WordIsShort(typeNumber, 6, 12, Bch.G18);
  }
}
