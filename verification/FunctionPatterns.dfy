/** The setup phase of a symbol: finder, alignment and timing patterns, format
    and version information.  Each method is specified by the layer of modules
    it writes over the grid. */
module FunctionPatterns {
  import opened Wrappers
  import opened Numbers

  /** A module is None (null) until something claims it; true is dark. */
  type Cell = Option<bool>
  type Pos = (int, int)
  type Grid = map<Pos, Cell>

  ghost function GridOf(m: array2<Cell>): (g: Grid)
    reads m
    ensures forall r, c :: (r, c) in g <==> 0 <= r < m.Length0 && 0 <= c < m.Length1
    ensures forall r, c | 0 <= r < m.Length0 && 0 <= c < m.Length1 :: g[(r, c)] == m[r, c]
  {
    map r, c | 0 <= r < m.Length0 && 0 <= c < m.Length1 :: (r, c) := m[r, c]
  }

  ghost predicate Square(m: array2<Cell>, n: int) {
    m.Length0 == n && m.Length1 == n
  }

  ghost predicate InRange(p: Pos, n: int) {
    0 <= p.0 < n && 0 <= p.1 < n
  }

  ghost function Range(n: int): (s: set<Pos>)
    ensures forall p :: p in s <==> InRange(p, n)
  {
    set r, c | 0 <= r < n && 0 <= c < n :: (r, c)
  }

  /** A written layer wins over what was there. */
  function Over(layer: Cell, base: Cell): Cell {
    if layer.Some? then layer else base
  }

  /** How many rings around the centre a module lies: 0 at the centre itself. */
  function Ring(p: Pos, centre: Pos): (d: nat)
    ensures d >= p.0 - centre.0 && d >= centre.0 - p.0 && d >= p.1 - centre.1 && d >= centre.1 - p.1
    ensures d == p.0 - centre.0 || d == centre.0 - p.0 || d == p.1 - centre.1 || d == centre.1 - p.1
  {
    var r := if p.0 >= centre.0 then p.0 - centre.0 else centre.0 - p.0;
    var c := if p.1 >= centre.1 then p.1 - centre.1 else centre.1 - p.1;
    if r >= c then r else c
  }

  // ----- finder patterns -----

  predicate ProbeDark(r: int, c: int) {
    || (0 <= r <= 6 && (c == 0 || c == 6))
    || (0 <= c <= 6 && (r == 0 || r == 6))
    || (2 <= r <= 4 && 2 <= c <= 4)
  }

  /** The finder with its light separator, relative to its corner. */
  function ProbeCell(row: int, col: int, p: Pos): Cell {
    var r, c := p.0 - row, p.1 - col;
    if -1 <= r <= 7 && -1 <= c <= 7 then Some(ProbeDark(r, c)) else None
  }

  ghost function WithProbe(g: Grid, row: int, col: int): Grid {
    map p | p in g :: Over(ProbeCell(row, col, p), g[p])
  }

  /** Around its centre a finder is dark up to ring 1, light in ring 2, dark in
      ring 3 and light in ring 4, the separator; it claims nothing beyond. */
  lemma FinderRings(row: int, col: int, p: Pos)
    ensures var d := Ring(p, (row + 3, col + 3));
            ProbeCell(row, col, p) == if d <= 4 then Some(d != 2 && d != 4) else None
  {}

  /** Over g, h shows the rings of a finder around a centre, and nothing else. */
  ghost predicate ShowsFinder(g: Grid, h: Grid, centre: Pos) {
    g.Keys == h.Keys
    && forall p | p in g ::
         h[p] == if Ring(p, centre) <= 4 then Some(Ring(p, centre) != 2 && Ring(p, centre) != 4) else g[p]
  }

  lemma ProbeDrawn(g: Grid, row: int, col: int)
    ensures ShowsFinder(g, WithProbe(g, row, col), (row + 3, col + 3))
  {
    hide ProbeCell, Ring;
    forall p | p in g
      ensures var d := Ring(p, (row + 3, col + 3));
              WithProbe(g, row, col)[p] == if d <= 4 then Some(d != 2 && d != 4) else g[p]
    {
      FinderRings(row, col, p);
    }
  }

  lemma ProbeRows(row: int, col: int)
    ensures forall p: Pos | !(-1 <= p.0 - row <= 7) :: ProbeCell(row, col, p) == None
  {}

  /** One row of the pattern. */
  method ProbeRow(m: array2<Cell>, n: int, row: int, col: int, r: int)
    requires Square(m, n) && 0 <= row + r < n && -1 <= r <= 7
    modifies m
    ensures forall i, j | 0 <= i < n && 0 <= j < n ::
        m[i, j] == if i - row == r then Over(ProbeCell(row, col, (i, j)), old(m[i, j])) else old(m[i, j])
  {
    hide ProbeDark;
    for c := -1 to 8
      invariant forall i, j | 0 <= i < n && 0 <= j < n ::
          m[i, j] == if i - row == r && j - col < c then Over(ProbeCell(row, col, (i, j)), old(m[i, j]))
                     else old(m[i, j])
    {
      if col + c <= -1 || n <= col + c { continue; }
      m[row + r, col + c] := Some(ProbeDark(r, c));
    }
  }

  method SetupPositionProbePattern(m: array2<Cell>, n: int, row: int, col: int)
    requires Square(m, n)
    modifies m
    ensures GridOf(m) == WithProbe(old(GridOf(m)), row, col)
    ensures ShowsFinder(old(GridOf(m)), GridOf(m), (row + 3, col + 3))
  {
    hide ProbeCell, ShowsFinder;
    ProbeRows(row, col);
    for r := -1 to 8
      invariant forall i, j | 0 <= i < n && 0 <= j < n ::
          m[i, j] == if i - row < r then Over(ProbeCell(row, col, (i, j)), old(m[i, j])) else old(m[i, j])
    {
      if row + r <= -1 || n <= row + r { continue; }
      ProbeRow(m, n, row, col, r);
    }
    assert GridOf(m) == WithProbe(old(GridOf(m)), row, col);
    ProbeDrawn(old(GridOf(m)), row, col);
  }

  // ----- alignment patterns -----

  predicate AdjustDark(r: int, c: int) {
    r == -2 || r == 2 || c == -2 || c == 2 || (r == 0 && c == 0)
  }

  function AdjustCell(row: int, col: int, p: Pos): Cell {
    var r, c := p.0 - row, p.1 - col;
    if -2 <= r <= 2 && -2 <= c <= 2 then Some(AdjustDark(r, c)) else None
  }

  /** An alignment pattern is a dark centre, a light ring and a dark ring. */
  lemma AlignmentRings(row: int, col: int, p: Pos)
    ensures var d := Ring(p, (row, col));
            AdjustCell(row, col, p) == if d <= 2 then Some(d != 1) else None
  {}

  /** One alignment pattern, skipped when its centre is already taken. */
  ghost function WithAdjust(g: Grid, row: int, col: int): Grid {
    if (row, col) in g && g[(row, col)].Some? then g
    else map p | p in g :: Over(AdjustCell(row, col, p), g[p])
  }

  ghost function AdjustRow(g: Grid, row: int, pos: seq<int>, k: nat): Grid
    requires k <= |pos|
  {
    if k == 0 then g else WithAdjust(AdjustRow(g, row, pos, k - 1), row, pos[k - 1])
  }

  /** The patterns of the first k rows of centres. */
  ghost function WithAdjusts(g: Grid, pos: seq<int>, k: nat): Grid
    requires k <= |pos|
  {
    if k == 0 then g else AdjustRow(WithAdjusts(g, pos, k - 1), pos[k - 1], pos, |pos|)
  }

  /** Centres keep far enough from the border. */
  ghost predicate CentresInside(pos: seq<int>, n: int) {
    forall k | 0 <= k < |pos| :: 2 <= pos[k] < n - 2
  }

  method SetupAdjust(m: array2<Cell>, n: int, row: int, col: int)
    requires Square(m, n) && 2 <= row < n - 2 && 2 <= col < n - 2
    modifies m
    ensures GridOf(m) == WithAdjust(old(GridOf(m)), row, col)
  {
    hide AdjustDark;
    if m[row, col] != None { return; }
    for r := -2 to 3
      invariant forall i, j | 0 <= i < n && 0 <= j < n ::
          m[i, j] == if i - row < r then Over(AdjustCell(row, col, (i, j)), old(m[i, j])) else old(m[i, j])
    {
      for c := -2 to 3
        invariant forall i, j | 0 <= i < n && 0 <= j < n ::
            m[i, j] == if i - row < r || (i - row == r && j - col < c) then Over(AdjustCell(row, col, (i, j)), old(m[i, j]))
                       else old(m[i, j])
      {
        m[row + r, col + c] := Some(AdjustDark(r, c));
      }
    }
  }

  method SetupPositionAdjustPattern(m: array2<Cell>, n: int, pos: seq<int>)
    requires Square(m, n) && CentresInside(pos, n)
    modifies m
    ensures GridOf(m) == WithAdjusts(old(GridOf(m)), pos, |pos|)
  {
    hide WithAdjust, GridOf;
    for i := 0 to |pos|
      invariant GridOf(m) == WithAdjusts(old(GridOf(m)), pos, i)
    {
      for j := 0 to |pos|
        invariant GridOf(m) == AdjustRow(WithAdjusts(old(GridOf(m)), pos, i), pos[i], pos, j)
      {
        SetupAdjust(m, n, pos[i], pos[j]);
      }
    }
  }

  // ----- timing patterns -----

  /** Dark on even coordinates, between the two finders. */
  function TimingColumnCell(n: int, p: Pos): Cell {
    if p.1 == 6 && 8 <= p.0 < n - 8 then Some(p.0 % 2 == 0) else None
  }

  function TimingRowCell(n: int, p: Pos): Cell {
    if p.0 == 6 && 8 <= p.1 < n - 8 then Some(p.1 % 2 == 0) else None
  }

  function TimingCell(n: int, p: Pos): Cell {
    Over(TimingColumnCell(n, p), TimingRowCell(n, p))
  }

  /** Timing fills only what is still free. */
  ghost function WithTiming(g: Grid, n: int): Grid {
    map p | p in g :: Over(g[p], TimingCell(n, p))
  }

  method TimingColumn(m: array2<Cell>, n: int)
    requires Square(m, n) && n >= 21
    modifies m
    ensures forall i, j | 0 <= i < n && 0 <= j < n :: m[i, j] == Over(old(m[i, j]), TimingColumnCell(n, (i, j)))
  {
    for r := 8 to n - 8
      invariant forall i, j | 0 <= i < n && 0 <= j < n ::
          m[i, j] == if i < r then Over(old(m[i, j]), TimingColumnCell(n, (i, j))) else old(m[i, j])
    {
      if m[r, 6] != None { continue; }
      m[r, 6] := Some(r % 2 == 0);
    }
  }

  method TimingRow(m: array2<Cell>, n: int)
    requires Square(m, n) && n >= 21
    modifies m
    ensures forall i, j | 0 <= i < n && 0 <= j < n :: m[i, j] == Over(old(m[i, j]), TimingRowCell(n, (i, j)))
  {
    for c := 8 to n - 8
      invariant forall i, j | 0 <= i < n && 0 <= j < n ::
          m[i, j] == if j < c then Over(old(m[i, j]), TimingRowCell(n, (i, j))) else old(m[i, j])
    {
      if m[6, c] != None { continue; }
      m[6, c] := Some(c % 2 == 0);
    }
  }

  method SetupTimingPattern(m: array2<Cell>, n: int)
    requires Square(m, n) && n >= 21
    modifies m
    ensures GridOf(m) == WithTiming(old(GridOf(m)), n)
  {
    hide TimingColumnCell, TimingRowCell;
    TimingColumn(m, n);
    TimingRow(m, n);
  }

  // ----- format information -----

  /** Where bit i of the format word goes along column 8. */
  function FormatRow(n: int, i: nat): int {
    if i < 6 then i else if i < 8 then i + 1 else n - 15 + i
  }

  /** Where bit i of the format word goes along row 8. */
  function FormatCol(n: int, i: nat): int {
    if i < 8 then n - i - 1 else if i < 9 then 15 - i else 14 - i
  }

  /** The format word goes down column 8 from the top, past the timing line and on
      along the lower finder, and along row 8 from the right to the left. */
  lemma FormatLayout(n: int, i: nat)
    requires i < 15
    ensures FormatRow(n, i) == [0, 1, 2, 3, 4, 5, 7, 8, n - 7, n - 6, n - 5, n - 4, n - 3, n - 2, n - 1][i]
    ensures FormatCol(n, i) == [n - 1, n - 2, n - 3, n - 4, n - 5, n - 6, n - 7, n - 8, 7, 5, 4, 3, 2, 1, 0][i]
  {}

  /** The bit kept at a module of column 8, if any. */
  function VerticalBit(n: int, p: Pos): Option<nat> {
    if p.1 != 8 then None
    else if 0 <= p.0 < 6 then Some(p.0)
    else if 7 <= p.0 < 9 then Some(p.0 - 1)
    else if n - 7 <= p.0 < n then Some(p.0 - n + 15)
    else None
  }

  function HorizontalBit(n: int, p: Pos): Option<nat> {
    if p.0 != 8 then None
    else if n - 8 <= p.1 < n then Some(n - 1 - p.1)
    else if p.1 == 7 then Some(8)
    else if 0 <= p.1 < 6 then Some(14 - p.1)
    else None
  }

  /** Both copies and the fixed dark module; a test symbol keeps them light. */
  function TypeInfoCell(n: int, test: bool, bits: nat, p: Pos): Cell {
    if p == (n - 8, 8) then Some(!test)
    else if HorizontalBit(n, p).Some? then Some(!test && BitAt(bits, HorizontalBit(n, p).value))
    else if VerticalBit(n, p).Some? then Some(!test && BitAt(bits, VerticalBit(n, p).value))
    else None
  }

  ghost function WithTypeInfo(g: Grid, n: int, test: bool, bits: nat): Grid {
    map p | p in g :: Over(TypeInfoCell(n, test, bits, p), g[p])
  }

  /** Each bit has one module of the column, and every module kept there one of
      the 15 bits. */
  lemma VerticalBitAt(n: int, i: nat)
    requires n >= 21 && i < 15
    ensures forall r, c | 0 <= r < n && 0 <= c < n :: VerticalBit(n, (r, c)) == Some(i) <==> r == FormatRow(n, i) && c == 8
  {}

  lemma VerticalBits(n: int)
    ensures forall p: Pos :: VerticalBit(n, p).Some? ==> VerticalBit(n, p).value < 15
  {}

  method FormatAlongColumn(m: array2<Cell>, n: int, test: bool, bits: nat)
    requires Square(m, n) && n >= 21
    modifies m
    ensures forall r, c | 0 <= r < n && 0 <= c < n ::
        m[r, c] == if VerticalBit(n, (r, c)).Some? then Some(!test && BitAt(bits, VerticalBit(n, (r, c)).value))
                   else old(m[r, c])
  {
    hide BitAt, VerticalBit;
    VerticalBits(n);
    for i := 0 to 15
      invariant forall r, c | 0 <= r < n && 0 <= c < n ::
          m[r, c] == if VerticalBit(n, (r, c)).Some? && VerticalBit(n, (r, c)).value < i
                     then Some(!test && BitAt(bits, VerticalBit(n, (r, c)).value)) else old(m[r, c])
    {
      var mod := !test && BitAt(bits, i);
      VerticalBitAt(n, i);
      if i < 6 {
        m[i, 8] := Some(mod);
      } else if i < 8 {
        m[i + 1, 8] := Some(mod);
      } else {
        m[n - 15 + i, 8] := Some(mod);
      }
    }
  }

  method FormatAlongRow(m: array2<Cell>, n: int, test: bool, bits: nat)
    requires Square(m, n) && n >= 21
    modifies m
    ensures forall r, c | 0 <= r < n && 0 <= c < n ::
        m[r, c] == if HorizontalBit(n, (r, c)).Some? then Some(!test && BitAt(bits, HorizontalBit(n, (r, c)).value))
                   else old(m[r, c])
  {
    hide BitAt;
    for i := 0 to 15
      invariant forall r, c | 0 <= r < n && 0 <= c < n ::
          m[r, c] == if HorizontalBit(n, (r, c)).Some? && HorizontalBit(n, (r, c)).value < i
                     then Some(!test && BitAt(bits, HorizontalBit(n, (r, c)).value)) else old(m[r, c])
    {
      var mod := !test && BitAt(bits, i);
      if i < 8 {
        m[8, n - i - 1] := Some(mod);
      } else if i < 9 {
        m[8, 15 - i - 1 + 1] := Some(mod);
      } else {
        m[8, 15 - i - 1] := Some(mod);
      }
    }
  }

  method SetupTypeInfo(m: array2<Cell>, n: int, test: bool, bits: nat)
    requires Square(m, n) && n >= 21
    modifies m
    ensures GridOf(m) == WithTypeInfo(old(GridOf(m)), n, test, bits)
  {
    hide BitAt, VerticalBit, HorizontalBit;
    FormatAlongColumn(m, n, test, bits);
    FormatAlongRow(m, n, test, bits);
    m[n - 8, 8] := Some(!test);
  }

  // ----- version information -----

  function VersionRight(n: int, p: Pos): Option<nat> {
    if 0 <= p.0 < 6 && n - 11 <= p.1 < n - 8 then Some(3 * p.0 + p.1 - n + 11) else None
  }

  function VersionCell(n: int, test: bool, bits: nat, p: Pos): Cell {
    if VersionRight(n, (p.1, p.0)).Some? then Some(!test && BitAt(bits, VersionRight(n, (p.1, p.0)).value))
    else if VersionRight(n, p).Some? then Some(!test && BitAt(bits, VersionRight(n, p).value))
    else None
  }

  ghost function WithVersion(g: Grid, n: int, test: bool, bits: nat): Grid {
    map p | p in g :: Over(VersionCell(n, test, bits, p), g[p])
  }

  lemma VersionBitAt(n: int, i: nat)
    requires n >= 21 && i < 18
    ensures forall r, c | 0 <= r < n && 0 <= c < n ::
              VersionRight(n, (r, c)) == Some(i) <==> r == i / 3 && c == i % 3 + n - 11
  {
    forall r, c | 0 <= r < n && 0 <= c < n
      ensures VersionRight(n, (r, c)) == Some(i) <==> r == i / 3 && c == i % 3 + n - 11
    {
      if VersionRight(n, (r, c)) == Some(i) {
        assert i == 3 * r + (c - n + 11) && 0 <= c - n + 11 < 3;
      }
    }
  }

  lemma VersionBits(n: int)
    ensures forall p: Pos :: VersionRight(n, p).Some? ==> VersionRight(n, p).value < 18
  {}

  method VersionOnTheRight(m: array2<Cell>, n: int, test: bool, bits: nat)
    requires Square(m, n) && n >= 21
    modifies m
    ensures forall r, c | 0 <= r < n && 0 <= c < n ::
        m[r, c] == if VersionRight(n, (r, c)).Some? then Some(!test && BitAt(bits, VersionRight(n, (r, c)).value))
                   else old(m[r, c])
  {
    hide BitAt, VersionRight;
    VersionBits(n);
    for i := 0 to 18
      invariant forall r, c | 0 <= r < n && 0 <= c < n ::
          m[r, c] == if VersionRight(n, (r, c)).Some? && VersionRight(n, (r, c)).value < i
                     then Some(!test && BitAt(bits, VersionRight(n, (r, c)).value)) else old(m[r, c])
    {
      VersionBitAt(n, i);
      m[i / 3, i % 3 + n - 8 - 3] := Some(!test && BitAt(bits, i));
    }
  }

  method VersionAtTheBottom(m: array2<Cell>, n: int, test: bool, bits: nat)
    requires Square(m, n) && n >= 21
    modifies m
    ensures forall r, c | 0 <= r < n && 0 <= c < n ::
        m[r, c] == if VersionRight(n, (c, r)).Some? then Some(!test && BitAt(bits, VersionRight(n, (c, r)).value))
                   else old(m[r, c])
  {
    hide BitAt, VersionRight;
    VersionBits(n);
    for i := 0 to 18
      invariant forall r, c | 0 <= r < n && 0 <= c < n ::
          m[r, c] == if VersionRight(n, (c, r)).Some? && VersionRight(n, (c, r)).value < i
                     then Some(!test && BitAt(bits, VersionRight(n, (c, r)).value)) else old(m[r, c])
    {
      VersionBitAt(n, i);
      m[i % 3 + n - 8 - 3, i / 3] := Some(!test && BitAt(bits, i));
    }
  }

  method SetupTypeNumber(m: array2<Cell>, n: int, test: bool, bits: nat)
    requires Square(m, n) && n >= 21
    modifies m
    ensures GridOf(m) == WithVersion(old(GridOf(m)), n, test, bits)
  {
    hide BitAt, VersionRight;
    VersionOnTheRight(m, n, test, bits);
    VersionAtTheBottom(m, n, test, bits);
  }
}
