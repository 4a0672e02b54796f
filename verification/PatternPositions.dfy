/** The table of alignment pattern centres, and what the setup phase needs of it. */
module PatternPositions {
  import opened FunctionPatterns
  import opened FunctionGrid

  /** PATTERN_POSITION_TABLE, by type. */
  function PatternPosition(typeNumber: nat): seq<int> {
    if typeNumber <= 10 then PositionsTo10(typeNumber)
    else if typeNumber <= 20 then PositionsTo20(typeNumber)
    else if typeNumber <= 30 then PositionsTo30(typeNumber)
    else PositionsTo40(typeNumber)
  }

  function PositionsTo10(typeNumber: nat): seq<int> {
    match typeNumber
    case 2 => [6, 18]
    case 3 => [6, 22]
    case 4 => [6, 26]
    case 5 => [6, 30]
    case 6 => [6, 34]
    case 7 => [6, 22, 38]
    case 8 => [6, 24, 42]
    case 9 => [6, 26, 46]
    case 10 => [6, 28, 50]
    case _ => []
  }

  function PositionsTo20(typeNumber: nat): seq<int> {
    match typeNumber
    case 11 => [6, 30, 54]
    case 12 => [6, 32, 58]
    case 13 => [6, 34, 62]
    case 14 => [6, 26, 46, 66]
    case 15 => [6, 26, 48, 70]
    case 16 => [6, 26, 50, 74]
    case 17 => [6, 30, 54, 78]
    case 18 => [6, 30, 56, 82]
    case 19 => [6, 30, 58, 86]
    case 20 => [6, 34, 62, 90]
    case _ => []
  }

  function PositionsTo30(typeNumber: nat): seq<int> {
    match typeNumber
    case 21 => [6, 28, 50, 72, 94]
    case 22 => [6, 26, 50, 74, 98]
    case 23 => [6, 30, 54, 78, 102]
    case 24 => [6, 28, 54, 80, 106]
    case 25 => [6, 32, 58, 84, 110]
    case 26 => [6, 30, 58, 86, 114]
    case 27 => [6, 34, 62, 90, 118]
    case 28 => [6, 26, 50, 74, 98, 122]
    case 29 => [6, 30, 54, 78, 102, 126]
    case 30 => [6, 26, 52, 78, 104, 130]
    case _ => []
  }

  function PositionsTo40(typeNumber: nat): seq<int> {
    match typeNumber
    case 31 => [6, 30, 56, 82, 108, 134]
    case 32 => [6, 34, 60, 86, 112, 138]
    case 33 => [6, 30, 58, 86, 114, 142]
    case 34 => [6, 34, 62, 90, 118, 146]
    case 35 => [6, 30, 54, 78, 102, 126, 150]
    case 36 => [6, 24, 50, 76, 102, 128, 154]
    case 37 => [6, 28, 54, 80, 106, 132, 158]
    case 38 => [6, 32, 58, 84, 110, 136, 162]
    case 39 => [6, 26, 54, 82, 110, 138, 166]
    case 40 => [6, 30, 58, 86, 114, 142, 170]
    case _ => []
  }

  /** Centre coordinates are even, increase by five at least, and lie on the
      timing lines, level with a finder, or clear of both. */
  ghost predicate GoodCentres(n: int, pos: seq<int>) {
    && (forall k | 0 <= k < |pos| :: pos[k] % 2 == 0 && (pos[k] == 6 || pos[k] == n - 7 || 14 <= pos[k] < n - 14))
    && (forall i, j | 0 <= i < j < |pos| :: pos[i] + 5 <= pos[j])
  }

  /** The table the encoder ships with has such centres for every type. */
  lemma TableIsGood(typeNumber: nat)
    requires 1 <= typeNumber <= 40
    ensures GoodCentres(typeNumber * 4 + 17, PatternPosition(typeNumber))
    ensures TableCentres(typeNumber * 4 + 17, PatternPosition(typeNumber))
    ensures CentresInside(PatternPosition(typeNumber), typeNumber * 4 + 17)
  {
    hide PositionsTo10, PositionsTo20, PositionsTo30, PositionsTo40, GoodCentres;
    if typeNumber <= 10 { GoodTo10(typeNumber); }
    else if typeNumber <= 20 { GoodTo20(typeNumber); }
    else if typeNumber <= 30 { GoodTo30(typeNumber); }
    else { GoodTo40(typeNumber); }
    GoodIsTable(typeNumber * 4 + 17, PatternPosition(typeNumber));
  }

  lemma RowOf2(n: int, a: int)
    requires a % 2 == 0
    requires a == n - 7 && a >= 11
    ensures GoodCentres(n, [6, a])
  {}

  lemma RowOf3(n: int, a: int, b: int)
    requires a % 2 == 0 && b % 2 == 0
    requires 14 <= a && a + 5 <= b && a < n - 14 && b == n - 7
    ensures GoodCentres(n, [6, a, b])
  {}

  lemma RowOf4(n: int, a: int, b: int, c: int)
    requires a % 2 == 0 && b % 2 == 0 && c % 2 == 0
    requires 14 <= a && a + 5 <= b && b + 5 <= c && b < n - 14 && c == n - 7
    ensures GoodCentres(n, [6, a, b, c])
  {}

  lemma RowOf5(n: int, a: int, b: int, c: int, d: int)
    requires a % 2 == 0 && b % 2 == 0 && c % 2 == 0 && d % 2 == 0
    requires 14 <= a && a + 5 <= b && b + 5 <= c && c + 5 <= d && c < n - 14 && d == n - 7
    ensures GoodCentres(n, [6, a, b, c, d])
  {}

  lemma RowOf6(n: int, a: int, b: int, c: int, d: int, e: int)
    requires a % 2 == 0 && b % 2 == 0 && c % 2 == 0 && d % 2 == 0 && e % 2 == 0
    requires 14 <= a && a + 5 <= b && b + 5 <= c && c + 5 <= d && d + 5 <= e && d < n - 14 && e == n - 7
    ensures GoodCentres(n, [6, a, b, c, d, e])
  {}

  lemma RowOf7(n: int, a: int, b: int, c: int, d: int, e: int, f: int)
    requires a % 2 == 0 && b % 2 == 0 && c % 2 == 0 && d % 2 == 0 && e % 2 == 0 && f % 2 == 0
    requires 14 <= a && a + 5 <= b && b + 5 <= c && c + 5 <= d && d + 5 <= e && e + 5 <= f && e < n - 14 && f == n - 7
    ensures GoodCentres(n, [6, a, b, c, d, e, f])
  {}

  lemma GoodTo10(typeNumber: nat)
    requires 1 <= typeNumber <= 10
    ensures GoodCentres(typeNumber * 4 + 17, PositionsTo10(typeNumber))
  {
    var n := typeNumber * 4 + 17;
    match typeNumber
    case 1 =>
    case 2 => RowOf2(n, 18);
    case 3 => RowOf2(n, 22);
    case 4 => RowOf2(n, 26);
    case 5 => RowOf2(n, 30);
    case 6 => RowOf2(n, 34);
    case 7 => RowOf3(n, 22, 38);
    case 8 => RowOf3(n, 24, 42);
    case 9 => RowOf3(n, 26, 46);
    case 10 => RowOf3(n, 28, 50);
  }

  lemma GoodTo20(typeNumber: nat)
    requires 11 <= typeNumber <= 20
    ensures GoodCentres(typeNumber * 4 + 17, PositionsTo20(typeNumber))
  {
    var n := typeNumber * 4 + 17;
    hide GoodCentres;
    match typeNumber
    case 11 => RowOf3(n, 30, 54);
    case 12 => RowOf3(n, 32, 58);
    case 13 => RowOf3(n, 34, 62);
    case 14 => RowOf4(n, 26, 46, 66);
    case 15 => RowOf4(n, 26, 48, 70);
    case 16 => RowOf4(n, 26, 50, 74);
    case 17 => RowOf4(n, 30, 54, 78);
    case 18 => RowOf4(n, 30, 56, 82);
    case 19 => RowOf4(n, 30, 58, 86);
    case 20 => RowOf4(n, 34, 62, 90);
  }

  lemma GoodTo30(typeNumber: nat)
    requires 21 <= typeNumber <= 30
    ensures GoodCentres(typeNumber * 4 + 17, PositionsTo30(typeNumber))
  {
    var n := typeNumber * 4 + 17;
    hide GoodCentres;
    match typeNumber
    case 21 => RowOf5(n, 28, 50, 72, 94);
    case 22 => RowOf5(n, 26, 50, 74, 98);
    case 23 => RowOf5(n, 30, 54, 78, 102);
    case 24 => RowOf5(n, 28, 54, 80, 106);
    case 25 => RowOf5(n, 32, 58, 84, 110);
    case 26 => RowOf5(n, 30, 58, 86, 114);
    case 27 => RowOf5(n, 34, 62, 90, 118);
    case 28 => RowOf6(n, 26, 50, 74, 98, 122);
    case 29 => RowOf6(n, 30, 54, 78, 102, 126);
    case 30 => RowOf6(n, 26, 52, 78, 104, 130);
  }

  lemma GoodTo40(typeNumber: nat)
    requires 31 <= typeNumber <= 40
    ensures GoodCentres(typeNumber * 4 + 17, PositionsTo40(typeNumber))
  {
    var n := typeNumber * 4 + 17;
    hide GoodCentres;
    match typeNumber
    case 31 => RowOf6(n, 30, 56, 82, 108, 134);
    case 32 => RowOf6(n, 34, 60, 86, 112, 138);
    case 33 => RowOf6(n, 30, 58, 86, 114, 142);
    case 34 => RowOf6(n, 34, 62, 90, 118, 146);
    case 35 => RowOf7(n, 30, 54, 78, 102, 126, 150);
    case 36 => RowOf7(n, 24, 50, 76, 102, 128, 154);
    case 37 => RowOf7(n, 28, 54, 80, 106, 132, 158);
    case 38 => RowOf7(n, 32, 58, 84, 110, 136, 162);
    case 39 => RowOf7(n, 26, 54, 82, 110, 138, 166);
    case 40 => RowOf7(n, 30, 58, 86, 114, 142, 170);
  }

  lemma GoodIsTable(n: int, pos: seq<int>)
    requires GoodCentres(n, pos)
    requires n >= 21
    ensures TableCentres(n, pos) && CentresInside(pos, n)
  {}

  ghost predicate EndsRight(typeNumber: nat, pos: seq<int>) {
    if typeNumber == 1 then pos == []
    else |pos| == typeNumber / 7 + 2 && pos[0] == 6 && pos[|pos| - 1] == typeNumber * 4 + 10
  }

  /** From type 2 on the table runs from 6 to n - 7, with one more coordinate every
      seven types. */
  lemma TableEnds(typeNumber: nat)
    requires 1 <= typeNumber <= 40
    ensures EndsRight(typeNumber, PatternPosition(typeNumber))
  {
    hide PositionsTo10, PositionsTo20, PositionsTo30, PositionsTo40, EndsRight;
    if typeNumber <= 10 { EndsTo10(typeNumber); }
    else if typeNumber <= 20 { EndsTo20(typeNumber); }
    else if typeNumber <= 30 { EndsTo30(typeNumber); }
    else { EndsTo40(typeNumber); }
  }

  lemma EndsTo10(typeNumber: nat)
    requires 1 <= typeNumber <= 10
    ensures EndsRight(typeNumber, PositionsTo10(typeNumber))
  {}

  lemma EndsTo20(typeNumber: nat)
    requires 11 <= typeNumber <= 20
    ensures EndsRight(typeNumber, PositionsTo20(typeNumber))
  {}

  lemma EndsTo30(typeNumber: nat)
    requires 21 <= typeNumber <= 30
    ensures EndsRight(typeNumber, PositionsTo30(typeNumber))
  {}

  lemma EndsTo40(typeNumber: nat)
    requires 31 <= typeNumber <= 40
    ensures EndsRight(typeNumber, PositionsTo40(typeNumber))
  {}
}
