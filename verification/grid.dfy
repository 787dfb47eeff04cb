/** Character grids: the terrain layer and the dynamic layer of a level are
    both rows of characters, addressed row-major by (row, column). */
module Grid {

  type Grid = seq<seq<char>>

  /** The five characters the game uses. */
  const Player := '@'
  const Box := 'B'
  const Goal := 'G'
  const Wall := '#'
  const Empty := ' '

  /** (r, c) addresses a cell of g; rows may differ in length. */
  predicate InBounds(g: Grid, r: int, c: int)
  {
    0 <= r < |g| && 0 <= c < |g[r]|
  }

  /** Two grids with the same number of rows and the same length row by row. */
  predicate SameShape(a: Grid, b: Grid)
  {
    |a| == |b| && forall r :: 0 <= r < |a| ==> |a[r]| == |b[r]|
  }

  /** g with the single cell (r, c) overwritten by x. */
  function Set(g: Grid, r: int, c: int, x: char): (h: Grid)
    requires InBounds(g, r, c)
    ensures SameShape(g, h)
    ensures h[r][c] == x
    ensures forall i, j :: InBounds(g, i, j) && (i, j) != (r, c) ==> h[i][j] == g[i][j]
  {
    g[r := g[r][c := x]]
  }

  /** Number of occurrences of x in one row. */
  function CountRow(row: seq<char>, x: char): nat
  {
    if |row| == 0 then 0 else (if row[0] == x then 1 else 0) + CountRow(row[1..], x)
  }

  /** Number of cells of g holding x. */
  function Count(g: Grid, x: char): nat
  {
    if |g| == 0 then 0 else CountRow(g[0], x) + Count(g[1..], x)
  }

  function Indicator(b: bool): nat
  {
    if b then 1 else 0
  }

  /** Overwriting one cell changes a row's count only by what left and what arrived. */
  lemma {:induction false} CountRowUpdate(row: seq<char>, c: int, y: char, x: char)
    requires 0 <= c < |row|
    ensures CountRow(row[c := y], x) + Indicator(row[c] == x)
         == CountRow(row, x) + Indicator(y == x)
  {
    var row' := row[c := y];
    if c > 0 {
      assert row'[1..] == row[1..][c - 1 := y];
      CountRowUpdate(row[1..], c - 1, y, x);
    } else {
      assert row'[1..] == row[1..];
    }
  }

  /** Overwriting one cell changes a grid's count only by what left and what arrived. */
  lemma {:induction false} CountUpdate(g: Grid, r: int, c: int, y: char, x: char)
    requires InBounds(g, r, c)
    ensures Count(Set(g, r, c, y), x) + Indicator(g[r][c] == x)
         == Count(g, x) + Indicator(y == x)
  {
    var h := Set(g, r, c, y);
    if r > 0 {
      assert h[1..] == Set(g[1..], r - 1, c, y);
      CountUpdate(g[1..], r - 1, c, y, x);
    } else {
      assert h[1..] == g[1..];
      CountRowUpdate(g[0], c, y, x);
    }
  }

  /** A cell holding x contributes to the count of x. */
  lemma {:induction false} CountPositive(g: Grid, r: int, c: int, x: char)
    requires InBounds(g, r, c) && g[r][c] == x
    ensures Count(g, x) >= 1
  {
    CountUpdate(g, r, c, if x == Empty then Wall else Empty, x);
  }

  /** A grid with no cell holding x has count zero for x. */
  lemma {:induction false} CountAbsent(g: Grid, x: char)
    requires forall r, c :: InBounds(g, r, c) ==> g[r][c] != x
    ensures Count(g, x) == 0
  {
    if |g| > 0 {
      CountRowAbsent(g[0], x);
      forall r, c | InBounds(g[1..], r, c)
        ensures g[1..][r][c] != x
      {
        assert InBounds(g, r + 1, c);
      }
      CountAbsent(g[1..], x);
    }
  }

  lemma {:induction false} CountRowAbsent(row: seq<char>, x: char)
    requires forall c :: 0 <= c < |row| ==> row[c] != x
    ensures CountRow(row, x) == 0
  {
    if |row| > 0 {
      assert forall c :: 0 <= c < |row[1..]| ==> row[1..][c] == row[c + 1];
      CountRowAbsent(row[1..], x);
    }
  }

  /** When x occurs exactly once, every cell holding x is that one cell. */
  lemma UniqueCell(g: Grid, r: int, c: int, i: int, j: int, x: char)
    requires Count(g, x) == 1
    requires InBounds(g, r, c) && g[r][c] == x
    requires InBounds(g, i, j) && g[i][j] == x
    ensures (i, j) == (r, c)
  {
    if (i, j) != (r, c) {
      var y := if x == Empty then Wall else Empty;
      CountUpdate(g, r, c, y, x);
      CountPositive(Set(g, r, c, y), i, j, x);
    }
  }
}
