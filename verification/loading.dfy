/** Loading a level from the table and locating the player on it. */
module Loading {
  import opened Wrappers
  import opened Grid
  import opened Catalog
  import opened Moves

  /** (i, j) comes strictly before (r, c) in row-major order. */
  predicate Before(i: int, j: int, r: int, c: int)
  {
    i < r || (i == r && j < c)
  }

  /** The first column from col on, within the terrain row's length, whose
      dynamic cell holds the player. */
  function ScanRow(terrain: Grid, dyn: Grid, row: int, col: int): (p: Option<int>)
    requires SameShape(terrain, dyn) && 0 <= row < |terrain| && 0 <= col <= |terrain[row]|
    ensures p.Some? ==> col <= p.value < |terrain[row]| && dyn[row][p.value] == Player
    ensures p.Some? ==> forall j :: col <= j < p.value ==> dyn[row][j] != Player
    ensures p.None? ==> forall j :: col <= j < |terrain[row]| ==> dyn[row][j] != Player
    decreases |terrain[row]| - col
  {
    if col == |terrain[row]| then None
    else if dyn[row][col] == Player then Some(col)
    else ScanRow(terrain, dyn, row, col + 1)
  }

  /** The first player cell in row-major order from row on. */
  function ScanRows(terrain: Grid, dyn: Grid, row: int): (p: Option<(int, int)>)
    requires SameShape(terrain, dyn) && 0 <= row <= |terrain|
    ensures p.Some? ==> row <= p.value.0 && InBounds(terrain, p.value.0, p.value.1)
                        && dyn[p.value.0][p.value.1] == Player
    ensures p.Some? ==> forall i, j :: InBounds(terrain, i, j) && row <= i && Before(i, j, p.value.0, p.value.1)
                          ==> dyn[i][j] != Player
    ensures p.None? ==> forall i, j :: InBounds(terrain, i, j) && row <= i ==> dyn[i][j] != Player
    decreases |terrain| - row
  {
    if row == |terrain| then None
    else match ScanRow(terrain, dyn, row, 0)
      case Some(c) => Some((row, c))
      case None => ScanRows(terrain, dyn, row + 1)
  }

  /** The player's coordinate: the first player cell in row-major order over
      the terrain's extent, or None when the dynamic grid holds no player. */
  function FindPlayer(terrain: Grid, dyn: Grid): (p: Option<(int, int)>)
    requires SameShape(terrain, dyn)
    ensures p.Some? ==> InBounds(terrain, p.value.0, p.value.1) && dyn[p.value.0][p.value.1] == Player
    ensures p.Some? ==> forall i, j :: InBounds(terrain, i, j) && Before(i, j, p.value.0, p.value.1)
                          ==> dyn[i][j] != Player
    ensures p.None? <==> forall i, j :: InBounds(terrain, i, j) ==> dyn[i][j] != Player
  {
    ScanRows(terrain, dyn, 0)
  }

  /** On a dynamic grid with exactly one player, the search finds that player. */
  lemma FindPlayerFindsOnlyPlayer(terrain: Grid, dyn: Grid)
    requires SameShape(terrain, dyn) && Count(dyn, Player) == 1
    ensures FindPlayer(terrain, dyn).Some?
    ensures var p := FindPlayer(terrain, dyn).value;
            forall i, j :: InBounds(dyn, i, j) && dyn[i][j] == Player ==> (i, j) == p
  {
    if FindPlayer(terrain, dyn).None? {
      CountAbsent(dyn, Player);
    }
    var p := FindPlayer(terrain, dyn).value;
    forall i, j | InBounds(dyn, i, j) && dyn[i][j] == Player
      ensures (i, j) == p
    {
      UniqueCell(dyn, p.0, p.1, i, j, Player);
    }
  }

  /** Level i as play starts: its terrain, a copy of its initial dynamic
      grid, and the player located on it. */
  function LoadLevel(i: nat): (b: Board)
    requires i < LevelCount
    ensures b.terrain == TerrainOf(i) && b.dyn == LayoutOf(i)
    ensures Valid(b)
    ensures FindPlayer(b.terrain, b.dyn) == Some((b.row, b.col))
  {
    CatalogWellFormed(i);
    FindPlayerFindsOnlyPlayer(TerrainOf(i), LayoutOf(i));
    var p := FindPlayer(TerrainOf(i), LayoutOf(i)).value;
    Board(TerrainOf(i), LayoutOf(i), p.0, p.1)
  }
}
