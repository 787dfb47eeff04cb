/** Win detection: a level is won when every goal tile carries a box. */
module Win {
  import opened Grid

  /** Every terrain cell that is a goal holds a box in the dynamic grid. */
  predicate AllGoalsCovered(terrain: Grid, dyn: Grid)
    requires SameShape(terrain, dyn)
  {
    forall r, c :: 0 <= r < |terrain| && 0 <= c < |terrain[r]| && terrain[r][c] == Goal ==> dyn[r][c] == Box
  }

  /** The row-by-row scan of the grids, giving up at the first uncovered goal. */
  method IsGameWon(terrain: Grid, dyn: Grid) returns (won: bool)
    requires SameShape(terrain, dyn)
    ensures won <==> AllGoalsCovered(terrain, dyn)
    ensures !won ==> exists r, c :: InBounds(terrain, r, c) && terrain[r][c] == Goal && dyn[r][c] != Box
  {
    var row := 0;
    while row < |terrain|
      invariant 0 <= row <= |terrain|
      invariant forall r, c :: 0 <= r < row && 0 <= c < |terrain[r]| && terrain[r][c] == Goal ==> dyn[r][c] == Box
    {
      var col := 0;
      while col < |terrain[row]|
        invariant 0 <= col <= |terrain[row]|
        invariant forall c :: 0 <= c < col && terrain[row][c] == Goal ==> dyn[row][c] == Box
      {
        if terrain[row][col] == Goal && dyn[row][col] != Box {
          return false;
        }
        col := col + 1;
      }
      row := row + 1;
    }
    return true;
  }

  /** Only goal cells matter: whatever a non-goal cell holds, a box off the
      goals included, does not change whether the level is won. */
  lemma NonGoalCellsDoNotMatter(terrain: Grid, dyn: Grid, r: int, c: int, x: char)
    requires SameShape(terrain, dyn) && InBounds(terrain, r, c) && terrain[r][c] != Goal
    ensures AllGoalsCovered(terrain, Set(dyn, r, c, x)) <==> AllGoalsCovered(terrain, dyn)
  {
  }

  /** A level without goals is won whatever the dynamic grid holds. */
  lemma NoGoalsMeansWon(terrain: Grid, dyn: Grid)
    requires SameShape(terrain, dyn)
    requires forall r, c :: InBounds(terrain, r, c) ==> terrain[r][c] != Goal
    ensures AllGoalsCovered(terrain, dyn)
  {
  }
}
