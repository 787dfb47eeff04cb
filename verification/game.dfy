/** The session: the current level index, the board in play, and the key
    handler that moves, detects a win and advances to the next level. */
module Game {
  import opened Wrappers
  import opened Grid
  import opened Catalog
  import opened Moves
  import opened Loading
  import opened Win

  /** Playing a level, or past the last level: the game has ended and the
      process is gone, so no further key reaches it. */
  datatype Game = Playing(level: nat, board: Board) | Finished(level: nat)

  /** The session invariant: a level of the table in play, its terrain
      untouched, one player at the cached coordinate, and not yet won (a won
      board is advanced from at once); or the end reached exactly one past
      the last level. */
  predicate GameValid(g: Game)
  {
    match g
    case Playing(l, b) =>
      l < LevelCount && b.terrain == TerrainOf(l) && Valid(b) && !AllGoalsCovered(b.terrain, b.dyn)
    case Finished(l) => l == LevelCount
  }

  /** A goal without a box means the level is not won. */
  lemma OpenGoalMeansUnwon(terrain: Grid, dyn: Grid, r: int, c: int)
    requires SameShape(terrain, dyn) && InBounds(terrain, r, c)
    requires terrain[r][c] == Goal && dyn[r][c] != Box
    ensures !AllGoalsCovered(terrain, dyn)
  {
  }

  /** No level of the table starts out won. */
  lemma LoadLevelUnwon(i: nat)
    requires i < LevelCount
    ensures !AllGoalsCovered(LoadLevel(i).terrain, LoadLevel(i).dyn)
  {
    if i == 0 {
      Level0Unwon();
    } else if i == 1 {
      Level1Unwon();
    } else if i == 2 {
      Level2Unwon();
    } else if i == 3 {
      Level3Unwon();
    } else {
      assert i == 4;
      Level4Unwon();
    }
  }

  lemma Level0Unwon()
    ensures SameShape(TerrainOf(0), LayoutOf(0)) && !AllGoalsCovered(TerrainOf(0), LayoutOf(0))
  {
    assert TerrainOf(0) == Terrain0 && LayoutOf(0) == Layout0;
    Level0Shape();
    Level0OpenGoal();
    OpenGoalMeansUnwon(Terrain0, Layout0, 2, 4);
  }

  lemma Level1Unwon()
    ensures SameShape(TerrainOf(1), LayoutOf(1)) && !AllGoalsCovered(TerrainOf(1), LayoutOf(1))
  {
    assert TerrainOf(1) == Terrain1 && LayoutOf(1) == Layout1;
    Level1Shape();
    Level1OpenGoal();
    OpenGoalMeansUnwon(Terrain1, Layout1, 3, 3);
  }

  lemma Level2Unwon()
    ensures SameShape(TerrainOf(2), LayoutOf(2)) && !AllGoalsCovered(TerrainOf(2), LayoutOf(2))
  {
    assert TerrainOf(2) == Terrain2 && LayoutOf(2) == Layout2;
    Level2Shape();
    Level2OpenGoal();
    OpenGoalMeansUnwon(Terrain2, Layout2, 2, 3);
  }

  lemma Level3Unwon()
    ensures SameShape(TerrainOf(3), LayoutOf(3)) && !AllGoalsCovered(TerrainOf(3), LayoutOf(3))
  {
    assert TerrainOf(3) == Terrain3 && LayoutOf(3) == Layout3;
    Level3Shape();
    Level3OpenGoal();
    OpenGoalMeansUnwon(Terrain3, Layout3, 4, 3);
  }

  lemma Level4Unwon()
    ensures SameShape(TerrainOf(4), LayoutOf(4)) && !AllGoalsCovered(TerrainOf(4), LayoutOf(4))
  {
    assert TerrainOf(4) == Terrain4 && LayoutOf(4) == Layout4;
    Level4Shape();
    Level4OpenGoal();
    OpenGoalMeansUnwon(Terrain4, Layout4, 2, 4);
  }

  /** The session as it starts without saved progress: level 0 loaded. */
  function NewGame(): (g: Game)
    ensures g.Playing? && g.level == 0 && g.board == LoadLevel(0)
    ensures GameValid(g)
  {
    LoadLevelUnwon(0);
    Playing(0, LoadLevel(0))
  }

  /** After a win on level l: level l + 1 when the table has it, the end
      otherwise. */
  function Advance(l: nat): (g: Game)
    ensures g.level == l + 1
    ensures g.Playing? <==> (l + 1) * 2 < |Levels|
    ensures g.Playing? ==> g.board == LoadLevel(l + 1) && Valid(g.board)
  {
    if (l + 1) * 2 < |Levels| then Playing(l + 1, LoadLevel(l + 1)) else Finished(l + 1)
  }

  /** Advancing from a level of the table keeps the session invariant. */
  lemma AdvanceValid(l: nat)
    requires l < LevelCount
    ensures GameValid(Advance(l))
  {
    if l + 1 < LevelCount {
      LoadLevelUnwon(l + 1);
    }
  }

  /** Handles one key press. Keys other than the arrows change nothing; an
      arrow resolves a move, and unless the move left early the win check
      runs on the resulting board, advancing on a win. */
  function ProcessMove(g: Game, key: int): (r: Game)
    requires g.Playing? ==> WellFormed(g.board)
    ensures r.Playing? ==> WellFormed(r.board)
    ensures g.Finished? ==> r == g
    ensures KeyDirection(key).None? ==> r == g
    // the level index moves by exactly one, and only on a win
    ensures r.level == g.level || r.level == g.level + 1
    ensures r.level == g.level + 1 <==>
              && g.Playing? && KeyDirection(key).Some?
              && var (b, o) := Move(g.board, KeyDirection(key).value);
                 ReachesWinCheck(o) && AllGoalsCovered(b.terrain, b.dyn)
    // on a win the next level is loaded when the table has one, else the game ends
    ensures r.level == g.level + 1 ==> r == Advance(g.level)
    // without a win the level stays and the board is the move's result
    ensures r.level == g.level && g.Playing? && KeyDirection(key).Some? ==>
              r == Playing(g.level, Move(g.board, KeyDirection(key).value).0)
  {
    match g
    case Finished(_) => g
    case Playing(l, board) =>
      match KeyDirection(key)
      case None => g
      case Some(d) =>
        var (b, o) := Move(board, d);
        if ReachesWinCheck(o) && AllGoalsCovered(b.terrain, b.dyn) then Advance(l)
        else Playing(l, b)
  }

  /** Every key press keeps the session invariant: exactly one player at
      the cached coordinate on the current level's own terrain, or the end
      reached one past the last level. */
  lemma ProcessMovePreservesGameValid(g: Game, key: int)
    requires GameValid(g)
    ensures GameValid(ProcessMove(g, key))
  {
    if g.Playing? && KeyDirection(key).Some? {
      MovePreservesValid(g.board, KeyDirection(key).value);
      AdvanceValid(g.level);
    }
  }

  /** While the level does not change, a key press never alters the terrain
      and never creates or destroys a box. */
  lemma ProcessMoveKeepsLevelContents(g: Game, key: int)
    requires GameValid(g) && g.Playing?
    requires ProcessMove(g, key).level == g.level
    ensures ProcessMove(g, key).Playing?
    ensures ProcessMove(g, key).board.terrain == g.board.terrain
    ensures Count(ProcessMove(g, key).board.dyn, Box) == Count(g.board.dyn, Box)
  {
    if KeyDirection(key).Some? {
      MovePreservesValid(g.board, KeyDirection(key).value);
    }
  }

  /** A key press that leaves the player where it was leaves the whole
      session unchanged: the board in play is never already won. */
  lemma BlockedMoveChangesNothing(g: Game, key: int)
    requires GameValid(g) && g.Playing? && KeyDirection(key).Some?
    requires Move(g.board, KeyDirection(key).value).1 !in {Stepped, Pushed}
    ensures ProcessMove(g, key) == g
  {
  }

  /** Which refusals reach the win check. A wall in the way, a box behind
      the box or a read off the grid leaves the key handler early, so the
      session stays as it was even on a won board; a push the terrain beyond
      refuses, or a step onto other terrain, goes on to the win check, which
      advances exactly when the unchanged board is won. */
  lemma RefusalsAndTheWinCheck(g: Game, key: int)
    requires g.Playing? && WellFormed(g.board) && KeyDirection(key).Some?
    ensures var o := Move(g.board, KeyDirection(key).value).1;
            o in {IntoWall, BoxBehindBox, OffGrid} ==> ProcessMove(g, key) == g
    ensures var o := Move(g.board, KeyDirection(key).value).1;
            o in {PushRefused, StepRefused} ==>
              (ProcessMove(g, key) == Advance(g.level) <==> AllGoalsCovered(g.board.terrain, g.board.dyn))
              && (ProcessMove(g, key) == g <==> !AllGoalsCovered(g.board.terrain, g.board.dyn))
  {
  }

  /** The session after a sequence of key presses. */
  function Run(g: Game, keys: seq<int>): (r: Game)
    requires GameValid(g)
    ensures GameValid(r)
    ensures g.level <= r.level <= g.level + |keys|
    decreases |keys|
  {
    if |keys| == 0 then g
    else
      ProcessMovePreservesGameValid(g, keys[0]);
      Run(ProcessMove(g, keys[0]), keys[1..])
  }

  /** Once the end is reached no key press changes anything, however many
      follow. */
  lemma {:induction false} FinishedIsTerminal(g: Game, keys: seq<int>)
    requires GameValid(g) && g.Finished?
    ensures Run(g, keys) == g
    decreases |keys|
  {
    if |keys| > 0 {
      FinishedIsTerminal(ProcessMove(g, keys[0]), keys[1..]);
    }
  }
}
