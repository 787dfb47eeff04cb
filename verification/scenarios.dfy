/** Concrete situations worked through the model: a push against a wall, a
    push onto floor, and a goal under the player versus under a box. */
module Scenarios {
  import opened Grid
  import opened Catalog
  import opened Moves
  import opened Loading
  import opened Win
  import opened Game

  const Corridor4: Grid := [ "####", "#G #", "####" ]
  const Corridor5: Grid := [ "#####", "#   #", "#####" ]

  /** Player at (1,1) on a goal, box at (1,2), wall at (1,3): pushing right
      is refused, and as the goal still lacks a box the key press leaves the
      session unchanged. */
  lemma PushIntoWallRefused()
    ensures var b := Board(Corridor4, [ "    ", " @B ", "    " ], 1, 1);
            Move(b, Right) == (b, PushRefused)
    ensures var b := Board(Corridor4, [ "    ", " @B ", "    " ], 1, 1);
            ProcessMove(Playing(0, b), KeyRight) == Playing(0, b)
  {
    assert Corridor4[1][1] == Goal;
  }

  /** Player at (1,1), box at (1,2), floor at (1,3): pushing right moves the
      box to (1,3) and the player to (1,2). */
  lemma PushOntoFloor()
    ensures var r := Move(Board(Corridor5, [ "     ", " @B  ", "     " ], 1, 1), Right);
            && r.1 == Pushed && (r.0.row, r.0.col) == (1, 2)
            && r.0.dyn[1][1] == Empty && r.0.dyn[1][2] == Player && r.0.dyn[1][3] == Box
  {
  }

  /** A goal covered by the player is not won; covered by a box it is. */
  lemma GoalNeedsBox()
    ensures !AllGoalsCovered([ "###", "#G#", "###" ], [ "   ", " @ ", "   " ])
    ensures AllGoalsCovered([ "###", "#G#", "###" ], [ "   ", " B ", "   " ])
  {
    assert [ "###", "#G#", "###" ][1][1] == Goal;
  }

}
