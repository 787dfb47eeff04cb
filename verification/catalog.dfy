/** The static level table: five levels, each stored as a terrain grid
    (walls, goals, empty floor) followed by its initial dynamic grid
    (player, boxes, empty). */
module Catalog {
  import opened Grid

  const Terrain0: Grid := [ "######", "#    #", "#   G#", "# G  #", "######" ]
  const Layout0: Grid :=  [ "      ", " @    ", "   B  ", "   B  ", "      " ]
  const Terrain1: Grid := [ "####### ", "#     ##", "#      #", "# #G  G#", "#      #", "########" ]
  const Layout1: Grid :=  [ "        ", " @      ", "  BB    ", "        ", "        ", "        " ]
  const Terrain2: Grid := [ "  #### ", "###  ##", "#  G  #", "#     #", "# #G  #", "#     #", "#######" ]
  const Layout2: Grid :=  [ "       ", "       ", " @  B  ", "    B  ", "       ", "       ", "       " ]
  const Terrain3: Grid := [ " ##### ", "##   ##", "#  #  #", "#  G  #", "#  G  #", "#  G  #", "#######" ]
  const Layout3: Grid :=  [ "       ", "  @    ", "       ", "  BBB  ", "       ", "       ", "       " ]
  const Terrain4: Grid := [ "######  ", "#    ###", "#   GG #", "#      #", "#  # G #", "########" ]
  const Layout4: Grid :=  [ "        ", "        ", "        ", "  BBB@  ", "        ", "        " ]

  /** The table as the game stores it: entry 2i is level i's terrain and
      entry 2i+1 its initial dynamic grid. */
  const Levels: seq<Grid> := [ Terrain0, Layout0, Terrain1, Layout1, Terrain2, Layout2,
                               Terrain3, Layout3, Terrain4, Layout4 ]

  /** Number of playable levels. */
  const LevelCount: nat := |Levels| / 2

  /** What loading a level relies on: a non-empty terrain grid and a dynamic
      grid of the same shape holding exactly one player. */
  predicate WellFormedLevel(terrain: Grid, layout: Grid)
  {
    && |terrain| > 0
    && SameShape(terrain, layout)
    && Count(layout, Player) == 1
  }

  function TerrainOf(i: nat): Grid
    requires i < LevelCount
  {
    Levels[2 * i]
  }

  function LayoutOf(i: nat): Grid
    requires i < LevelCount
  {
    Levels[2 * i + 1]
  }

  lemma Level0Shape() ensures SameShape(Terrain0, Layout0) {}
  lemma Level0OnePlayer() ensures Count(Layout0, Player) == 1 {}
  lemma Level0Boxes() ensures Count(Layout0, Box) == 2 {}
  lemma Level0Goals() ensures Count(Terrain0, Goal) == 2 {}

  lemma Level0WellFormed()
    ensures WellFormedLevel(TerrainOf(0), LayoutOf(0))
    ensures Count(LayoutOf(0), Box) == Count(TerrainOf(0), Goal)
  {
    assert TerrainOf(0) == Terrain0 && LayoutOf(0) == Layout0;
    Level0Shape(); Level0OnePlayer(); Level0Boxes(); Level0Goals();
  }

  lemma Level1Shape() ensures SameShape(Terrain1, Layout1) {}
  lemma Level1OnePlayer() ensures Count(Layout1, Player) == 1 {}
  lemma Level1Boxes() ensures Count(Layout1, Box) == 2 {}
  lemma Level1Goals() ensures Count(Terrain1, Goal) == 2 {}

  lemma Level1WellFormed()
    ensures WellFormedLevel(TerrainOf(1), LayoutOf(1))
    ensures Count(LayoutOf(1), Box) == Count(TerrainOf(1), Goal)
  {
    assert TerrainOf(1) == Terrain1 && LayoutOf(1) == Layout1;
    Level1Shape(); Level1OnePlayer(); Level1Boxes(); Level1Goals();
  }

  lemma Level2Shape() ensures SameShape(Terrain2, Layout2) {}
  lemma Level2OnePlayer() ensures Count(Layout2, Player) == 1 {}
  lemma Level2Boxes() ensures Count(Layout2, Box) == 2 {}
  lemma Level2Goals() ensures Count(Terrain2, Goal) == 2 {}

  lemma Level2WellFormed()
    ensures WellFormedLevel(TerrainOf(2), LayoutOf(2))
    ensures Count(LayoutOf(2), Box) == Count(TerrainOf(2), Goal)
  {
    assert TerrainOf(2) == Terrain2 && LayoutOf(2) == Layout2;
    Level2Shape(); Level2OnePlayer(); Level2Boxes(); Level2Goals();
  }

  lemma Level3Shape() ensures SameShape(Terrain3, Layout3) {}
  lemma Level3OnePlayer() ensures Count(Layout3, Player) == 1 {}
  lemma Level3Boxes() ensures Count(Layout3, Box) == 3 {}
  lemma Level3Goals() ensures Count(Terrain3, Goal) == 3 {}

  lemma Level3WellFormed()
    ensures WellFormedLevel(TerrainOf(3), LayoutOf(3))
    ensures Count(LayoutOf(3), Box) == Count(TerrainOf(3), Goal)
  {
    assert TerrainOf(3) == Terrain3 && LayoutOf(3) == Layout3;
    Level3Shape(); Level3OnePlayer(); Level3Boxes(); Level3Goals();
  }

  lemma Level4Shape() ensures SameShape(Terrain4, Layout4) {}
  lemma Level4OnePlayer() ensures Count(Layout4, Player) == 1 {}
  lemma Level4Boxes() ensures Count(Layout4, Box) == 3 {}
  lemma Level4Goals() ensures Count(Terrain4, Goal) == 3 {}

  lemma Level4WellFormed()
    ensures WellFormedLevel(TerrainOf(4), LayoutOf(4))
    ensures Count(LayoutOf(4), Box) == Count(TerrainOf(4), Goal)
  {
    assert TerrainOf(4) == Terrain4 && LayoutOf(4) == Layout4;
    Level4Shape(); Level4OnePlayer(); Level4Boxes(); Level4Goals();
  }

  /** A goal of each level that its initial dynamic grid leaves without a
      box, so no level starts out won. */
  lemma Level0OpenGoal() ensures |Terrain0| > 2 && |Terrain0[2]| > 4 && Terrain0[2][4] == Goal && Layout0[2][4] != Box {}
  lemma Level1OpenGoal() ensures |Terrain1| > 3 && |Terrain1[3]| > 3 && Terrain1[3][3] == Goal && Layout1[3][3] != Box {}
  lemma Level2OpenGoal() ensures |Terrain2| > 2 && |Terrain2[2]| > 3 && Terrain2[2][3] == Goal && Layout2[2][3] != Box {}
  lemma Level3OpenGoal() ensures |Terrain3| > 4 && |Terrain3[4]| > 3 && Terrain3[4][3] == Goal && Layout3[4][3] != Box {}
  lemma Level4OpenGoal() ensures |Terrain4| > 2 && |Terrain4[2]| > 4 && Terrain4[2][4] == Goal && Layout4[2][4] != Box {}

  /** Every level of the table is well formed and has as many boxes as goals. */
  lemma CatalogWellFormed(i: nat)
    requires i < LevelCount
    ensures WellFormedLevel(TerrainOf(i), LayoutOf(i))
    ensures Count(LayoutOf(i), Box) == Count(TerrainOf(i), Goal)
  {
    if i == 0 {
      Level0WellFormed();
    } else if i == 1 {
      Level1WellFormed();
    } else if i == 2 {
      Level2WellFormed();
    } else if i == 3 {
      Level3WellFormed();
    } else {
      assert i == 4;
      Level4WellFormed();
    }
  }
}
