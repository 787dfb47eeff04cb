# Sokoban puzzle engine

A Dafny model of the game core of `SokobanGUI`: the static table of five
levels, loading a level, resolving one arrow-key move (a step or a box push),
detecting a win, advancing to the next level or to the end of the game, and
saving and restoring the level index.

A level is two grids of characters of the same shape. The terrain grid holds
walls `#`, goals `G` and floor ` `. The dynamic grid holds the player `@`,
boxes `B` and empty cells ` `. Next to them the game caches the player's
coordinate. In the model these three things are a `Board`, and a session is a
`Game`: `Playing(level, board)`, or `Finished(level)` once the last level is
won (the program shows a message and exits there).

Modules, one per concern:

- `Grid` (grid.dfy): grids, the game's characters, single-cell update, cell counts.
- `Catalog` (catalog.dfy): the level table, stored as the program stores it: entry `2i` is the terrain of level `i`, entry `2i+1` its initial dynamic grid.
- `Moves` (moves.dfy): key codes to directions, and `Move`, a pure function from a board and a direction to the new board and an `Outcome`.
- `Loading` (loading.dfy): the row-major search for the player, and `LoadLevel`.
- `Win` (win.dfy): the win predicate and the scanning method that decides it.
- `Game` (game.dfy): the key handler `ProcessMove` with the win check and level advance, and `Run` over a sequence of keys.
- `Progress` (progress.dfy): save and load against a map from file name to record.
- `Scenarios` (scenarios.dfy): small concrete boards worked through `Move` and the win predicate.

Choices the model makes explicit:

- Bounds. The program never checks bounds; it relies on walls enclosing the
  reachable area. The model adds an explicit guard: a target cell or a box
  target outside the grid gives `OffGrid` and leaves the board unchanged. That
  is also what the program does. Its out-of-range read throws before anything
  is written, so `processMove` ends without the win check.
- Win check. The program checks for a win after every move that does not return
  early. The early returns are a wall in the way (SokobanGUI.java:281-282) and a
  box behind the box (287-288). So the check also runs after a push that the
  terrain beyond the box refuses. `ReachesWinCheck` says which outcomes go on to
  the check, and `ProcessMove` follows it.
- Keys are integer key codes with the `java.awt.event.KeyEvent` values of the
  arrows (left 37, up 38, right 39, down 40). Any other code changes nothing.
- Level dimensions. The program does not validate a level's dimensions when it
  loads it. The model instead proves every level of the table well formed
  (`CatalogWellFormed`).
- Refusals and the win check. The program also runs the win check after a push
  the terrain beyond the box refuses and after a refused step; the model does
  the same (`Game.RefusalsAndTheWinCheck`). In a session reached by play this
  makes no difference: no level starts won (`Game.LoadLevelUnwon`), a won
  board is advanced from at once, so the board in play is never won and every
  refusal leaves the session unchanged (`Game.BlockedMoveChangesNothing`).

## Model

| member | source | states |
|---|---|---|
| Catalog.CatalogWellFormed | SokobanGUI.java:22-31 | every level's terrain and initial dynamic grid have identical dimensions, the terrain is non-empty, the dynamic grid holds exactly one player, and there are as many boxes as goals |
| Moves.KeyDirection | SokobanGUI.java:264-279 | exactly the four arrow key codes map to their directions; every other key maps to no direction |
| Moves.Walk | SokobanGUI.java:296-300 | a step puts the player on the target and empties the old cell; the cached coordinate becomes the target; the terrain and every other cell are unchanged |
| Moves.Push | SokobanGUI.java:289-294 | a push puts a box beyond, the player on the former box cell and empties the old player cell; the coordinate moves one step; the terrain and every other cell are unchanged |
| Moves.PushBox | SokobanGUI.java:284-295 | with a box on the target: the move is aborted iff the cell beyond lies outside the grid, refused iff a box stands beyond, carried out iff the cell beyond is free with empty or goal terrain, and refused otherwise; every refusal leaves the board unchanged |
| Moves.Resolve | SokobanGUI.java:281-301 | the terrain is never changed; the move meets a wall iff the target is a wall; it meets a box behind the box iff the target holds a box and the cell beyond, in the grid, holds another; the push is refused iff the cell beyond is in the grid, holds no box and is neither floor nor goal; the step is refused iff the target is neither wall, floor nor goal and holds no box; a push happens iff the cell beyond the box is in the grid, holds no box and has empty or goal terrain; a plain step happens iff the target has empty or goal terrain and no box; every outcome other than a step or a push leaves the board as it was |
| Moves.Move | SokobanGUI.java:260-286 | the player either stays and the board is unchanged, or ends exactly one step away in the key's direction; the terrain never changes |
| Moves.Beyond | SokobanGUI.java:285-286 | the cell a pushed box goes to lies two steps from the player in the key's direction |
| Moves.WalkPreservesValid | SokobanGUI.java:296-300 | after a step there is still exactly one player, at the cached coordinate, and the number of boxes is unchanged |
| Moves.PushPreservesValid | SokobanGUI.java:289-294 | after a push there is still exactly one player, at the cached coordinate, and the number of boxes is unchanged |
| Moves.MovePreservesValid | SokobanGUI.java:281-301 | every move keeps exactly one player at the cached coordinate, leaves the terrain untouched and keeps the number of boxes |
| Loading.ScanRow | SokobanGUI.java:168-174 | returns the first column of the row that holds the player, or reports that the rest of the row holds none |
| Loading.ScanRows | SokobanGUI.java:167-175 | returns the first player cell in row-major order from a row on, or reports that those rows hold none |
| Loading.FindPlayer | SokobanGUI.java:166-176 | returns the first player cell in row-major order over the terrain's extent, and returns nothing iff no such cell holds the player |
| Loading.FindPlayerFindsOnlyPlayer | SokobanGUI.java:163-176 | on a grid with exactly one player the search succeeds, and the cell it finds is the only player cell |
| Loading.LoadLevel | SokobanGUI.java:152-164 | level i's board has terrain `levels[2i]` and dynamic grid `levels[2i+1]`, exactly one player at the cached coordinate, and that coordinate is where the search finds the player |
| Win.IsGameWon | SokobanGUI.java:252-258 | the scan returns true iff every goal cell of the terrain holds a box; when false, some goal holds no box |
| Win.NonGoalCellsDoNotMatter | SokobanGUI.java:255 | changing a non-goal cell, a box off the goals included, does not change whether the level is won |
| Win.NoGoalsMeansWon | SokobanGUI.java:252-258 | a level without goal cells counts as won |
| Game.LoadLevelUnwon | SokobanGUI.java:22-31 | no level of the table is won as loaded: each has a goal its initial dynamic grid leaves without a box |
| Game.NewGame | SokobanGUI.java:33-55 | a session without saved progress starts on level 0 as loaded, with the session invariant holding |
| Game.Advance | SokobanGUI.java:304-311 | after a win the level index is one higher; the next level is loaded iff `2 * index` is below the table length, else the game has ended |
| Game.AdvanceValid | SokobanGUI.java:304-311 | advancing from a level of the table lands on the next level's own terrain with one player at the cached coordinate and not yet won, or on the end exactly one past the last level |
| Game.ProcessMove | SokobanGUI.java:260-313 | a non-arrow key and a key after the end change nothing; the level index rises by exactly one iff the move reached the win check and every goal then holds a box, and then the session is the level advance; otherwise the board is the move's result on the same level |
| Game.ProcessMovePreservesGameValid | SokobanGUI.java:281-311 | every key press keeps the session invariant: a level of the table with its own terrain, one player at the cached coordinate and not yet won, or the end one past the last level |
| Game.ProcessMoveKeepsLevelContents | SokobanGUI.java:284-301 | a key press that does not change the level keeps the terrain and the number of boxes |
| Game.BlockedMoveChangesNothing | SokobanGUI.java:281-303 | in every valid session, a move that neither steps nor pushes leaves the whole session unchanged, since the board in play is never already won |
| Game.RefusalsAndTheWinCheck | SokobanGUI.java:281-307 | on any well-formed board, a wall in the way, a box behind the box or a read off the grid leaves the session unchanged even on a won board; after a push refused by the terrain or a refused step the session advances iff the unchanged board is won, and is otherwise unchanged |
| Game.Run | SokobanGUI.java:67-73 | a sequence of key presses keeps the session invariant and raises the level index by at most one per key |
| Game.FinishedIsTerminal | SokobanGUI.java:308-311 | once the game has ended, no sequence of keys changes it |
| Progress.SaveProgress | SokobanGUI.java:330-342 | a guest is refused and nothing is written; a user's file name is mapped to the level index and the terrain grid, and every other name keeps its record |
| Progress.LoadSavedProgress | SokobanGUI.java:344-357 | a guest or a user without a file changes nothing; otherwise the saved level index is loaded in its initial layout and the saved grid is ignored |
| Progress.SaveKeepsStoreInTable | SokobanGUI.java:335-338 | a save from a valid session writes only a level index of the table, so a store holding only such indices keeps holding only such indices |
| Progress.LoadFromTableStore | SokobanGUI.java:344-352 | on a store holding only table indices, a load keeps the session invariant and a user's record always reloads its level |
| Progress.SaveLoadRoundTrip | SokobanGUI.java:335-349 | loading after a save restores the saved level index, with that level in its initial layout, whatever the session became in between |
| Progress.GuestCannotPersist | SokobanGUI.java:331-334 | a guest's save writes nothing, and a guest's load changes nothing |
| Progress.ProgressFileInjective | SokobanGUI.java:335 | two users share a progress file name iff they are the same user |
| Scenarios.PushIntoWallRefused | SokobanGUI.java:289-303 | with a wall beyond the box, pushing toward it is refused and the board is unchanged; with a goal still uncovered, the key press leaves the session unchanged |
| Scenarios.PushOntoFloor | SokobanGUI.java:289-294 | with floor beyond the box, pushing moves the box one cell and the player onto the box's old cell |
| Scenarios.GoalNeedsBox | SokobanGUI.java:255 | a goal covered by the player is not won; a goal covered by a box is |

## Left out

- Swing rendering, the frame, the menu and the key listener's repaint (SokobanGUI.java:43-80, 178-250, 315-328). These are UI plumbing. `Game.Run` stands for the stream of key presses the listener delivers.
- Login and registration (SokobanGUI.java:82-150). The model receives the current user as an optional string.
- The end-of-game message dialog and `System.exit` (SokobanGUI.java:309-310). They are the terminal `Finished` state.
- I/O failures. `Progress.SaveProgress` does not model a failing write (SokobanGUI.java:339-341): the file system here is a map that always accepts the record. A missing file on load is modelled as the absent map key (SokobanGUI.java:354-356).
- Progress.LoadSavedProgress: a record whose level index lies outside the table leaves the session unchanged. The program would first assign that index and then, for almost every such index, fail with an out-of-range read in `loadLevel`. The exceptions are `Integer.MIN_VALUE + k` for k in 0..4: in 32-bit arithmetic the doubled index wraps to 2k (SokobanGUI.java:153-154), so level k is loaded under the wrapped index, and the advance test at line 305 wraps the same way. The model's unbounded `int` leaves the session unchanged for these indices too. The program only ever saves its `currentLevel`, which stays within 0..4 while a level is in play. `Progress.SaveKeepsStoreInTable` proves that saves from a valid session write only such indices, and `Progress.LoadFromTableStore` proves that on a store holding only such indices the fallback never applies. A store written by other means is outside the model.
- Progress.SaveProgress: the store is keyed by the file name as written. The program opens `currentUser + "_progress.dat"` as a relative path (SokobanGUI.java:335, 347), so path resolution (users `a` and `./a` name one file) and case-insensitive file systems (`Alice` and `alice`) are outside the model; there one user's save can overwrite another's progress.
- The second `findPlayerPosition` call after loading saved progress (SokobanGUI.java:351) is not a separate step. `Loading.LoadLevel` already guarantees that the search finds the cached coordinate.
- Loading.FindPlayer: when no player exists, the program keeps the previous coordinates, while the model returns `None`. `Loading.LoadLevel` proves this never happens for the table.
- The constructor's start-up sequence (SokobanGUI.java:43-55) is not modelled beyond `Game.NewGame`. Note that it calls `loadSavedProgress` (line 49) before `gamePanel` is created (line 57). For a logged-in user who has a progress file, `gamePanel.repaint()` at line 352 would therefore dereference null.
- The claim that walls enclose every cell reachable in the table's levels is not proved. The explicit bounds guard makes the model independent of it.
