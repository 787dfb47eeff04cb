/** Move resolution: one arrow key turns into a step, a box push, or nothing. */
module Moves {
  import opened Wrappers
  import opened Grid

  datatype Direction = Up | Down | Left | Right

  /** Key codes of the arrow keys (java.awt.event.KeyEvent.VK_LEFT .. VK_DOWN). */
  const KeyLeft := 37
  const KeyUp := 38
  const KeyRight := 39
  const KeyDown := 40

  /** The direction an arrow key asks for; any other key asks for nothing. */
  function KeyDirection(code: int): (d: Option<Direction>)
    ensures d == Some(Up) <==> code == KeyUp
    ensures d == Some(Down) <==> code == KeyDown
    ensures d == Some(Left) <==> code == KeyLeft
    ensures d == Some(Right) <==> code == KeyRight
  {
    if code == KeyUp then Some(Up)
    else if code == KeyLeft then Some(Left)
    else if code == KeyDown then Some(Down)
    else if code == KeyRight then Some(Right)
    else None
  }

  /** Row and column offsets of one step in direction d. */
  function RowStep(d: Direction): int
  {
    match d
    case Up => -1
    case Down => 1
    case Left => 0
    case Right => 0
  }

  function ColStep(d: Direction): int
  {
    match d
    case Up => 0
    case Down => 0
    case Left => -1
    case Right => 1
  }

  /** One level in play: the terrain layer, the dynamic layer and the cached
      player coordinate. */
  datatype Board = Board(terrain: Grid, dyn: Grid, row: int, col: int)

  /** What move resolution relies on: both layers have one shape and the
      cached coordinate lies inside it. */
  predicate WellFormed(b: Board)
  {
    SameShape(b.terrain, b.dyn) && InBounds(b.terrain, b.row, b.col)
  }

  /** The board invariant: exactly one player, at the cached coordinate. */
  predicate Valid(b: Board)
  {
    WellFormed(b) && b.dyn[b.row][b.col] == Player && Count(b.dyn, Player) == 1
  }

  /** Terrain a player or a box may enter. */
  predicate Enterable(t: char)
  {
    t == Empty || t == Goal
  }

  /** How a move request was resolved. OffGrid stands for a read outside the
      grid, which aborts the request before anything is written. */
  datatype Outcome = Stepped | Pushed | OffGrid | IntoWall | BoxBehindBox | PushRefused | StepRefused

  /** The outcomes after which the request goes on to the win check; the
      others leave the request early. */
  predicate ReachesWinCheck(o: Outcome)
  {
    o == Stepped || o == Pushed || o == PushRefused || o == StepRefused
  }

  /** The player walks from its cell to the neighbouring cell (nr, nc). */
  function Walk(b: Board, nr: int, nc: int): (r: Board)
    requires WellFormed(b) && InBounds(b.terrain, nr, nc)
    requires (nr, nc) != (b.row, b.col)
    ensures r.terrain == b.terrain
    ensures SameShape(r.dyn, b.dyn) && (r.row, r.col) == (nr, nc)
    ensures r.dyn[nr][nc] == Player && r.dyn[b.row][b.col] == Empty
    ensures forall i, j :: InBounds(b.dyn, i, j) && (i, j) != (nr, nc) && (i, j) != (b.row, b.col)
              ==> r.dyn[i][j] == b.dyn[i][j]
    ensures WellFormed(r)
  {
    Board(b.terrain, Set(Set(b.dyn, nr, nc, Player), b.row, b.col, Empty), nr, nc)
  }

  /** The player walks onto (nr, nc) and shoves the box there onto (br, bc). */
  function Push(b: Board, nr: int, nc: int, br: int, bc: int): (r: Board)
    requires WellFormed(b) && InBounds(b.terrain, nr, nc) && InBounds(b.terrain, br, bc)
    requires (nr, nc) != (b.row, b.col) && (br, bc) != (b.row, b.col) && (br, bc) != (nr, nc)
    ensures r.terrain == b.terrain
    ensures SameShape(r.dyn, b.dyn) && (r.row, r.col) == (nr, nc)
    ensures r.dyn[br][bc] == Box && r.dyn[nr][nc] == Player && r.dyn[b.row][b.col] == Empty
    ensures forall i, j :: InBounds(b.dyn, i, j) && (i, j) != (br, bc) && (i, j) != (nr, nc) && (i, j) != (b.row, b.col)
              ==> r.dyn[i][j] == b.dyn[i][j]
    ensures WellFormed(r)
  {
    Board(b.terrain, Set(Set(Set(b.dyn, br, bc, Box), nr, nc, Player), b.row, b.col, Empty), nr, nc)
  }

  /** The player at its cell tries to move onto (nr, nc), which holds a box
      to be shoved onto (br, bc). */
  function PushBox(b: Board, nr: int, nc: int, br: int, bc: int): (r: (Board, Outcome))
    requires WellFormed(b) && InBounds(b.terrain, nr, nc)
    requires (nr, nc) != (b.row, b.col) && (br, bc) != (b.row, b.col) && (br, bc) != (nr, nc)
    ensures r.0.terrain == b.terrain && WellFormed(r.0)
    ensures r.1 == OffGrid <==> !InBounds(b.terrain, br, bc)
    ensures r.1 == BoxBehindBox <==> InBounds(b.terrain, br, bc) && b.dyn[br][bc] == Box
    ensures r.1 == Pushed <==> InBounds(b.terrain, br, bc) && b.dyn[br][bc] != Box && Enterable(b.terrain[br][bc])
    ensures r.1 == Pushed ==> r.0 == Push(b, nr, nc, br, bc)
    ensures r.1 != Pushed ==> r.0 == b && r.1 in {OffGrid, BoxBehindBox, PushRefused}
  {
    if !InBounds(b.terrain, br, bc) then (b, OffGrid)
    else if b.dyn[br][bc] == Box then (b, BoxBehindBox)
    else if Enterable(b.terrain[br][bc]) then (Push(b, nr, nc, br, bc), Pushed)
    else (b, PushRefused)
  }

  /** Resolves a move of the player onto (nr, nc), where a box found there
      would be shoved onto (br, bc). Walls block; a box is pushed only onto
      empty or goal terrain not holding another box; a plain step needs empty
      or goal terrain. Every refusal leaves the board as it was. */
  function Resolve(b: Board, nr: int, nc: int, br: int, bc: int): (r: (Board, Outcome))
    requires WellFormed(b)
    requires (nr, nc) != (b.row, b.col) && (br, bc) != (b.row, b.col) && (br, bc) != (nr, nc)
    ensures r.0.terrain == b.terrain && WellFormed(r.0)
    ensures r.1 != Stepped && r.1 != Pushed ==> r.0 == b
    // a wall in the way blocks the move, and only a wall gives IntoWall
    ensures r.1 == IntoWall <==> InBounds(b.terrain, nr, nc) && b.terrain[nr][nc] == Wall
    // a box cannot be pushed into another box
    ensures r.1 == BoxBehindBox <==>
              && InBounds(b.terrain, nr, nc) && b.terrain[nr][nc] != Wall && b.dyn[nr][nc] == Box
              && InBounds(b.terrain, br, bc) && b.dyn[br][bc] == Box
    // a box whose cell beyond is free but neither floor nor goal stays put
    ensures r.1 == PushRefused <==>
              && InBounds(b.terrain, nr, nc) && b.terrain[nr][nc] != Wall && b.dyn[nr][nc] == Box
              && InBounds(b.terrain, br, bc) && b.dyn[br][bc] != Box && !Enterable(b.terrain[br][bc])
    // a target that is neither wall nor floor nor goal, without a box, is not entered
    ensures r.1 == StepRefused <==>
              && InBounds(b.terrain, nr, nc) && b.terrain[nr][nc] != Wall && b.dyn[nr][nc] != Box
              && !Enterable(b.terrain[nr][nc])
    // a push happens exactly when the cell beyond the box is free and enterable
    ensures r.1 == Pushed <==>
              && InBounds(b.terrain, nr, nc) && b.terrain[nr][nc] != Wall && b.dyn[nr][nc] == Box
              && InBounds(b.terrain, br, bc) && b.dyn[br][bc] != Box && Enterable(b.terrain[br][bc])
    ensures r.1 == Pushed ==> r.0 == Push(b, nr, nc, br, bc)
    // a plain step happens exactly when the target is enterable and holds no box
    ensures r.1 == Stepped <==>
              InBounds(b.terrain, nr, nc) && Enterable(b.terrain[nr][nc]) && b.dyn[nr][nc] != Box
    ensures r.1 == Stepped ==> r.0 == Walk(b, nr, nc)
    // a read outside the grid aborts the move
    ensures r.1 == OffGrid <==>
              || !InBounds(b.terrain, nr, nc)
              || (b.terrain[nr][nc] != Wall && b.dyn[nr][nc] == Box && !InBounds(b.terrain, br, bc))
  {
    if !InBounds(b.terrain, nr, nc) then (b, OffGrid)
    else if b.terrain[nr][nc] == Wall then (b, IntoWall)
    else if b.dyn[nr][nc] == Box then PushBox(b, nr, nc, br, bc)
    else if Enterable(b.terrain[nr][nc]) then (Walk(b, nr, nc), Stepped)
    else (b, StepRefused)
  }

  /** The cell one step from the player in direction d. */
  function Target(b: Board, d: Direction): (int, int)
  {
    (b.row + RowStep(d), b.col + ColStep(d))
  }

  /** The cell one step beyond the target, where a box on the target would
      go: the target mirrored away from the player, two steps in direction d. */
  function Beyond(b: Board, d: Direction): (p: (int, int))
    ensures p == (b.row + 2 * RowStep(d), b.col + 2 * ColStep(d))
  {
    var (nr, nc) := Target(b, d);
    (nr + (nr - b.row), nc + (nc - b.col))
  }

  /** Resolves one move request in direction d: the player either stays
      and nothing changes, or ends one step away in direction d. */
  function Move(b: Board, d: Direction): (r: (Board, Outcome))
    requires WellFormed(b)
    ensures r.0.terrain == b.terrain && WellFormed(r.0)
    ensures r.1 != Stepped && r.1 != Pushed ==> r.0 == b
    ensures r.1 == Stepped || r.1 == Pushed ==> (r.0.row, r.0.col) == (b.row + RowStep(d), b.col + ColStep(d))
  {
    var (nr, nc) := Target(b, d);
    var (br, bc) := Beyond(b, d);
    Resolve(b, nr, nc, br, bc)
  }

  /** A step keeps exactly one player at the cached coordinate and keeps
      the number of boxes. */
  lemma WalkPreservesValid(b: Board, nr: int, nc: int)
    requires Valid(b) && InBounds(b.terrain, nr, nc) && (nr, nc) != (b.row, b.col)
    requires b.dyn[nr][nc] != Box
    ensures Valid(Walk(b, nr, nc))
    ensures Count(Walk(b, nr, nc).dyn, Box) == Count(b.dyn, Box)
  {
    if b.dyn[nr][nc] == Player {
      UniqueCell(b.dyn, b.row, b.col, nr, nc, Player);
    }
    var g1 := Set(b.dyn, nr, nc, Player);
    CountUpdate(b.dyn, nr, nc, Player, Player);
    CountUpdate(b.dyn, nr, nc, Player, Box);
    CountUpdate(g1, b.row, b.col, Empty, Player);
    CountUpdate(g1, b.row, b.col, Empty, Box);
  }

  /** A push keeps exactly one player at the cached coordinate and keeps
      the number of boxes. */
  lemma PushPreservesValid(b: Board, nr: int, nc: int, br: int, bc: int)
    requires Valid(b) && InBounds(b.terrain, nr, nc) && InBounds(b.terrain, br, bc)
    requires (nr, nc) != (b.row, b.col) && (br, bc) != (b.row, b.col) && (br, bc) != (nr, nc)
    requires b.dyn[nr][nc] == Box && b.dyn[br][bc] != Box
    ensures Valid(Push(b, nr, nc, br, bc))
    ensures Count(Push(b, nr, nc, br, bc).dyn, Box) == Count(b.dyn, Box)
  {
    if b.dyn[br][bc] == Player {
      UniqueCell(b.dyn, b.row, b.col, br, bc, Player);
    }
    var g1 := Set(b.dyn, br, bc, Box);
    var g2 := Set(g1, nr, nc, Player);
    CountUpdate(b.dyn, br, bc, Box, Player);
    CountUpdate(b.dyn, br, bc, Box, Box);
    CountUpdate(g1, nr, nc, Player, Player);
    CountUpdate(g1, nr, nc, Player, Box);
    CountUpdate(g2, b.row, b.col, Empty, Player);
    CountUpdate(g2, b.row, b.col, Empty, Box);
  }

  /** Every move keeps the board invariant (one player, at the cached
      coordinate), never touches the terrain and keeps the number of boxes. */
  lemma MovePreservesValid(b: Board, d: Direction)
    requires Valid(b)
    ensures Valid(Move(b, d).0)
    ensures Move(b, d).0.terrain == b.terrain
    ensures Count(Move(b, d).0.dyn, Box) == Count(b.dyn, Box)
  {
    var (nr, nc) := Target(b, d);
    var (br, bc) := Beyond(b, d);
    match Move(b, d).1
    case Stepped => WalkPreservesValid(b, nr, nc);
    case Pushed => PushPreservesValid(b, nr, nc, br, bc);
    case _ =>
  }
}
