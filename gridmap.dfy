/** The tagged grid map: cell tags, the exposure mask of solid cells, the
    neighbourhood query used by the flood fill and the search for the next
    unvisited empty cell. */
module GridMap {
  import opened Primitives

  /** A solid cell's tag: any value other than the empty marker `0`. */
  type MaterialId = x: int | x != 0 witness 1

  /** `0` (empty floor), `"d"` (door) or a solid material id. */
  datatype Cell = Empty | DoorCell | Solid(id: MaterialId)

  type Grid = seq<seq<Cell>>

  /** At least one row (the source reads row 0 for the width) and every
      row as wide as the first. */
  predicate Rectangular(g: Grid) {
    |g| > 0 && forall r :: 0 <= r < |g| ==> |g[r]| == |g[0]|
  }

  predicate InGrid(g: Grid, c: Coord)
    requires Rectangular(g)
  {
    0 <= c.row < |g| && 0 <= c.col < |g[0]|
  }

  function At(g: Grid, c: Coord): Cell
    requires Rectangular(g) && InGrid(g, c)
  {
    g[c.row][c.col]
  }

  /** Membership in the source's `empty_blocks = (0, "d")`. */
  predicate Passable(cell: Cell) {
    cell.Empty? || cell.DoorCell?
  }

  // ---------------------------------------------------------------------
  // Exposure mask

  datatype Dir = North | East | South | West

  function Bit(d: Dir): int {
    match d
    case North => 1
    case East => 2
    case South => 4
    case West => 8
  }

  function Step(c: Coord, d: Dir): Coord {
    match d
    case North => Coord(c.row - 1, c.col)
    case East => Coord(c.row, c.col + 1)
    case South => Coord(c.row + 1, c.col)
    case West => Coord(c.row, c.col - 1)
  }

  /** The face of `c` towards `d` looks onto traversable space inside the grid. */
  predicate Exposed(g: Grid, c: Coord, d: Dir)
    requires Rectangular(g)
  {
    InGrid(g, Step(c, d)) && Passable(At(g, Step(c, d)))
  }

  /** Python's `m & b != 0` for a single-bit `b` (floor division, any sign). */
  predicate HasBit(m: int, b: int)
    requires b > 0
  {
    (m / b) % 2 == 1
  }

  function BitIf(cond: bool, b: int): int {
    if cond then b else 0
  }

  /** Reference definition of the mask: traversable cells get 0, a solid cell
      gets the sum of the bits of its exposed faces. */
  function ExposureMask(g: Grid, c: Coord): int
    requires Rectangular(g) && InGrid(g, c)
  {
    if Passable(At(g, c)) then 0
    else
      BitIf(Exposed(g, c, North), 1) + BitIf(Exposed(g, c, East), 2) +
      BitIf(Exposed(g, c, South), 4) + BitIf(Exposed(g, c, West), 8)
  }

  lemma BitsOfSum(n: bool, e: bool, s: bool, w: bool)
    ensures var m := BitIf(n, 1) + BitIf(e, 2) + BitIf(s, 4) + BitIf(w, 8);
      0 <= m <= 15 &&
      (HasBit(m, 1) <==> n) && (HasBit(m, 2) <==> e) &&
      (HasBit(m, 4) <==> s) && (HasBit(m, 8) <==> w)
  {
  }

  /** The mask lies in [0, 15]; a traversable cell has mask 0; for a solid
      cell the bit of direction `d` is set exactly when the neighbour that way
      is inside the grid and traversable, so a face on the grid edge is hidden. */
  lemma ExposureMaskBits(g: Grid, c: Coord)
    requires Rectangular(g) && InGrid(g, c)
    ensures 0 <= ExposureMask(g, c) <= 15
    ensures Passable(At(g, c)) ==> ExposureMask(g, c) == 0
    ensures !Passable(At(g, c)) ==>
      forall d: Dir :: HasBit(ExposureMask(g, c), Bit(d)) <==> Exposed(g, c, d)
  {
    BitsOfSum(Exposed(g, c, North), Exposed(g, c, East), Exposed(g, c, South), Exposed(g, c, West));
  }

  /** A solid face on the border of the grid is never exposed. */
  lemma BorderFacesHidden(g: Grid, c: Coord, d: Dir)
    requires Rectangular(g) && InGrid(g, c) && !Passable(At(g, c))
    requires !InGrid(g, Step(c, d))
    ensures !HasBit(ExposureMask(g, c), Bit(d))
  {
    ExposureMaskBits(g, c);
  }

  /** Counting down from 15 as the source does gives the reference mask. */
  lemma CountDownIsMask(g: Grid, c: Coord)
    requires Rectangular(g) && InGrid(g, c) && !Passable(At(g, c))
    ensures ExposureMask(g, c) ==
      15 - BitIf(!Exposed(g, c, North), 1) - BitIf(!Exposed(g, c, East), 2)
         - BitIf(!Exposed(g, c, South), 4) - BitIf(!Exposed(g, c, West), 8)
  {
  }

  /** The mask of one solid cell: start at 15 and subtract the bit of every
      face that touches the grid edge or another solid cell. */
  method SolidCellMask(grid: Grid, row: int, col: int) returns (v: int)
    requires Rectangular(grid) && InGrid(grid, Coord(row, col))
    requires !Passable(grid[row][col])
    ensures v == ExposureMask(grid, Coord(row, col))
  {
    var rows := |grid|;
    var cols := |grid[0]|;
    v := 15;
    // north
    if row == 0 || !Passable(grid[row - 1][col]) {
      v := v - 1;
    }
    // east
    if col == cols - 1 || !Passable(grid[row][col + 1]) {
      v := v - 2;
    }
    // south
    if row == rows - 1 || !Passable(grid[row + 1][col]) {
      v := v - 4;
    }
    // west
    if col == 0 || !Passable(grid[row][col - 1]) {
      v := v - 8;
    }
    CountDownIsMask(grid, Coord(row, col));
  }

  /** The per-cell mask of visible faces, filled in row by row; empty and
      door cells keep 0. */
  method LumpedGeometry(grid: Grid) returns (result: seq<seq<int>>)
    requires Rectangular(grid)
    ensures |result| == |grid|
    ensures forall r :: 0 <= r < |result| ==> |result[r]| == |grid[0]|
    ensures forall r, c :: 0 <= r < |grid| && 0 <= c < |grid[0]| ==>
      result[r][c] == ExposureMask(grid, Coord(r, c))
  {
    var rows := |grid|;
    var cols := |grid[0]|;
    result := seq(rows, _ => seq(cols, _ => 0));
    for row := 0 to rows
      invariant |result| == rows
      invariant forall r :: 0 <= r < rows ==> |result[r]| == cols
      invariant forall r, c :: 0 <= r < row && 0 <= c < cols ==>
        result[r][c] == ExposureMask(grid, Coord(r, c))
      invariant forall r :: row <= r < rows ==> result[r] == seq(cols, _ => 0)
    {
      var line := result[row];
      for col := 0 to cols
        invariant |line| == cols
        invariant forall c :: 0 <= c < col ==> line[c] == ExposureMask(grid, Coord(row, c))
        invariant forall c :: col <= c < cols ==> line[c] == 0
      {
        if !Passable(grid[row][col]) {
          var v := SolidCellMask(grid, row, col);
          line := line[col := v];
        }
      }
      result := result[row := line];
    }
  }

  // ---------------------------------------------------------------------
  // Neighbourhood of a cell

  /** The in-grid neighbours of `c`, in the order north, south, west, east. */
  function Neighbours(g: Grid, c: Coord): seq<Coord>
    requires Rectangular(g) && InGrid(g, c)
  {
    (if c.row > 0 then [Coord(c.row - 1, c.col)] else []) +
    (if c.row < |g| - 1 then [Coord(c.row + 1, c.col)] else []) +
    (if c.col > 0 then [Coord(c.row, c.col - 1)] else []) +
    (if c.col < |g[0]| - 1 then [Coord(c.row, c.col + 1)] else [])
  }

  predicate Adjacent(a: Coord, b: Coord) {
    (a.row == b.row && (a.col == b.col + 1 || a.col + 1 == b.col)) ||
    (a.col == b.col && (a.row == b.row + 1 || a.row + 1 == b.row))
  }

  /** `Neighbours` lists every in-grid 4-neighbour exactly once and nothing else. */
  lemma NeighboursExact(g: Grid, c: Coord)
    requires Rectangular(g) && InGrid(g, c)
    ensures NoDuplicates(Neighbours(g, c))
    ensures forall b :: b in Neighbours(g, c) <==> InGrid(g, b) && Adjacent(c, b)
  {
  }

  /** Python's `(not onDoor) or (onDoor and nb != 0) and coordinate not in
      expanded`, where `and` binds tighter than `or`. */
  predicate Offered(onDoor: bool, neighbour: Cell, visited: bool) {
    !onDoor || ((onDoor && neighbour != Empty) && !visited)
  }

  /** The coordinate itself, then the in-grid neighbours north, south, west,
      east that the precedence-as-written condition lets through. */
  function Expand(walls: Grid, c: Coord, expanded: seq<Coord>): (r: seq<Coord>)
    requires Rectangular(walls) && InGrid(walls, c)
    ensures |r| >= 1 && r[0] == c
    ensures forall k :: 1 <= k < |r| ==> InGrid(walls, r[k]) && Adjacent(c, r[k])
  {
    var onDoor := At(walls, c) == DoorCell;
    var visited := c in expanded;
    var n := Coord(c.row - 1, c.col);
    var s := Coord(c.row + 1, c.col);
    var w := Coord(c.row, c.col - 1);
    var e := Coord(c.row, c.col + 1);
    [c] +
    (if c.row > 0 && Offered(onDoor, At(walls, n), visited) then [n] else []) +
    (if c.row < |walls| - 1 && Offered(onDoor, At(walls, s), visited) then [s] else []) +
    (if c.col > 0 && Offered(onDoor, At(walls, w), visited) then [w] else []) +
    (if c.col < |walls[0]| - 1 && Offered(onDoor, At(walls, e), visited) then [e] else [])
  }

  /** From a cell that is not a door every in-grid neighbour is offered. */
  lemma ExpandFromOpenCell(walls: Grid, c: Coord, expanded: seq<Coord>)
    requires Rectangular(walls) && InGrid(walls, c) && At(walls, c) != DoorCell
    ensures Expand(walls, c, expanded) == [c] + Neighbours(walls, c)
  {
  }

  /** From a door, only non-empty neighbours are offered, and none at all
      once the door is in the history, which is always so when the flood
      fill expands it: expanding a door yields the door alone. */
  lemma ExpandFromDoor(walls: Grid, c: Coord, expanded: seq<Coord>)
    requires Rectangular(walls) && InGrid(walls, c) && At(walls, c) == DoorCell
    ensures forall k :: 1 <= k < |Expand(walls, c, expanded)| ==>
      At(walls, Expand(walls, c, expanded)[k]) != Empty
    ensures c in expanded ==> Expand(walls, c, expanded) == [c]
  {
  }

  // ---------------------------------------------------------------------
  // Seed search

  /** An empty cell that no room has expanded yet. */
  predicate Unvisited(walls: Grid, expanded: seq<Coord>, c: Coord)
    requires Rectangular(walls)
  {
    InGrid(walls, c) && At(walls, c) == Empty && c !in expanded
  }

  /** Row-major order of grid cells. */
  predicate Before(a: Coord, b: Coord) {
    a.row < b.row || (a.row == b.row && a.col < b.col)
  }

  /** The first unvisited empty cell in row-major order, or None. */
  method GetNewRoom(walls: Grid, expanded: seq<Coord>) returns (r: Option<Coord>)
    requires Rectangular(walls)
    ensures r.Some? ==> Unvisited(walls, expanded, r.value)
    ensures r.Some? ==> forall c :: Before(c, r.value) ==> !Unvisited(walls, expanded, c)
    ensures r.None? <==> forall c :: !Unvisited(walls, expanded, c)
  {
    var rows := |walls|;
    var cols := |walls[0]|;
    for row := 0 to rows
      invariant forall c: Coord :: c.row < row ==> !Unvisited(walls, expanded, c)
    {
      for col := 0 to cols
        invariant forall c: Coord :: (c.row < row || (c.row == row && c.col < col)) ==>
          !Unvisited(walls, expanded, c)
      {
        if walls[row][col] == Empty {
          var possibleSolution := Coord(row, col);
          if possibleSolution !in expanded {
            assert Unvisited(walls, expanded, possibleSolution);
            return Some(possibleSolution);
          }
        }
      }
    }
    return None;
  }
}
