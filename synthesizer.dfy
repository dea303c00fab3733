/** Face builders: each produces one oriented unit quad on a face of the unit
    cube occupied by grid cell (row, col), which spans
    [col, col+1] x [row, row+1] x [0, 1] (x runs along columns, y along rows). */
module Synthesizer {
  import opened Primitives
  import opened GridMap

  function CellCentre(row: int, col: int): Vec3 {
    Vec3(col as real + 0.5, row as real + 0.5, 0.5)
  }

  /** The unit vector pointing from a cell towards its neighbour in `d`. */
  function Outward(d: Dir): Vec3 {
    match d
    case North => Vec3(0.0, -1.0, 0.0)
    case East => Vec3(1.0, 0.0, 0.0)
    case South => Vec3(0.0, 1.0, 0.0)
    case West => Vec3(-1.0, 0.0, 0.0)
  }

  /** What every face shares: texture bounds [-0.5, 0.5]^2, the requested
      material, and normal, tangent and bitangent along three different axes. */
  predicate FaceShape(p: Plane, material: int) {
    p.uMin == -0.5 && p.uMax == 0.5 && p.vMin == -0.5 && p.vMax == 0.5 &&
    p.material == material &&
    UnitAxis(p.normal) && UnitAxis(p.tangent) && UnitAxis(p.bitangent) &&
    Axis(p.normal) != Axis(p.tangent) && Axis(p.normal) != Axis(p.bitangent) &&
    Axis(p.tangent) != Axis(p.bitangent)
  }

  /** A face's frame is orthonormal. */
  lemma FaceFrameOrthonormal(p: Plane, material: int)
    requires FaceShape(p, material)
    ensures Dot(p.normal, p.normal) == 1.0 && Dot(p.tangent, p.tangent) == 1.0
    ensures Dot(p.bitangent, p.bitangent) == 1.0
    ensures Dot(p.normal, p.tangent) == 0.0 && Dot(p.normal, p.bitangent) == 0.0
    ensures Dot(p.tangent, p.bitangent) == 0.0
  {
    AxisVectorsOrthonormal(p.normal, p.tangent);
    AxisVectorsOrthonormal(p.normal, p.bitangent);
    AxisVectorsOrthonormal(p.tangent, p.bitangent);
    AxisVectorsOrthonormal(p.bitangent, p.bitangent);
  }

  /** A wall face: normal pointing out of the cell towards `d`, centred on
      that face of the cell's cube, right-handed frame. */
  predicate WallOf(p: Plane, row: int, col: int, material: int, d: Dir) {
    FaceShape(p, material) &&
    p.normal == Outward(d) &&
    p.center == Add(CellCentre(row, col), Scale(0.5, p.normal)) &&
    Cross(p.tangent, p.bitangent) == p.normal
  }

  function NorthWall(row: int, col: int, material: int): Plane
  {
    Plane(
      Vec3(col as real + 0.5, row as real, 0.5),
      Vec3(-1.0, 0.0, 0.0), Vec3(0.0, 0.0, -1.0), Vec3(0.0, -1.0, 0.0),
      -0.5, 0.5, -0.5, 0.5, material)
  }

  function EastWall(row: int, col: int, material: int): Plane
  {
    Plane(
      Vec3(col as real + 1.0, row as real + 0.5, 0.5),
      Vec3(0.0, 1.0, 0.0), Vec3(0.0, 0.0, 1.0), Vec3(1.0, 0.0, 0.0),
      -0.5, 0.5, -0.5, 0.5, material)
  }

  function SouthWall(row: int, col: int, material: int): Plane
  {
    Plane(
      Vec3(col as real + 0.5, row as real + 1.0, 0.5),
      Vec3(-1.0, 0.0, 0.0), Vec3(0.0, 0.0, 1.0), Vec3(0.0, 1.0, 0.0),
      -0.5, 0.5, -0.5, 0.5, material)
  }

  function WestWall(row: int, col: int, material: int): Plane
  {
    Plane(
      Vec3(col as real, row as real + 0.5, 0.5),
      Vec3(0.0, 1.0, 0.0), Vec3(0.0, 0.0, -1.0), Vec3(-1.0, 0.0, 0.0),
      -0.5, 0.5, -0.5, 0.5, material)
  }

  function Ceiling(row: int, col: int, material: int): Plane
  {
    Plane(
      Vec3(col as real + 0.5, row as real + 0.5, 1.0),
      Vec3(0.0, -1.0, 0.0), Vec3(1.0, 0.0, 0.0), Vec3(0.0, 0.0, -1.0),
      -0.5, 0.5, -0.5, 0.5, material)
  }

  function Floor(row: int, col: int, material: int): Plane
  {
    Plane(
      Vec3(col as real + 0.5, row as real + 0.5, 0.0),
      Vec3(0.0, 1.0, 0.0), Vec3(-1.0, 0.0, 0.0), Vec3(0.0, 0.0, 1.0),
      -0.5, 0.5, -0.5, 0.5, material)
  }

  function Wall(d: Dir, row: int, col: int, material: int): Plane
  {
    match d
    case North => NorthWall(row, col, material)
    case East => EastWall(row, col, material)
    case South => SouthWall(row, col, material)
    case West => WestWall(row, col, material)
  }

  /** Each wall builder gives a wall of the cell facing its own direction:
      texture bounds [-0.5, 0.5]^2, the requested material, an axis-aligned
      right-handed frame whose normal points out of the cell, centred on
      that face of the cell's cube. */
  lemma WallFacts(d: Dir, row: int, col: int, material: int)
    ensures WallOf(Wall(d, row, col, material), row, col, material, d)
  {
    match d
    case North =>
    case East =>
    case South =>
    case West =>
  }

  /** Every builder gives the standard texture bounds, the requested
      material and an axis-aligned frame. */
  lemma FaceShapes(row: int, col: int, material: int)
    ensures FaceShape(NorthWall(row, col, material), material)
    ensures FaceShape(EastWall(row, col, material), material)
    ensures FaceShape(SouthWall(row, col, material), material)
    ensures FaceShape(WestWall(row, col, material), material)
    ensures FaceShape(Ceiling(row, col, material), material)
    ensures FaceShape(Floor(row, col, material), material)
  {
  }

  /** The floor faces up into the cell from z = 0 with a right-handed frame;
      the ceiling faces down into it from z = 1 with a left-handed one
      (tangent x bitangent is the opposite of its normal). */
  lemma FloorCeilingFacts(row: int, col: int, material: int)
    ensures var p := Floor(row, col, material);
      FaceShape(p, material) && p.normal == Vec3(0.0, 0.0, 1.0) &&
      Add(p.center, Scale(0.5, p.normal)) == CellCentre(row, col) &&
      Cross(p.tangent, p.bitangent) == p.normal
    ensures var p := Ceiling(row, col, material);
      FaceShape(p, material) && p.normal == Vec3(0.0, 0.0, -1.0) &&
      Add(p.center, Scale(0.5, p.normal)) == CellCentre(row, col) &&
      Cross(p.tangent, p.bitangent) == Scale(-1.0, p.normal)
  {
  }

  /** Position of a direction in the order the source emits walls. */
  function Rank(d: Dir): int {
    match d
    case North => 0
    case East => 1
    case South => 2
    case West => 3
  }

  /** The directions whose bit is set in `m`, in north, east, south, west order. */
  function ExposedDirections(m: int): seq<Dir> {
    (if HasBit(m, 1) then [North] else []) + (if HasBit(m, 2) then [East] else []) +
    (if HasBit(m, 4) then [South] else []) + (if HasBit(m, 8) then [West] else [])
  }

  /** Exactly the directions with their bit set, each once, in emission order. */
  lemma ExposedDirectionsExact(m: int)
    ensures forall d :: d in ExposedDirections(m) <==> HasBit(m, Bit(d))
    ensures forall i, j :: 0 <= i < j < |ExposedDirections(m)| ==>
      Rank(ExposedDirections(m)[i]) < Rank(ExposedDirections(m)[j])
  {
  }

  function Walls(ds: seq<Dir>, row: int, col: int, material: int): seq<Plane> {
    seq(|ds|, k requires 0 <= k < |ds| => Wall(ds[k], row, col, material))
  }

  /** The integer a non-door cell holds: 0 when empty, its material id when solid. */
  function Value(cell: Cell): int
    requires cell != DoorCell
  {
    match cell
    case Empty => 0
    case Solid(id) => id
  }

  predicate HasCell(g: seq<seq<int>>, row: int, col: int) {
    0 <= row < |g| && 0 <= col < |g[row]|
  }

  /** Appends one wall per bit set in the cell's mask, in north, east, south,
      west order, with the cell's value minus one as material; an empty cell
      then also gets its floor and its ceiling. A door cell must have no wall
      bit set, since its `"d"` tag has no numeric value. */
  method GeometryAtPoint(row: int, col: int, target: seq<Plane>, wallMask: seq<seq<int>>,
                         walls: Grid, floors: seq<seq<int>>, ceilings: seq<seq<int>>)
    returns (planes: seq<Plane>)
    requires Rectangular(walls) && InGrid(walls, Coord(row, col))
    requires HasCell(wallMask, row, col)
    requires walls[row][col] == Empty ==> HasCell(floors, row, col) && HasCell(ceilings, row, col)
    requires walls[row][col] == DoorCell ==> ExposedDirections(wallMask[row][col]) == []
    ensures |planes| >= |target| && planes[..|target|] == target
    ensures walls[row][col] != DoorCell ==>
      planes[|target|..] ==
        Walls(ExposedDirections(wallMask[row][col]), row, col, Value(walls[row][col]) - 1) +
        (if walls[row][col] == Empty
         then [Floor(row, col, floors[row][col] - 1), Ceiling(row, col, ceilings[row][col] - 1)]
         else [])
    ensures walls[row][col] == DoorCell ==> planes == target
  {
    planes := target;
    var m := wallMask[row][col];
    if walls[row][col] != DoorCell {
      planes := AppendExposedWalls(planes, m, row, col, Value(walls[row][col]) - 1);
    }
    if walls[row][col] == Empty {
      planes := planes + [Floor(row, col, floors[row][col] - 1)];
      planes := planes + [Ceiling(row, col, ceilings[row][col] - 1)];
    }
  }

  /** The wall part of `GeometryAtPoint`: one wall per set bit, north first. */
  method AppendExposedWalls(target: seq<Plane>, m: int, row: int, col: int, material: int)
    returns (planes: seq<Plane>)
    ensures planes == target + Walls(ExposedDirections(m), row, col, material)
  {
    planes := target;
    ghost var ds: seq<Dir> := [];
    if HasBit(m, 1) {
      planes := planes + [NorthWall(row, col, material)];
      WallsSnoc(target, ds, North, row, col, material);
      ds := ds + [North];
    }
    assert planes == target + Walls(ds, row, col, material);
    if HasBit(m, 2) {
      planes := planes + [EastWall(row, col, material)];
      WallsSnoc(target, ds, East, row, col, material);
      ds := ds + [East];
    }
    assert planes == target + Walls(ds, row, col, material);
    if HasBit(m, 4) {
      planes := planes + [SouthWall(row, col, material)];
      WallsSnoc(target, ds, South, row, col, material);
      ds := ds + [South];
    }
    assert planes == target + Walls(ds, row, col, material);
    if HasBit(m, 8) {
      planes := planes + [WestWall(row, col, material)];
      WallsSnoc(target, ds, West, row, col, material);
      ds := ds + [West];
    }
    assert ds == ExposedDirections(m);
  }

  lemma WallsSnoc(target: seq<Plane>, ds: seq<Dir>, d: Dir, row: int, col: int, material: int)
    ensures target + Walls(ds + [d], row, col, material) ==
      target + Walls(ds, row, col, material) + [Wall(d, row, col, material)]
  {
    assert Walls(ds + [d], row, col, material) == Walls(ds, row, col, material) + [Wall(d, row, col, material)];
  }

  /** For a solid cell and its exposure mask, the walls built face exactly
      the directions of traversable in-grid neighbours, in north, east, south,
      west order. */
  lemma SolidCellWallsFaceOpenSpace(walls: Grid, c: Coord, d: Dir)
    requires Rectangular(walls) && InGrid(walls, c) && !Passable(At(walls, c))
    ensures d in ExposedDirections(ExposureMask(walls, c)) <==> Exposed(walls, c, d)
  {
    ExposureMaskBits(walls, c);
    ExposedDirectionsExact(ExposureMask(walls, c));
  }
}
