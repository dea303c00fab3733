/** Passive records shared by the grid partitioner, the face synthesizer and
    the scene packer. Floating-point values are modelled as `real` and are
    only ever copied, never computed on. */
module Primitives {

  datatype Option<T> = None | Some(value: T)

  /** A point or direction in 3D space. */
  datatype Vec3 = Vec3(x: real, y: real, z: real)

  function Dot(a: Vec3, b: Vec3): real {
    a.x * b.x + a.y * b.y + a.z * b.z
  }

  function Cross(a: Vec3, b: Vec3): Vec3 {
    Vec3(a.y * b.z - a.z * b.y, a.z * b.x - a.x * b.z, a.x * b.y - a.y * b.x)
  }

  function Add(a: Vec3, b: Vec3): Vec3 {
    Vec3(a.x + b.x, a.y + b.y, a.z + b.z)
  }

  function Scale(k: real, a: Vec3): Vec3 {
    Vec3(k * a.x, k * a.y, k * a.z)
  }

  /** A vector of length one along a coordinate axis, either way. */
  predicate UnitAxis(v: Vec3) {
    ((v.x == 1.0 || v.x == -1.0) && v.y == 0.0 && v.z == 0.0) ||
    (v.x == 0.0 && (v.y == 1.0 || v.y == -1.0) && v.z == 0.0) ||
    (v.x == 0.0 && v.y == 0.0 && (v.z == 1.0 || v.z == -1.0))
  }

  /** The axis (0 = x, 1 = y, 2 = z) a unit axis vector lies on. */
  function Axis(v: Vec3): int {
    if v.x != 0.0 then 0 else if v.y != 0.0 then 1 else 2
  }

  /** Unit axis vectors have length one, and two on different axes are
      orthogonal. */
  lemma AxisVectorsOrthonormal(a: Vec3, b: Vec3)
    requires UnitAxis(a) && UnitAxis(b)
    ensures Dot(a, a) == 1.0
    ensures Axis(a) != Axis(b) ==> Dot(a, b) == 0.0
  {
  }

  /** A textured axis-aligned quad. */
  datatype Plane = Plane(
    center: Vec3,
    tangent: Vec3,
    bitangent: Vec3,
    normal: Vec3,
    uMin: real, uMax: real, vMin: real, vMax: real,
    material: int)

  datatype Sphere = Sphere(center: Vec3, radius: real, color: Vec3, roughness: real)

  datatype Light = Light(position: Vec3, strength: real, color: Vec3)

  /** A grid coordinate (row, col). */
  datatype Coord = Coord(row: int, col: int)

  /** A door: its grid coordinate and the planes built for it once. */
  datatype Door = Door(coordinate: Coord, planes: seq<Plane>)

  /** A room: the traversable cells it reached (`internalCoordinates`), the
      solid cells bordering it (`coordinates`), its own planes, the doors it
      borders and the spheres and lights assigned to it. */
  datatype Room = Room(
    internalCoordinates: seq<Coord>,
    coordinates: seq<Coord>,
    planes: seq<Plane>,
    doors: seq<Door>,
    spheres: seq<Sphere>,
    lights: seq<Light>)

  /** A freshly constructed room holds nothing. */
  function EmptyRoom(): Room {
    Room([], [], [], [], [], [])
  }

  predicate NoDuplicates<T(==)>(s: seq<T>) {
    forall i, j :: 0 <= i < j < |s| ==> s[i] != s[j]
  }
}
