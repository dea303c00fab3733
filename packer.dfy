/** The flat object buffer the renderer reads: 1024 slots of 20 values,
    spheres first, then planes, then lights, with no type tag per slot. */
module Packer {
  import opened Primitives

  /** Number of object slots; every slot is 20 values wide, written as the
      literal `20` below so that slot offsets stay linear arithmetic. */
  const Slots := 1024

  /** A primitive tagged with its kind, before it is flattened. */
  datatype Primitive = SphereObj(s: Sphere) | PlaneObj(p: Plane) | LightObj(l: Light)

  /** The values a sphere occupies at the start of its slot:
      (cx cy cz r) (r g b roughness). */
  function SphereFields(s: Sphere): seq<real> {
    [s.center.x, s.center.y, s.center.z, s.radius,
     s.color.x, s.color.y, s.color.z, s.roughness]
  }

  /** (cx cy cz tx) (ty tz bx by) (bz nx ny nz) (uMin uMax vMin vMax) (material). */
  function PlaneFields(p: Plane): seq<real> {
    [p.center.x, p.center.y, p.center.z,
     p.tangent.x, p.tangent.y, p.tangent.z,
     p.bitangent.x, p.bitangent.y, p.bitangent.z,
     p.normal.x, p.normal.y, p.normal.z,
     p.uMin, p.uMax, p.vMin, p.vMax,
     p.material as real]
  }

  /** (x y z strength) (r g b). */
  function LightFields(l: Light): seq<real> {
    [l.position.x, l.position.y, l.position.z, l.strength,
     l.color.x, l.color.y, l.color.z]
  }

  function Fields(o: Primitive): (r: seq<real>)
    ensures |r| <= 20
  {
    match o
    case SphereObj(s) => SphereFields(s)
    case PlaneObj(p) => PlaneFields(p)
    case LightObj(l) => LightFields(l)
  }

  /** `data` with the first |fields| entries of slot `i` overwritten. */
  function WriteSlot(data: seq<real>, i: nat, fields: seq<real>): (r: seq<real>)
    requires |fields| <= 20 && 20 * i + 20 <= |data|
    ensures |r| == |data|
  {
    data[..20 * i] + fields + data[20 * i + |fields|..]
  }

  /** A slot write changes exactly the first |fields| entries of slot `i`
      and leaves every other entry as it was. */
  lemma WriteSlotFrame(data: seq<real>, i: nat, fields: seq<real>, j: int)
    requires |fields| <= 20 && 20 * i + 20 <= |data|
    requires 0 <= j < |data|
    ensures |WriteSlot(data, i, fields)| == |data|
    ensures WriteSlot(data, i, fields)[j] ==
      if 20 * i <= j < 20 * i + |fields| then fields[j - 20 * i] else data[j]
  {
  }

  /** A buffer whose slot `i` starts with `fields` and which agrees with
      `data` everywhere else is that slot write. */
  lemma WriteSlotPointwise(data: seq<real>, after: seq<real>, i: nat, fields: seq<real>)
    requires |fields| <= 20 && 20 * i + 20 <= |data| == |after|
    requires forall k :: 0 <= k < |fields| ==> after[20 * i + k] == fields[k]
    requires forall j :: 0 <= j < 20 * i ==> after[j] == data[j]
    requires forall j :: 20 * i + |fields| <= j < |after| ==> after[j] == data[j]
    ensures after == WriteSlot(data, i, fields)
  {
    forall j | 0 <= j < |after|
      ensures after[j] == WriteSlot(data, i, fields)[j]
    {
      if 20 * i <= j < 20 * i + |fields| {
        assert after[20 * i + (j - 20 * i)] == fields[j - 20 * i];
      }
    }
  }

  /** The buffer after recording `objs` one after the other, object `k`
      into slot `k`, starting from `data`. */
  function Pack(data: seq<real>, objs: seq<Primitive>): (r: seq<real>)
    requires |objs| * 20 <= |data|
    ensures |r| == |data|
    decreases |objs|
  {
    if objs == [] then data
    else WriteSlot(Pack(data, objs[..|objs| - 1]), |objs| - 1, Fields(objs[|objs| - 1]))
  }

  /** Reference layout, entry by entry: entry `j` lies in slot j / 20 at
      offset j % 20; it holds that slot's object's field when there is one,
      and keeps its value from `data` otherwise. */
  function PackedEntry(data: seq<real>, objs: seq<Primitive>, j: int): real
    requires 0 <= j < |data|
  {
    if j / 20 < |objs| && j % 20 < |Fields(objs[j / 20])|
    then Fields(objs[j / 20])[j % 20]
    else data[j]
  }

  /** Writing the next object's slot extends the packed prefix by one. */
  lemma PackStep(data: seq<real>, objs: seq<Primitive>, o: Primitive)
    requires (|objs| + 1) * 20 <= |data|
    ensures WriteSlot(Pack(data, objs), |objs|, Fields(o)) == Pack(data, objs + [o])
  {
    assert (objs + [o])[..|objs|] == objs;
  }

  /** Where entry `j` lies relative to slot `n`. */
  lemma SlotPosition(j: int, n: int)
    requires 0 <= j && 0 <= n
    ensures j < 20 * n ==> j / 20 < n
    ensures 20 * n <= j < 20 * n + 20 ==> j / 20 == n && j % 20 == j - 20 * n
    ensures 20 * n + 20 <= j ==> j / 20 > n
  {
  }

  /** Recording the objects one by one yields the reference layout. */
  lemma {:induction false} PackPointwise(data: seq<real>, objs: seq<Primitive>, j: int)
    requires |objs| * 20 <= |data| && 0 <= j < |data|
    ensures Pack(data, objs)[j] == PackedEntry(data, objs, j)
    decreases |objs|
  {
    if objs != [] {
      var n := |objs| - 1;
      var init := objs[..n];
      var fields := Fields(objs[n]);
      assert Pack(data, objs) == WriteSlot(Pack(data, init), n, fields);
      PackPointwise(data, init, j);
      WriteSlotFrame(Pack(data, init), n, fields, j);
      SlotPosition(j, n);
      if j < 20 * n {
        assert init[j / 20] == objs[j / 20];
      }
    }
  }

  /** Object `k` is found at slot `k`, field by field. */
  lemma PackAt(data: seq<real>, objs: seq<Primitive>, k: nat, f: nat)
    requires |objs| * 20 <= |data|
    requires k < |objs| && f < |Fields(objs[k])|
    ensures Pack(data, objs)[20 * k + f] == Fields(objs[k])[f]
  {
    PackPointwise(data, objs, 20 * k + f);
    assert (20 * k + f) / 20 == k;
    assert (20 * k + f) % 20 == f;
  }

  /** Entries past the last packed slot, and the unused tail of each
      packed slot, keep their previous contents. */
  lemma PackKeeps(data: seq<real>, objs: seq<Primitive>, j: nat)
    requires |objs| * 20 <= |data| && j < |data|
    requires j / 20 >= |objs| || j % 20 >= |Fields(objs[j / 20])|
    ensures Pack(data, objs)[j] == data[j]
  {
    PackPointwise(data, objs, j);
  }

  /** Packing the same objects again changes nothing. */
  lemma PackIdempotent(data: seq<real>, objs: seq<Primitive>)
    requires |objs| * 20 <= |data|
    ensures Pack(Pack(data, objs), objs) == Pack(data, objs)
  {
    forall j | 0 <= j < |data|
      ensures Pack(Pack(data, objs), objs)[j] == Pack(data, objs)[j]
    {
      PackPointwise(data, objs, j);
      PackPointwise(Pack(data, objs), objs, j);
    }
  }

  // ---------------------------------------------------------------------
  // Scene layout

  /** The parts of `xs` concatenated in order. */
  function Flatten<A, T>(xs: seq<A>, part: A -> seq<T>): seq<T> {
    if xs == [] then [] else Flatten(xs[..|xs| - 1], part) + part(xs[|xs| - 1])
  }

  function SpheresOf(r: Room): seq<Sphere> { r.spheres }

  function LightsOf(r: Room): seq<Light> { r.lights }

  function PlanesOfDoor(d: Door): seq<Plane> { d.planes }

  /** A room contributes its own planes, then its doors' planes door by door. */
  function PlanesOf(r: Room): seq<Plane> { r.planes + Flatten(r.doors, PlanesOfDoor) }

  lemma PlanesOfSplit(sofar: seq<Plane>, r: Room)
    ensures sofar + PlanesOf(r) == sofar + r.planes + Flatten(r.doors, PlanesOfDoor)
  {
  }

  function AsSpheres(s: seq<Sphere>): seq<Primitive> {
    seq(|s|, k requires 0 <= k < |s| => SphereObj(s[k]))
  }

  function AsPlanes(s: seq<Plane>): seq<Primitive> {
    seq(|s|, k requires 0 <= k < |s| => PlaneObj(s[k]))
  }

  function AsLights(s: seq<Light>): seq<Primitive> {
    seq(|s|, k requires 0 <= k < |s| => LightObj(s[k]))
  }

  lemma AsSpheresAppend(done: seq<Primitive>, a: seq<Sphere>, b: seq<Sphere>)
    ensures done + AsSpheres(a) + AsSpheres(b) == done + AsSpheres(a + b)
  {
    assert AsSpheres(a) + AsSpheres(b) == AsSpheres(a + b);
  }

  lemma AsPlanesAppend(done: seq<Primitive>, a: seq<Plane>, b: seq<Plane>)
    ensures done + AsPlanes(a) + AsPlanes(b) == done + AsPlanes(a + b)
  {
    assert AsPlanes(a) + AsPlanes(b) == AsPlanes(a + b);
  }

  lemma AsLightsAppend(done: seq<Primitive>, a: seq<Light>, b: seq<Light>)
    ensures done + AsLights(a) + AsLights(b) == done + AsLights(a + b)
  {
    assert AsLights(a) + AsLights(b) == AsLights(a + b);
  }

  lemma AsSpheresPrefix(done: seq<Primitive>, s: seq<Sphere>, i: nat)
    requires i < |s|
    ensures done + AsSpheres(s[..i + 1]) == done + AsSpheres(s[..i]) + [SphereObj(s[i])]
  {
    assert AsSpheres(s[..i + 1]) == AsSpheres(s[..i]) + [SphereObj(s[i])];
  }

  lemma AsPlanesPrefix(done: seq<Primitive>, s: seq<Plane>, i: nat)
    requires i < |s|
    ensures done + AsPlanes(s[..i + 1]) == done + AsPlanes(s[..i]) + [PlaneObj(s[i])]
  {
    assert AsPlanes(s[..i + 1]) == AsPlanes(s[..i]) + [PlaneObj(s[i])];
  }

  lemma AsLightsPrefix(done: seq<Primitive>, s: seq<Light>, i: nat)
    requires i < |s|
    ensures done + AsLights(s[..i + 1]) == done + AsLights(s[..i]) + [LightObj(s[i])]
  {
    assert AsLights(s[..i + 1]) == AsLights(s[..i]) + [LightObj(s[i])];
  }

  function SphereList(spheres: seq<Sphere>, rooms: seq<Room>): seq<Sphere> {
    spheres + Flatten(rooms, SpheresOf)
  }

  function PlaneList(planes: seq<Plane>, rooms: seq<Room>): seq<Plane> {
    planes + Flatten(rooms, PlanesOf)
  }

  function LightList(lights: seq<Light>, rooms: seq<Room>): seq<Light> {
    lights + Flatten(rooms, LightsOf)
  }

  /** The order in which a scene's objects occupy the slots: global spheres,
      the active rooms' spheres; global planes, each active room's planes
      followed by its doors' planes; global lights, the rooms' lights. */
  function Layout(spheres: seq<Sphere>, planes: seq<Plane>, lights: seq<Light>,
                  rooms: seq<Room>): seq<Primitive>
  {
    AsSpheres(SphereList(spheres, rooms)) +
    AsPlanes(PlaneList(planes, rooms)) +
    AsLights(LightList(lights, rooms))
  }

  lemma LayoutLength(spheres: seq<Sphere>, planes: seq<Plane>, lights: seq<Light>, rooms: seq<Room>)
    ensures |Layout(spheres, planes, lights, rooms)| ==
      |SphereList(spheres, rooms)| + |PlaneList(planes, rooms)| + |LightList(lights, rooms)|
  {
  }

  /** Spheres fill the first region, planes the next, lights the last; each
      region holds its list in order. */
  lemma LayoutRegions(spheres: seq<Sphere>, planes: seq<Plane>, lights: seq<Light>,
                      rooms: seq<Room>, k: nat)
    requires k < |Layout(spheres, planes, lights, rooms)|
    ensures var sl, pl, ll := SphereList(spheres, rooms), PlaneList(planes, rooms),
                              LightList(lights, rooms);
      var o := Layout(spheres, planes, lights, rooms)[k];
      |Layout(spheres, planes, lights, rooms)| == |sl| + |pl| + |ll| &&
      (k < |sl| ==> o == SphereObj(sl[k])) &&
      (|sl| <= k < |sl| + |pl| ==> o == PlaneObj(pl[k - |sl|])) &&
      (|sl| + |pl| <= k ==> o == LightObj(ll[k - |sl| - |pl|]))
  {
  }

  // ---------------------------------------------------------------------
  // Flattening lemmas

  /** Taking one more element appends that element's part. */
  lemma FlattenSnoc<A, T>(xs: seq<A>, k: nat, part: A -> seq<T>)
    requires k < |xs|
    ensures Flatten(xs[..k + 1], part) == Flatten(xs[..k], part) + part(xs[k])
  {
    assert xs[..k + 1][..k] == xs[..k];
  }

  /** The flattening of a prefix is a prefix of the flattening. */
  lemma {:induction false} FlattenPrefix<A, T>(xs: seq<A>, k: nat, part: A -> seq<T>)
    requires k <= |xs|
    ensures Flatten(xs[..k], part) <= Flatten(xs, part)
    decreases |xs|
  {
    if k < |xs| {
      var init := xs[..|xs| - 1];
      FlattenPrefix(init, k, part);
      assert init[..k] == xs[..k];
    } else {
      assert xs[..k] == xs;
    }
  }

  /** One step of a loop over `xs` that appends each part after `init`:
      the running sequence grows by element `k`'s part and stays within the
      full flattening. */
  lemma FlattenStep<A, T>(init: seq<T>, xs: seq<A>, k: nat, part: A -> seq<T>)
    requires k < |xs|
    ensures init + Flatten(xs[..k + 1], part) == init + Flatten(xs[..k], part) + part(xs[k])
    ensures Flatten(xs[..k + 1], part) <= Flatten(xs, part)
  {
    FlattenSnoc(xs, k, part);
    FlattenPrefix(xs, k + 1, part);
  }

  /** Element `k`'s part sits right after the parts of the elements before it. */
  lemma FlattenOrder<A, T>(xs: seq<A>, k: nat, part: A -> seq<T>)
    requires k < |xs|
    ensures var start := |Flatten(xs[..k], part)|;
      start + |part(xs[k])| <= |Flatten(xs, part)| &&
      Flatten(xs, part)[start..start + |part(xs[k])|] == part(xs[k])
  {
    FlattenSnoc(xs, k, part);
    FlattenPrefix(xs, k + 1, part);
  }

  /** Sum of the part lengths, counted from the front. */
  function SumLengths<A, T>(xs: seq<A>, part: A -> seq<T>): nat {
    if xs == [] then 0 else |part(xs[0])| + SumLengths(xs[1..], part)
  }

  lemma {:induction false} SumLengthsSnoc<A, T>(xs: seq<A>, x: A, part: A -> seq<T>)
    ensures SumLengths(xs + [x], part) == SumLengths(xs, part) + |part(x)|
  {
    if xs != [] {
      assert (xs + [x])[1..] == xs[1..] + [x];
      SumLengthsSnoc(xs[1..], x, part);
    }
  }

  lemma {:induction false} FlattenLength<A, T>(xs: seq<A>, part: A -> seq<T>)
    ensures |Flatten(xs, part)| == SumLengths(xs, part)
  {
    if xs != [] {
      var init := xs[..|xs| - 1];
      FlattenLength(init, part);
      assert xs == init + [xs[|xs| - 1]];
      SumLengthsSnoc(init, xs[|xs| - 1], part);
    }
  }

  /** The number of planes the active rooms contribute: for each room its
      own planes plus the planes of each of its doors. */
  function RoomPlaneTotal(rooms: seq<Room>): nat {
    if rooms == [] then 0
    else |rooms[0].planes| + SumLengths(rooms[0].doors, PlanesOfDoor) + RoomPlaneTotal(rooms[1..])
  }

  /** The three counts the renderer receives are the global objects of each
      kind plus the objects summed over the active rooms. */
  lemma {:induction false} LayoutCounts(spheres: seq<Sphere>, planes: seq<Plane>,
                                        lights: seq<Light>, rooms: seq<Room>)
    ensures |SphereList(spheres, rooms)| == |spheres| + SumLengths(rooms, SpheresOf)
    ensures |PlaneList(planes, rooms)| == |planes| + RoomPlaneTotal(rooms)
    ensures |LightList(lights, rooms)| == |lights| + SumLengths(rooms, LightsOf)
  {
    FlattenLength(rooms, SpheresOf);
    FlattenLength(rooms, LightsOf);
    FlattenLength(rooms, PlanesOf);
    PlaneTotal(rooms);
  }

  lemma {:induction false} PlaneTotal(rooms: seq<Room>)
    ensures SumLengths(rooms, PlanesOf) == RoomPlaneTotal(rooms)
  {
    if rooms != [] {
      FlattenLength(rooms[0].doors, PlanesOfDoor);
      PlaneTotal(rooms[1..]);
    }
  }
}
