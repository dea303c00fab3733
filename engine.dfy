/** The renderer's CPU-side state: the resolution ladder with the level in
    use, and the flat object buffer uploaded to the ray-tracing shader. */
module Renderer {
  import opened Primitives
  import opened LevelOfDetail
  import opened Packer

  /** A colour target texture, known here by the size it was allocated with. */
  datatype ColorBuffer = ColorBuffer(width: int, height: int)

  /** What the renderer reads from a scene. */
  class Scene {
    var spheres: seq<Sphere>
    var planes: seq<Plane>
    var lights: seq<Light>
    var activeRooms: seq<Room>
    var outDated: bool

    constructor(spheres: seq<Sphere>, planes: seq<Plane>, lights: seq<Light>, activeRooms: seq<Room>)
      ensures this.spheres == spheres && this.planes == planes && this.lights == lights
      ensures this.activeRooms == activeRooms && outDated
    {
      this.spheres := spheres;
      this.planes := planes;
      this.lights := lights;
      this.activeRooms := activeRooms;
      outDated := true;
    }

    /** The slot order `updateScene` writes this scene in. */
    function ObjectLayout(): seq<Primitive>
      reads this
    {
      Layout(spheres, planes, lights, activeRooms)
    }
  }

  /** The zero-filled object buffer: 1024 objects of 20 attributes. */
  method CreateResourceMemory() returns (objectData: array<real>)
    ensures fresh(objectData) && objectData.Length == Slots * 20
    ensures forall j :: 0 <= j < objectData.Length ==> objectData[j] == 0.0
  {
    var data: seq<real> := [];
    for obj := 0 to Slots
      invariant |data| == 20 * obj
      invariant forall j :: 0 <= j < |data| ==> data[j] == 0.0
    {
      for attribute := 0 to 20
        invariant |data| == 20 * obj + attribute
        invariant forall j :: 0 <= j < |data| ==> data[j] == 0.0
      {
        data := data + [0.0];
      }
    }
    objectData := new real[|data|](j requires 0 <= j < |data| => data[j]);
  }

  class Engine {
    var screenWidth: int
    var screenHeight: int
    var targetFrameRate: real
    var frameRateMargin: real
    var resolutions: seq<(int, int)>
    var resolutionLevel: int
    var colorBuffers: seq<ColorBuffer>
    var colorBuffer: ColorBuffer
    var objectData: array<real>
    /** The counts last handed to the shader. */
    var sphereCount: int
    var planeCount: int
    var lightCount: int

    /** The level indexes the ladder, one colour buffer per rung, and the
        buffer has room for every slot. */
    predicate Valid()
      reads this
    {
      |resolutions| >= 1 && |colorBuffers| == |resolutions| &&
      0 <= resolutionLevel < |resolutions| &&
      objectData.Length == Slots * 20
    }

    /** Starts at the coarsest rung of the ladder for the given native size,
        with one colour buffer per rung and an all-zero object buffer. */
    constructor(width: int, height: int)
      ensures Valid() && fresh(objectData)
      ensures resolutions == Ladder(width, height)
      ensures resolutionLevel == |resolutions| - 1
      ensures (screenWidth, screenHeight) == resolutions[resolutionLevel]
      ensures forall k :: 0 <= k < |resolutions| ==>
        colorBuffers[k] == ColorBuffer(resolutions[k].0, resolutions[k].1)
      ensures colorBuffer == colorBuffers[resolutionLevel]
      ensures targetFrameRate == 60.0 && frameRateMargin == 10.0
      ensures forall j :: 0 <= j < objectData.Length ==> objectData[j] == 0.0
    {
      var data := CreateResourceMemory();
      screenWidth := width;
      screenHeight := height;
      targetFrameRate := 60.0;
      frameRateMargin := 10.0;
      objectData := data;
      new;
      CreateLODChain();
      CreateColorBuffers();
    }

    /** Builds the ladder from the current screen size and switches to its
        last, coarsest rung. */
    method CreateLODChain()
      modifies this
      ensures resolutions == Ladder(old(screenWidth), old(screenHeight))
      ensures resolutionLevel == |resolutions| - 1
      ensures (screenWidth, screenHeight) == resolutions[resolutionLevel]
      ensures targetFrameRate == old(targetFrameRate) && frameRateMargin == old(frameRateMargin)
      ensures colorBuffers == old(colorBuffers) && colorBuffer == old(colorBuffer)
      ensures sphereCount == old(sphereCount) && planeCount == old(planeCount) && lightCount == old(lightCount)
      ensures objectData == old(objectData)
    {
      ghost var full := Ladder(screenWidth, screenHeight);
      ghost var passed: seq<(int, int)> := [];
      var chain := [(screenWidth, screenHeight)];
      var width, height := screenWidth, screenHeight;
      while width > 2 && height > 2
        invariant passed + Ladder(width, height) == full
        invariant chain == passed + [(width, height)]
        decreases width
      {
        assert Ladder(width, height) == [(width, height)] + Ladder(Shrink(width), Shrink(height));
        passed := passed + [(width, height)];
        width := (4 * width) / 5;
        height := (4 * height) / 5;
        chain := chain + [(width, height)];
      }
      resolutions := chain;
      resolutionLevel := |resolutions| - 1;
      screenWidth, screenHeight := resolutions[resolutionLevel].0, resolutions[resolutionLevel].1;
    }

    /** One colour buffer per rung, sized like it; the one in use matches
        the current level. */
    method CreateColorBuffers()
      requires 0 <= resolutionLevel < |resolutions|
      modifies this
      ensures resolutions == old(resolutions) && resolutionLevel == old(resolutionLevel)
      ensures |colorBuffers| == |resolutions|
      ensures forall k :: 0 <= k < |resolutions| ==>
        colorBuffers[k] == ColorBuffer(resolutions[k].0, resolutions[k].1)
      ensures colorBuffer == colorBuffers[resolutionLevel]
      ensures screenWidth == old(screenWidth) && screenHeight == old(screenHeight)
      ensures targetFrameRate == old(targetFrameRate) && frameRateMargin == old(frameRateMargin)
      ensures sphereCount == old(sphereCount) && planeCount == old(planeCount) && lightCount == old(lightCount)
      ensures objectData == old(objectData)
    {
      var buffers: seq<ColorBuffer> := [];
      for k := 0 to |resolutions|
        invariant |buffers| == k
        invariant forall m :: 0 <= m < k ==>
          buffers[m] == ColorBuffer(resolutions[m].0, resolutions[m].1)
      {
        var (width, height) := resolutions[k];
        buffers := buffers + [ColorBuffer(width, height)];
      }
      colorBuffers := buffers;
      colorBuffer := colorBuffers[resolutionLevel];
    }

    /** Moves one rung finer or coarser according to the frame rate and the
        hysteresis band, then uses that rung's size and colour buffer. */
    method AdaptResolution(frameRate: real)
      requires Valid()
      modifies this
      ensures Valid()
      ensures resolutionLevel ==
        NextLevel(frameRate, targetFrameRate, frameRateMargin, old(resolutionLevel), |resolutions|)
      ensures (screenWidth, screenHeight) == resolutions[resolutionLevel]
      ensures colorBuffer == colorBuffers[resolutionLevel]
      ensures resolutions == old(resolutions) && colorBuffers == old(colorBuffers)
      ensures targetFrameRate == old(targetFrameRate) && frameRateMargin == old(frameRateMargin)
      ensures sphereCount == old(sphereCount) && planeCount == old(planeCount) && lightCount == old(lightCount)
      ensures objectData == old(objectData)
    {
      if frameRate > targetFrameRate + frameRateMargin && resolutionLevel > 0 {
        resolutionLevel := resolutionLevel - 1;
      } else if frameRate < targetFrameRate - frameRateMargin && resolutionLevel < |resolutions| - 1 {
        resolutionLevel := resolutionLevel + 1;
      }
      screenWidth, screenHeight := resolutions[resolutionLevel].0, resolutions[resolutionLevel].1;
      colorBuffer := colorBuffers[resolutionLevel];
    }

    /** Writes a sphere's 8 values at the start of slot `i`; by
        `WriteSlotFrame` no other entry of the buffer changes. */
    method RecordSphere(i: int, s: Sphere)
      requires objectData.Length == Slots * 20 && 0 <= i < Slots
      modifies objectData
      ensures objectData[..] == WriteSlot(old(objectData[..]), i, SphereFields(s))
    {
      forall k | 0 <= k < 8 {
        objectData[20 * i + k] := SphereFields(s)[k];
      }
      WriteSlotPointwise(old(objectData[..]), objectData[..], i, SphereFields(s));
    }

    /** Writes a plane's 17 values at the start of slot `i`; by
        `WriteSlotFrame` no other entry of the buffer changes. */
    method RecordPlane(i: int, p: Plane)
      requires objectData.Length == Slots * 20 && 0 <= i < Slots
      modifies objectData
      ensures objectData[..] == WriteSlot(old(objectData[..]), i, PlaneFields(p))
    {
      forall k | 0 <= k < 17 {
        objectData[20 * i + k] := PlaneFields(p)[k];
      }
      WriteSlotPointwise(old(objectData[..]), objectData[..], i, PlaneFields(p));
    }

    /** Writes a light's 7 values at the start of slot `i`; by
        `WriteSlotFrame` no other entry of the buffer changes. */
    method RecordLight(i: int, l: Light)
      requires objectData.Length == Slots * 20 && 0 <= i < Slots
      modifies objectData
      ensures objectData[..] == WriteSlot(old(objectData[..]), i, LightFields(l))
    {
      forall k | 0 <= k < 7 {
        objectData[20 * i + k] := LightFields(l)[k];
      }
      WriteSlotPointwise(old(objectData[..]), objectData[..], i, LightFields(l));
    }

    /** Records `o` into the slot right after the objects already packed. */
    method RecordPrimitive(slot: int, o: Primitive, ghost data: seq<real>, ghost objs: seq<Primitive>)
      requires objectData.Length == Slots * 20 == |data|
      requires slot == |objs| < Slots
      requires objectData[..] == Pack(data, objs)
      modifies objectData
      ensures objectData[..] == Pack(data, objs + [o])
    {
      match o {
        case SphereObj(s) => RecordSphere(slot, s);
        case PlaneObj(p) => RecordPlane(slot, p);
        case LightObj(l) => RecordLight(slot, l);
      }
      PackStep(data, objs, o);
    }

    /** Records `spheres` one per slot from slot `first` on. */
    method RecordSphereRun(first: int, spheres: seq<Sphere>, ghost data: seq<real>, ghost done: seq<Primitive>)
      requires objectData.Length == Slots * 20 == |data|
      requires first == |done| && |done| + |spheres| <= Slots
      requires objectData[..] == Pack(data, done)
      modifies objectData
      ensures objectData[..] == Pack(data, done + AsSpheres(spheres))
    {
      assert done + AsSpheres(spheres[..0]) == done;
      for i := 0 to |spheres|
        invariant objectData[..] == Pack(data, done + AsSpheres(spheres[..i]))
      {
        RecordPrimitive(first + i, SphereObj(spheres[i]), data, done + AsSpheres(spheres[..i]));
        AsSpheresPrefix(done, spheres, i);
      }
      assert spheres[..|spheres|] == spheres;
    }

    /** Records `planes` one per slot from slot `first` on. */
    method RecordPlaneRun(first: int, planes: seq<Plane>, ghost data: seq<real>, ghost done: seq<Primitive>)
      requires objectData.Length == Slots * 20 == |data|
      requires first == |done| && |done| + |planes| <= Slots
      requires objectData[..] == Pack(data, done)
      modifies objectData
      ensures objectData[..] == Pack(data, done + AsPlanes(planes))
    {
      assert done + AsPlanes(planes[..0]) == done;
      for i := 0 to |planes|
        invariant objectData[..] == Pack(data, done + AsPlanes(planes[..i]))
      {
        RecordPrimitive(first + i, PlaneObj(planes[i]), data, done + AsPlanes(planes[..i]));
        AsPlanesPrefix(done, planes, i);
      }
      assert planes[..|planes|] == planes;
    }

    /** Records `lights` one per slot from slot `first` on. */
    method RecordLightRun(first: int, lights: seq<Light>, ghost data: seq<real>, ghost done: seq<Primitive>)
      requires objectData.Length == Slots * 20 == |data|
      requires first == |done| && |done| + |lights| <= Slots
      requires objectData[..] == Pack(data, done)
      modifies objectData
      ensures objectData[..] == Pack(data, done + AsLights(lights))
    {
      assert done + AsLights(lights[..0]) == done;
      for i := 0 to |lights|
        invariant objectData[..] == Pack(data, done + AsLights(lights[..i]))
      {
        RecordPrimitive(first + i, LightObj(lights[i]), data, done + AsLights(lights[..i]));
        AsLightsPrefix(done, lights, i);
      }
      assert lights[..|lights|] == lights;
    }

    /** The sphere block of the scene update: the global spheres, then each
        active room's spheres, from slot `objectCount` on; returns how many
        were written. */
    method RecordSphereRegion(objectCount: int, spheres: seq<Sphere>, rooms: seq<Room>,
                              ghost data: seq<real>, ghost done: seq<Primitive>)
      returns (sphereCount: int)
      requires Valid() && |data| == objectData.Length
      requires objectCount == |done| && |done| + |SphereList(spheres, rooms)| <= Slots
      requires objectData[..] == Pack(data, done)
      modifies objectData
      ensures sphereCount == |SphereList(spheres, rooms)|
      ensures objectData[..] == Pack(data, done + AsSpheres(SphereList(spheres, rooms)))
    {
      sphereCount := 0;
      RecordSphereRun(sphereCount + objectCount, spheres, data, done);
      sphereCount := sphereCount + |spheres|;
      assert spheres + Flatten(rooms[..0], SpheresOf) == spheres;
      for r := 0 to |rooms|
        invariant sphereCount == |spheres + Flatten(rooms[..r], SpheresOf)|
        invariant Flatten(rooms[..r], SpheresOf) <= Flatten(rooms, SpheresOf)
        invariant objectData[..] == Pack(data, done + AsSpheres(spheres + Flatten(rooms[..r], SpheresOf)))
      {
        ghost var sofar := spheres + Flatten(rooms[..r], SpheresOf);
        FlattenStep(spheres, rooms, r, SpheresOf);
        RecordSphereRun(sphereCount + objectCount, rooms[r].spheres, data, done + AsSpheres(sofar));
        sphereCount := sphereCount + |rooms[r].spheres|;
        AsSpheresAppend(done, sofar, rooms[r].spheres);
      }
      assert rooms[..|rooms|] == rooms;
    }

    /** The plane block: the global planes, then for each active room its
        own planes followed by the planes of each of its doors. */
    method RecordPlaneRegion(objectCount: int, planes: seq<Plane>, rooms: seq<Room>,
                             ghost data: seq<real>, ghost done: seq<Primitive>)
      returns (planeCount: int)
      requires Valid() && |data| == objectData.Length
      requires objectCount == |done| && |done| + |PlaneList(planes, rooms)| <= Slots
      requires objectData[..] == Pack(data, done)
      modifies objectData
      ensures planeCount == |PlaneList(planes, rooms)|
      ensures objectData[..] == Pack(data, done + AsPlanes(PlaneList(planes, rooms)))
    {
      planeCount := 0;
      RecordPlaneRun(planeCount + objectCount, planes, data, done);
      planeCount := planeCount + |planes|;
      assert planes + Flatten(rooms[..0], PlanesOf) == planes;
      for r := 0 to |rooms|
        invariant planeCount == |planes + Flatten(rooms[..r], PlanesOf)|
        invariant Flatten(rooms[..r], PlanesOf) <= Flatten(rooms, PlanesOf)
        invariant objectData[..] == Pack(data, done + AsPlanes(planes + Flatten(rooms[..r], PlanesOf)))
      {
        FlattenStep(planes, rooms, r, PlanesOf);
        planeCount := RecordRoomPlanes(objectCount, planeCount, planes + Flatten(rooms[..r], PlanesOf),
                                       rooms[r], data, done);
      }
      assert rooms[..|rooms|] == rooms;
    }

    /** One room's turn in the plane block: its own planes, then its doors'
        planes in door-list order, after the `sofar` planes already written. */
    method RecordRoomPlanes(objectCount: int, planeCountIn: int, ghost sofar: seq<Plane>, room: Room,
                            ghost data: seq<real>, ghost done: seq<Primitive>)
      returns (planeCount: int)
      requires Valid() && |data| == objectData.Length
      requires objectCount == |done| && planeCountIn == |sofar|
      requires |done| + |sofar| + |PlanesOf(room)| <= Slots
      requires objectData[..] == Pack(data, done + AsPlanes(sofar))
      modifies objectData
      ensures planeCount == |sofar + PlanesOf(room)|
      ensures objectData[..] == Pack(data, done + AsPlanes(sofar + PlanesOf(room)))
    {
      planeCount := planeCountIn;
      RecordPlaneRun(planeCount + objectCount, room.planes, data, done + AsPlanes(sofar));
      AsPlanesAppend(done, sofar, room.planes);
      planeCount := planeCount + |room.planes|;
      planeCount := RecordDoorPlanes(objectCount, planeCount, sofar + room.planes, room.doors, data, done);
      PlanesOfSplit(sofar, room);
    }

    /** The doors' part of a room's turn: each door's planes in door-list
        order, after the `sofar` planes already written. */
    method RecordDoorPlanes(objectCount: int, planeCountIn: int, ghost sofar: seq<Plane>, doors: seq<Door>,
                            ghost data: seq<real>, ghost done: seq<Primitive>)
      returns (planeCount: int)
      requires Valid() && |data| == objectData.Length
      requires objectCount == |done| && planeCountIn == |sofar|
      requires |done| + |sofar| + |Flatten(doors, PlanesOfDoor)| <= Slots
      requires objectData[..] == Pack(data, done + AsPlanes(sofar))
      modifies objectData
      ensures planeCount == |sofar + Flatten(doors, PlanesOfDoor)|
      ensures objectData[..] == Pack(data, done + AsPlanes(sofar + Flatten(doors, PlanesOfDoor)))
    {
      planeCount := planeCountIn;
      assert sofar + Flatten(doors[..0], PlanesOfDoor) == sofar;
      for d := 0 to |doors|
        invariant planeCount == |sofar + Flatten(doors[..d], PlanesOfDoor)|
        invariant Flatten(doors[..d], PlanesOfDoor) <= Flatten(doors, PlanesOfDoor)
        invariant objectData[..] == Pack(data, done + AsPlanes(sofar + Flatten(doors[..d], PlanesOfDoor)))
      {
        ghost var before := sofar + Flatten(doors[..d], PlanesOfDoor);
        FlattenStep(sofar, doors, d, PlanesOfDoor);
        RecordPlaneRun(planeCount + objectCount, doors[d].planes, data, done + AsPlanes(before));
        planeCount := planeCount + |doors[d].planes|;
        AsPlanesAppend(done, before, doors[d].planes);
      }
      assert doors[..|doors|] == doors;
    }

    /** The light block: the global lights, then each active room's lights. */
    method RecordLightRegion(objectCount: int, lights: seq<Light>, rooms: seq<Room>,
                             ghost data: seq<real>, ghost done: seq<Primitive>)
      returns (lightCount: int)
      requires Valid() && |data| == objectData.Length
      requires objectCount == |done| && |done| + |LightList(lights, rooms)| <= Slots
      requires objectData[..] == Pack(data, done)
      modifies objectData
      ensures lightCount == |LightList(lights, rooms)|
      ensures objectData[..] == Pack(data, done + AsLights(LightList(lights, rooms)))
    {
      lightCount := 0;
      RecordLightRun(lightCount + objectCount, lights, data, done);
      lightCount := lightCount + |lights|;
      assert lights + Flatten(rooms[..0], LightsOf) == lights;
      for r := 0 to |rooms|
        invariant lightCount == |lights + Flatten(rooms[..r], LightsOf)|
        invariant Flatten(rooms[..r], LightsOf) <= Flatten(rooms, LightsOf)
        invariant objectData[..] == Pack(data, done + AsLights(lights + Flatten(rooms[..r], LightsOf)))
      {
        ghost var sofar := lights + Flatten(rooms[..r], LightsOf);
        FlattenStep(lights, rooms, r, LightsOf);
        RecordLightRun(lightCount + objectCount, rooms[r].lights, data, done + AsLights(sofar));
        lightCount := lightCount + |rooms[r].lights|;
        AsLightsAppend(done, sofar, rooms[r].lights);
      }
      assert rooms[..|rooms|] == rooms;
    }

    /** The three blocks of the scene update one after the other: every
        object in its own slot in layout order, entries no object covers
        keeping their old values; returns the three region sizes. */
    method RecordObjects(spheres: seq<Sphere>, planes: seq<Plane>, lights: seq<Light>, rooms: seq<Room>)
      returns (sphereCount: int, planeCount: int, lightCount: int)
      requires Valid() && |Layout(spheres, planes, lights, rooms)| <= Slots
      modifies objectData
      ensures objectData[..] == Pack(old(objectData[..]), Layout(spheres, planes, lights, rooms))
      ensures sphereCount == |SphereList(spheres, rooms)|
      ensures planeCount == |PlaneList(planes, rooms)|
      ensures lightCount == |LightList(lights, rooms)|
    {
      ghost var data := objectData[..];
      ghost var sl := AsSpheres(SphereList(spheres, rooms));
      ghost var pl := AsPlanes(PlaneList(planes, rooms));
      LayoutLength(spheres, planes, lights, rooms);

      var objectCount := 0;
      sphereCount := RecordSphereRegion(objectCount, spheres, rooms, data, []);
      assert [] + sl == sl;
      objectCount := objectCount + sphereCount;

      planeCount := RecordPlaneRegion(objectCount, planes, rooms, data, sl);
      objectCount := objectCount + planeCount;

      lightCount := RecordLightRegion(objectCount, lights, rooms, data, sl + pl);
      objectCount := objectCount + lightCount;
    }

    /** Clears the scene's `outDated` flag and rewrites the object buffer
        with the scene's objects in layout order; the three counts handed to
        the shader are the region sizes. */
    method UpdateScene(scene: Scene)
      requires Valid() && |scene.ObjectLayout()| <= Slots
      modifies this, objectData, scene
      ensures Valid() && objectData == old(objectData)
      ensures resolutions == old(resolutions) && resolutionLevel == old(resolutionLevel)
      ensures colorBuffers == old(colorBuffers) && colorBuffer == old(colorBuffer)
      ensures screenWidth == old(screenWidth) && screenHeight == old(screenHeight)
      ensures targetFrameRate == old(targetFrameRate) && frameRateMargin == old(frameRateMargin)
      ensures scene.spheres == old(scene.spheres) && scene.planes == old(scene.planes)
      ensures scene.lights == old(scene.lights) && scene.activeRooms == old(scene.activeRooms)
      ensures !scene.outDated
      ensures objectData[..] == Pack(old(objectData[..]), scene.ObjectLayout())
      ensures sphereCount == |SphereList(scene.spheres, scene.activeRooms)|
      ensures planeCount == |PlaneList(scene.planes, scene.activeRooms)|
      ensures lightCount == |LightList(scene.lights, scene.activeRooms)|
    {
      scene.outDated := false;
      var spheres, planes, lights := RecordObjects(scene.spheres, scene.planes, scene.lights, scene.activeRooms);
      sphereCount, planeCount, lightCount := spheres, planes, lights;
    }

    /** Re-uploads the scene only when it is marked out of date; otherwise the
        buffer and the counts stay as they were. */
    method PrepareScene(scene: Scene)
      requires Valid()
      requires scene.outDated ==> |scene.ObjectLayout()| <= Slots
      modifies this, objectData, scene
      ensures Valid() && objectData == old(objectData)
      ensures resolutions == old(resolutions) && resolutionLevel == old(resolutionLevel)
      ensures colorBuffers == old(colorBuffers) && colorBuffer == old(colorBuffer)
      ensures screenWidth == old(screenWidth) && screenHeight == old(screenHeight)
      ensures targetFrameRate == old(targetFrameRate) && frameRateMargin == old(frameRateMargin)
      ensures scene.spheres == old(scene.spheres) && scene.planes == old(scene.planes)
      ensures scene.lights == old(scene.lights) && scene.activeRooms == old(scene.activeRooms)
      ensures !scene.outDated
      ensures old(scene.outDated) ==>
        objectData[..] == Pack(old(objectData[..]), scene.ObjectLayout()) &&
        sphereCount == |SphereList(scene.spheres, scene.activeRooms)| &&
        planeCount == |PlaneList(scene.planes, scene.activeRooms)| &&
        lightCount == |LightList(scene.lights, scene.activeRooms)|
      ensures !old(scene.outDated) ==>
        objectData[..] == old(objectData[..]) && sphereCount == old(sphereCount) &&
        planeCount == old(planeCount) && lightCount == old(lightCount)
    {
      if scene.outDated {
        UpdateScene(scene);
      }
    }
  }
}
