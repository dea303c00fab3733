# python_raytracer core, modelled in Dafny

This project models two parts of a small GPU ray tracer written in Python.

**The level-geometry builder (`geometry.py`).** It reads a tile map and produces the scene's geometry:

- A per-cell mask of visible faces.
- A flood fill that partitions the walkable cells into rooms and builds every door once.
- The six axis-aligned face builders: north, east, south and west walls, floor and ceiling.
- The per-cell geometry emitter.

**The CPU side of the renderer (`engine.py`).** It covers:

- The chain of resolutions ("LOD chain") with its frame-rate driven level switch.
- The zero-filled object buffer of 1024 slots × 20 values.
- The `record*` writers that store spheres, planes and lights into that buffer.
- The scene upload (`updateScene`) and the `outDated` guard in `prepareScene`.

Modules, one file each:

| module | file | models |
|---|---|---|
| `Primitives` | primitives.dfy | vectors, planes, spheres, lights, doors, rooms (passive records) |
| `GridMap` | gridmap.dfy | the tile grid: `get_lumped_geometry_from`, `expand`, `get_new_room` |
| `Synthesizer` | synthesizer.dfy | the `make_*` face builders and `get_geometry_at_point` |
| `Partitioner` | partitioner.dfy | `make_rooms`, door building, `get_door_by_coordinate` |
| `LevelOfDetail` | ladder.dfy | the resolution ladder and the level-switch rule |
| `Packer` | packer.dfy | the slot layout of the object buffer, as a specification |
| `Renderer` | engine.dfy | the `Engine` class and the `Scene` fields it reads |

## How the source's forms are kept

**Tile maps.** A tile map is a rectangular `seq<seq<Cell>>`, where `Cell` is `Empty` (the source's `0`), `DoorCell` (`"d"`) or `Solid(id)`.

**Loops.** The geometry code works by loops that append to lists. Each loop becomes a method with a `while` or `for` loop and its invariants, and it is proved against a specification function or predicate:

- `ExposureMask` for the mask.
- `DropDoors` for the door-removal loop.
- `Walls` and `ExposedDirections` for the emitted walls.
- `RoomOk`, `Region`, `Closed` and `Covered` for the flood fill. Each room is well formed. Each room is the region reached from its first cell: grown through empty cells, with every neighbour of its empty cells inside it, door cells included. The rooms cover every empty cell, and no empty cell lies in two rooms.

`expand` has no loop: it is the function `GridMap.Expand`, and the lemmas `ExpandFromOpenCell` and `ExpandFromDoor` characterise it. Building a door has no loop either: `BuildDoor` is a function, specified by `DoorGeometry`.

**The engine.** `Engine` is a class whose fields the methods update in place. The object buffer is an `array<real>`, written entry by entry.

**The upload.** `UpdateScene` is proved against `Packer.Pack`, a recursive function giving the buffer after recording a list of objects slot by slot. `Packer.Layout` gives the order in which `updateScene` visits a scene's objects:

- global spheres, then the active rooms' spheres;
- global planes, then for each active room its planes followed by each of its doors' planes;
- global lights, then the rooms' lights.

`PackPointwise` relates `Pack` to a closed-form, entry-by-entry reference (`PackedEntry`).

**Source quirks kept as written.** Four behaviours of the source are modelled exactly as written:

- **`expand`, condition precedence.** Python's `and` binds tighter than `or`, so the neighbour condition is `(not onDoor) or ((onDoor and nb != 0) and coordinate not in expanded)`. `GridMap.Offered` states it that way. `ExpandFromDoor` proves the consequence: a door that is already in the history expands to itself alone, which is always the case inside the flood fill.
- **`make_rooms`, the door-removal loop.** The loop pops entries from the list it is enumerating, so the entry right after a removed door is skipped and kept. `DropDoors` models that skip, and `DropDoorsSkipsFollower` exhibits it on two adjacent doors.
- **Search order.** The flood fill pops the front of its queue, so the search is breadth-first.
- **Repeated doors in a room.** Every visit to a door cell appends its door to the room's door list, even when the room already holds it (geometry.py:123, 128). On the map `0 / d / 0`, the door is visited once from the empty cell and once more when the door cell itself is searched, so each room's list holds the door twice, and `updateScene` packs that door's planes twice. `SearchCell` states this count exactly: one entry per door cell visited, in visiting order.

## Model

| member | source | states |
|---|---|---|
| `GridMap.LumpedGeometry` | geometry.py:5-45 | the result has the grid's shape, and every entry equals the reference exposure mask of its cell (empty and door cells keep 0) |
| `GridMap.SolidCellMask` | geometry.py:25-42 | counting down from 15, subtracting the bit of each face on the grid edge or against a solid cell, yields the reference mask of that solid cell |
| `GridMap.ExposureMaskBits` | geometry.py:6-42 | the mask lies in [0, 15]; a walkable cell has mask 0; for a solid cell, bit 1/2/4/8 is set exactly when the north/east/south/west neighbour is inside the grid and walkable |
| `GridMap.BorderFacesHidden` | geometry.py:28-42 | a face of a solid cell on the grid's border never has its bit set |
| `GridMap.CountDownIsMask` | geometry.py:26-42 | 15 minus the bits of the hidden faces equals the sum of the bits of the exposed faces |
| `GridMap.NeighboursExact` | geometry.py:176-195 | the candidate neighbours are exactly the in-grid 4-neighbours, each once |
| `GridMap.Expand` | geometry.py:161-197 | the result starts with the coordinate itself; every further entry is an in-grid 4-neighbour of it |
| `GridMap.ExpandFromOpenCell` | geometry.py:172-195 | from a cell that is not a door, every in-grid neighbour is returned, in the order north, south, west, east |
| `GridMap.ExpandFromDoor` | geometry.py:174-195 | from a door only non-empty neighbours are returned, and a door already in the history returns only itself |
| `GridMap.GetNewRoom` | geometry.py:142-159 | returns the first empty, unexpanded cell in row-major order; returns None exactly when no such cell exists |
| `Partitioner.DropDoorsKeeps` | geometry.py:67-72 | the door-removal loop adds nothing and keeps every entry that is not a door |
| `Partitioner.DropDoorsSkipsFollower` | geometry.py:69-72 | of two door entries in a row, only the first is removed |
| `Partitioner.RemoveDoorsFromHistory` | geometry.py:69-72 | the pop-while-enumerating loop leaves exactly `DropDoors` of the history |
| `Partitioner.GetDoorByCoordinate` | geometry.py:295-299 | returns the first door at the coordinate; returns None exactly when no door is there |
| `Partitioner.AlreadyExists` | geometry.py:98-101 | true exactly when some registered door sits at the coordinate |
| `Partitioner.BuildDoor` | geometry.py:103-120 | the new door's coordinate is the cell, and its planes are the six faces of the cell in material 7, followed by the two extra walls for its orientation (north below and south above when the cell below is solid, else east to the left and west to the right) |
| `Partitioner.DoorPlanesShape` | geometry.py:106-120 | a door has eight planes, all in material 7 with texture bounds [-0.5, 0.5] and an axis-aligned frame; the two extra walls face along the blocked axis |
| `Partitioner.RegisterDoor` | geometry.py:97-128 | when no door is registered at the cell, a door with the door geometry is built and the registry becomes the old one plus exactly that door; otherwise the registry is unchanged and the first registered door at the cell is returned; new doors keep unique coordinates |
| `Partitioner.SharedDoor` | geometry.py:97-128 | two registered doors at the same coordinate are the same door, so every room that reaches a door cell holds the one door built for it |
| `Partitioner.VisitPassable` | geometry.py:90-132 | a door cell's door (registered or looked up) is appended to the room's doors, and the registry grows only by a newly built door; the cell is appended to the room's inner cells unless already there; border cells, planes, spheres and lights are unchanged |
| `Partitioner.VisitNeighbour` | geometry.py:86-135 | a walkable neighbour is queued exactly when not yet expanded and is appended to the room's inner cells unless already there; a door neighbour's door is appended to the room's doors and the registry grows only by a newly built door; a solid neighbour is appended once to the border cells; nothing else changes |
| `Partitioner.SearchCell` | geometry.py:84-135 | the room's lists only grow. The room gains the searched cell, and otherwise only neighbours of an empty searched cell; border cells come only from those neighbours. Every cell the room gains is expanded or queued, and an empty one is not in the closed history. After searching an empty cell, each of its neighbours is placed: a traversable one (door or empty) among the room's cells, a solid one among its border cells, and an empty one expanded or queued. A door offers only itself, so a door adds nothing beyond itself. The room's door list only grows: it gains exactly one entry per door cell among the visited cells, at that cell and in visiting order, repeats included. Every door new to the registry is among the room's doors |
| `Partitioner.FillRoom` | geometry.py:73-136 | the seed and the old history end up expanded, and the new history is closed under empty neighbours. Every inner cell of the room is expanded, and its empty ones were not in the history. The room is the region reached from the seed. Its first cell is the seed, and every later cell is next to an earlier empty cell. Every neighbour of an empty inner cell is in the room: an inner cell if traversable (so adjacent door cells join), a border cell if solid. Every border cell is next to an empty inner cell. The room is well formed: distinct walkable inner cells, distinct solid border cells, registered doors on its inner cells, and every door cell among them has its door in the room. Every door the fill adds to the registry is held by the room |
| `Partitioner.BuildRoom` | geometry.py:64-139 | after forgetting the doors in the history and filling a room from the seed, every empty cell of the old history is still expanded, the seed is expanded, the history stays closed, and the new room's empty cells were not in the old history; the room is well formed, and it is the region reached from the seed (as in `FillRoom`). Every door added to the registry is held by the new room |
| `Partitioner.MakeRooms` | geometry.py:47-140 | rooms and new doors are appended to the lists passed in; every new door is unique, on a door cell and correctly shaped; every room is well formed and is the region reached from its first cell, an empty cell. A room is grown through empty cells and holds every neighbour of its empty cells: adjacent door cells, with their registered doors, among its cells, and solid cells on its border. Every empty cell of the grid lies in some new room, and in no two of them. Every new door is held by some new room, so it sits on one of that room's cells |
| `Partitioner.DoorSeparatesRooms` | geometry.py:62-140 | on the one-column map `0 / d / 0`, no room meeting the `MakeRooms` guarantees holds both empty cells |
| `Partitioner.DoorSharedByRooms` | geometry.py:97-128 | on the same map, a room holding either empty cell holds the door cell and a registered door at it, so both rooms share that door |
| `Synthesizer.WallFacts` | geometry.py:199-261 | each wall builder gives a face whose normal points out of the cell in its direction, centred on that face of the cell's cube, with a right-handed axis-aligned frame, bounds [-0.5, 0.5] and the given material |
| `Synthesizer.FaceShapes` | geometry.py:199-293 | all six builders use texture bounds [-0.5, 0.5], the given material and three distinct unit axes |
| `Synthesizer.FaceFrameOrthonormal` | geometry.py:199-293 | every face's normal, tangent and bitangent are unit length and pairwise orthogonal |
| `Synthesizer.FloorCeilingFacts` | geometry.py:263-293 | the floor faces up from z = 0 with a right-handed frame; the ceiling faces down from z = 1 with a left-handed frame; both are centred under or over the cell |
| `Synthesizer.ExposedDirectionsExact` | geometry.py:303-313 | walls are emitted for exactly the directions whose bit is set, each once, in north, east, south, west order |
| `Synthesizer.AppendExposedWalls` | geometry.py:303-313 | appends to the target exactly one wall per set bit, in that order, with the given material |
| `Synthesizer.GeometryAtPoint` | geometry.py:301-317 | leaves the target as a prefix; for a non-door cell, appends the masked walls with material value - 1, then, if the cell is empty, its floor and ceiling in their own materials - 1; a door cell appends nothing |
| `Synthesizer.SolidCellWallsFaceOpenSpace` | geometry.py:303-313 | with the computed mask, a solid cell gets a wall in direction d exactly when its neighbour that way is in the grid and walkable |
| `LevelOfDetail.LadderShape` | engine.py:38-46 | the ladder starts at the native size; every entry but the last has both sides above 2 and is followed by the `int(x / 1.25)` of both sides; the last entry has a side of at most 2 |
| `LevelOfDetail.LadderStrictlyDecreasing` | engine.py:42-46 | both sides strictly decrease along the ladder |
| `LevelOfDetail.NextLevelBounded` | engine.py:361-368 | a level inside the ladder stays inside it and moves by at most one; inside the hysteresis band it does not move |
| `LevelOfDetail.NextLevelMoves` | engine.py:361-368 | the level goes finer exactly when the rate is above the band and a finer level exists; it goes coarser exactly when that does not apply, the rate is below the band and a coarser level exists |
| `Renderer.CreateResourceMemory` | engine.py:100-114 | a fresh buffer of 1024 × 20 entries, all 0.0 |
| `Renderer.Scene.constructor` | engine.py:258-322 | a new scene holds the given objects and rooms with `outDated` set, the flag `prepareScene` tests |
| `Renderer.Engine.constructor` | engine.py:9-36 | the ladder is built from the given size, the level is its last rung, the screen size matches that rung, there is one colour buffer per rung sized like it and the one in use is the current rung's, the targets are 60 and 10, the buffer is all zero |
| `Renderer.Engine.CreateLODChain` | engine.py:38-50 | `resolutions` is the ladder of the old screen size, the level is its last index, and the screen size is that rung; the colour buffers, the counts, the targets and the buffer are unchanged |
| `Renderer.Engine.CreateColorBuffers` | engine.py:77-98 | one colour buffer per rung, sized like it; the one in use is the current level's; the ladder, level, screen size, targets, counts and buffer are unchanged |
| `Renderer.Engine.AdaptResolution` | engine.py:361-371 | the new level is `NextLevel` of the old one; the screen size and colour buffer follow the new level; the ladder, colour buffers, targets, counts and buffer are unchanged |
| `Renderer.Engine.RecordSphere` | engine.py:202-216 | the buffer becomes the old buffer with the sphere's 8 values written at the start of slot i (by `Packer.WriteSlotFrame`, nothing else changes) |
| `Renderer.Engine.RecordPlane` | engine.py:218-243 | the same for a plane's 17 values, the material index last |
| `Renderer.Engine.RecordLight` | engine.py:245-256 | the same for a light's 7 values |
| `Renderer.Engine.RecordPrimitive` | engine.py:202-256 | recording one object in the slot after the packed prefix extends the prefix by that object |
| `Renderer.Engine.RecordSphereRun` | engine.py:267-272 | recording a list of spheres one per slot extends the packed prefix by that list |
| `Renderer.Engine.RecordPlaneRun` | engine.py:279-288 | recording a list of planes one per slot extends the packed prefix by that list |
| `Renderer.Engine.RecordLightRun` | engine.py:295-300 | recording a list of lights one per slot extends the packed prefix by that list |
| `Renderer.Engine.RecordSphereRegion` | engine.py:264-275 | the sphere block packs the global spheres, then each active room's spheres, and returns their total |
| `Renderer.Engine.RecordPlaneRegion` | engine.py:277-291 | the plane block packs the global planes, then each room's planes followed by its doors' planes, and returns their total |
| `Renderer.Engine.RecordRoomPlanes` | engine.py:283-289 | one room's turn packs its own planes, then its doors' planes |
| `Renderer.Engine.RecordDoorPlanes` | engine.py:286-289 | packs the planes of each door, in door-list order |
| `Renderer.Engine.RecordLightRegion` | engine.py:293-303 | the light block packs the global lights, then each room's lights, and returns their total |
| `Renderer.Engine.RecordObjects` | engine.py:264-303 | the buffer becomes `Pack` of the old buffer with the scene's layout; the counts are the three region sizes |
| `Renderer.Engine.UpdateScene` | engine.py:258-303 | clears `outDated`; the buffer is the scene layout packed over the old buffer; the three counts are the region sizes; the ladder, level, colour buffers and scene contents are unchanged |
| `Renderer.Engine.PrepareScene` | engine.py:309-322 | an out-of-date scene is uploaded as above; an up-to-date one leaves the buffer and counts untouched; either way the scene ends up marked current, and the ladder, level, colour buffers, screen size, targets and scene contents are unchanged |
| `Packer.Fields` | engine.py:202-256 | every record fits in its 20-value slot |
| `Packer.WriteSlotFrame` | engine.py:202-256 | a slot write changes exactly the first |fields| entries of slot i and leaves every other entry as it was |
| `Packer.PackPointwise` | engine.py:264-303 | after packing, entry j holds field j mod 20 of object j / 20 when that object has such a field, and its old value otherwise |
| `Packer.PackAt` | engine.py:264-303 | object k's field f is at index 20k + f |
| `Packer.PackKeeps` | engine.py:264-303 | entries past the last object and the unused tail of each slot keep their previous values (stale data is not cleared) |
| `Packer.PackIdempotent` | engine.py:264-303 | uploading the same scene twice gives the same buffer as uploading it once |
| `Packer.LayoutRegions` | engine.py:264-303 | spheres take the first region, planes the next, lights the last, each region holding its list in order |
| `Packer.LayoutCounts` | engine.py:269-303 | the three counts are the global objects of each kind plus the sums over the active rooms (a room's planes include its doors' planes) |
| `Packer.FlattenOrder` | engine.py:270-289 | each room's (or door's) objects sit contiguously, right after those of the rooms before it |

## Left out

- OpenGL and pygame calls are not modelled: shader creation, the quad, texture parameters, the buffer upload, the uniforms and camera vectors in `prepareScene`, `renderScene`, `drawScreen` and `destroy`.
- The noise texture and the mega texture (`createNoiseTexture`, `createMegaTexture`) are not modelled; they are random data and image loading.
- A colour buffer is modelled by the size it is allocated with (`ColorBuffer(width, height)`), not by a GL texture handle.
- The sphere, plane and light counts the source sends as shader uniforms are kept as `Engine` fields.
- Float values are modelled as `real`. The buffer is `float32` in the source, and the model does not capture the rounding of stored values. The screen size shrinking step uses `int(x / 1.25)`, modelled as `(4x) / 5` on positive integers. Double-precision division gives the same result for sizes below 1.25·2^51 (2814749767106560). From there on, float rounding can give one more. The first case is x = 2814749767106561: the quotient is 2251799813685248.8, whose nearest double is 2251799813685249.0, so the source gives 2251799813685249 and the model gives 2251799813685248.
- `Renderer.Engine.constructor`: the source's calls run in the order LOD chain, colour buffers, buffer; the model allocates the zero buffer first. The three steps are independent.
- `Renderer.Engine.RecordSphere` (and the plane and light writers): the source writes the entries one statement at a time; the model writes them with one parallel `forall` assignment, which has the same effect.
- `Renderer.Engine.UpdateScene` / `PrepareScene`: require the scene to hold at most 1024 objects; with more, the source fails on an index error, and that failure is not modelled.
- `Partitioner.MakeRooms` (and `FillRoom`, `BuildRoom`): how many times a door appears in a room's door list is stated only per searched cell, by `SearchCell`. Over a whole fill, the contracts state that every listed door is registered and on one of the room's cells, and that every door cell of the room has its door listed; they do not total the repeats.
- `Partitioner.MakeRooms`: requires that no door sits on the last row. The source reads the cell below a door, which would be out of range there.
- `Synthesizer.GeometryAtPoint`: requires that a door cell has no wall bit set. The source would compute `"d" - 1` and fail; the computed mask never sets bits on door cells.
- Doors are values: a door shared by two rooms is the same value in both room lists and in the registry, not the same object. Later mutation through one reference is not modelled; the source never mutates a door after building it.
- `Room`, `Door`, `Plane`, `Sphere` and `Light` are plain records here. `room.py`, `door.py`, `plane.py`, the scene and camera classes, the materials and the shaders are not part of this model.
- `Renderer.Scene` holds only the fields `updateScene` and `prepareScene` read or write (engine.py:258-322). Its constructor stands in for the scene class, which is not part of this model; the camera it also carries is read only by the GL calls left out above.
- `Renderer.Scene.constructor`: sets `outDated` to true, assuming that a new scene is first uploaded by `prepareScene`. The scene class is not part of this model, and no cited line sets the flag initially.
- `GridMap.Rectangular` asks for at least one row and every row as wide as the first. The source fails on an empty map when it reads row 0, which is not modelled. The source also accepts rows longer than the first, and only the first row's width counts there. The model does not cover such ragged maps.
