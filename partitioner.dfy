/** The flood fill that partitions the grid into rooms and builds each door
    once, as `make_rooms` and its helpers do. */
module Partitioner {
  import opened Primitives
  import opened GridMap
  import opened Synthesizer

  // ---------------------------------------------------------------------
  // Removing doors from the history while enumerating it

  predicate IsDoorAt(walls: Grid, c: Coord)
    requires Rectangular(walls)
  {
    InGrid(walls, c) && At(walls, c) == DoorCell
  }

  /** What popping every door entry while enumerating the list leaves: after
      an entry is popped the next one slides into its index and the
      enumeration moves past it, so the entry right after a popped door is
      kept whatever it is. */
  function DropDoors(walls: Grid, s: seq<Coord>): (r: seq<Coord>)
    requires Rectangular(walls)
    decreases |s|
  {
    if s == [] then []
    else if IsDoorAt(walls, s[0]) then
      (if |s| == 1 then [] else [s[1]] + DropDoors(walls, s[2..]))
    else [s[0]] + DropDoors(walls, s[1..])
  }

  /** Nothing is added, and every entry that is not a door survives. */
  lemma {:induction false} DropDoorsKeeps(walls: Grid, s: seq<Coord>)
    requires Rectangular(walls)
    ensures forall c :: c in DropDoors(walls, s) ==> c in s
    ensures forall c :: c in s && !IsDoorAt(walls, c) ==> c in DropDoors(walls, s)
    decreases |s|
  {
    if s == [] {
    } else if IsDoorAt(walls, s[0]) {
      if |s| > 1 {
        DropDoorsKeeps(walls, s[2..]);
        assert s == [s[0], s[1]] + s[2..];
      }
    } else {
      DropDoorsKeeps(walls, s[1..]);
      assert s == [s[0]] + s[1..];
    }
  }

  /** The quirk in action: of two door entries in a row, the second stays. */
  lemma DropDoorsSkipsFollower(walls: Grid, a: Coord, b: Coord)
    requires Rectangular(walls) && IsDoorAt(walls, a) && IsDoorAt(walls, b)
    ensures DropDoors(walls, [a, b]) == [b]
  {
    assert [a, b][2..] == [];
  }

  /** Popping the door at index `i` and moving on to `i + 1` keeps what
      `DropDoors` will leave of the list. */
  lemma PopStep(walls: Grid, e: seq<Coord>, i: nat)
    requires Rectangular(walls) && i < |e| && IsDoorAt(walls, e[i])
    ensures var popped := e[..i] + e[i + 1..];
      (i + 1 <= |popped| ==>
        e[..i] + DropDoors(walls, e[i..]) == popped[..i + 1] + DropDoors(walls, popped[i + 1..])) &&
      (i + 1 == |popped| + 1 ==> e[..i] + DropDoors(walls, e[i..]) == popped)
  {
    var popped := e[..i] + e[i + 1..];
    assert e[i..][1..] == e[i + 1..];
    if i + 1 < |e| {
      assert e[i..][2..] == e[i + 2..];
      assert popped[..i + 1] == e[..i] + [e[i + 1]];
      assert popped[i + 1..] == e[i + 2..];
    } else {
      assert popped == e[..i];
    }
  }

  /** Stepping past a non-door entry keeps what `DropDoors` will leave. */
  lemma KeepStep(walls: Grid, e: seq<Coord>, i: nat)
    requires Rectangular(walls) && i < |e| && !IsDoorAt(walls, e[i])
    ensures e[..i] + DropDoors(walls, e[i..]) == e[..i + 1] + DropDoors(walls, e[i + 1..])
  {
    assert e[i..][1..] == e[i + 1..];
    assert e[..i + 1] == e[..i] + [e[i]];
  }

  /** The history after the source's remove-doors loop (pop at index `i`,
      then move on to `i + 1`). */
  method RemoveDoorsFromHistory(walls: Grid, history: seq<Coord>) returns (expanded: seq<Coord>)
    requires Rectangular(walls)
    ensures expanded == DropDoors(walls, history)
  {
    expanded := history;
    var i := 0;
    assert expanded[i..] == history;
    while i < |expanded|
      invariant i <= |expanded| + 1
      invariant i <= |expanded| ==>
        DropDoors(walls, history) == expanded[..i] + DropDoors(walls, expanded[i..])
      invariant i == |expanded| + 1 ==> DropDoors(walls, history) == expanded
      decreases |expanded| + 1 - i
    {
      var coordinate := expanded[i];
      if IsDoorAt(walls, coordinate) {
        PopStep(walls, expanded, i);
        expanded := expanded[..i] + expanded[i + 1..];
      } else {
        KeepStep(walls, expanded, i);
      }
      i := i + 1;
    }
    if i == |expanded| {
      assert expanded[..i] == expanded;
    }
  }

  // ---------------------------------------------------------------------
  // Door registry

  /** The first door in the registry at `coordinate`, or None. */
  method GetDoorByCoordinate(doors: seq<Door>, coordinate: Coord) returns (r: Option<Door>)
    ensures r.Some? ==> r.value in doors && r.value.coordinate == coordinate
    ensures r.Some? ==> exists k :: 0 <= k < |doors| && doors[k] == r.value &&
                                    forall i :: 0 <= i < k ==> doors[i].coordinate != coordinate
    ensures r.None? <==> forall i :: 0 <= i < |doors| ==> doors[i].coordinate != coordinate
  {
    for k := 0 to |doors|
      invariant forall i :: 0 <= i < k ==> doors[i].coordinate != coordinate
    {
      if doors[k].coordinate == coordinate {
        return Some(doors[k]);
      }
    }
    return None;
  }

  /** Whether some registered door sits at `coordinate` (a full scan). */
  method AlreadyExists(doors: seq<Door>, coordinate: Coord) returns (found: bool)
    ensures found <==> exists i :: 0 <= i < |doors| && doors[i].coordinate == coordinate
  {
    found := false;
    for k := 0 to |doors|
      invariant found <==> exists i :: 0 <= i < k && doors[i].coordinate == coordinate
    {
      if coordinate == doors[k].coordinate {
        found := true;
      }
    }
  }

  /** The cell below a door decides its orientation, so no door may sit on
      the last row. */
  predicate NoDoorInLastRow(walls: Grid)
    requires Rectangular(walls)
  {
    var last := walls[|walls| - 1];
    forall c :: 0 <= c < |last| ==> last[c] != DoorCell
  }

  /** A door whose cell below is solid is horizontal. */
  predicate Horizontal(walls: Grid, c: Coord)
    requires Rectangular(walls) && InGrid(walls, c) && c.row + 1 < |walls|
  {
    !Passable(walls[c.row + 1][c.col])
  }

  /** The eight door planes, all in material 7: the six faces of its own
      cell, then a north wall one row below and a south wall one row above
      for a horizontal door, or an east wall one column left and a west wall
      one column right for a vertical one. */
  predicate DoorGeometry(walls: Grid, d: Door)
    requires Rectangular(walls)
  {
    var c := d.coordinate;
    var row, col := c.row, c.col;
    InGrid(walls, c) && row + 1 < |walls| &&
    d.planes == [NorthWall(row, col, 7), EastWall(row, col, 7), SouthWall(row, col, 7),
                 WestWall(row, col, 7), Ceiling(row, col, 7), Floor(row, col, 7)] +
                (if Horizontal(walls, c)
                 then [NorthWall(row + 1, col, 7), SouthWall(row - 1, col, 7)]
                 else [EastWall(row, col - 1, 7), WestWall(row, col + 1, 7)])
  }

  /** A door has eight planes, every one in material 7 with the standard
      texture bounds and an axis-aligned frame; the two extra walls face away
      from the door cell along the axis the door blocks. */
  lemma DoorPlanesShape(walls: Grid, d: Door)
    requires Rectangular(walls) && DoorGeometry(walls, d)
    ensures |d.planes| == 8
    ensures forall k :: 0 <= k < 8 ==> FaceShape(d.planes[k], 7)
    ensures Horizontal(walls, d.coordinate) ==>
      d.planes[6].normal == Outward(North) && d.planes[7].normal == Outward(South)
    ensures !Horizontal(walls, d.coordinate) ==>
      d.planes[6].normal == Outward(East) && d.planes[7].normal == Outward(West)
  {
    var row, col := d.coordinate.row, d.coordinate.col;
    FaceShapes(row, col, 7);
    if Horizontal(walls, d.coordinate) {
      FaceShapes(row + 1, col, 7);
      FaceShapes(row - 1, col, 7);
    } else {
      FaceShapes(row, col - 1, 7);
      FaceShapes(row, col + 1, 7);
    }
  }

  /** Builds a new door at `coordinate`: its central planes, then the two
      planes its orientation calls for. */
  method BuildDoor(walls: Grid, coordinate: Coord) returns (d: Door)
    requires Rectangular(walls) && InGrid(walls, coordinate) && coordinate.row + 1 < |walls|
    ensures d.coordinate == coordinate && DoorGeometry(walls, d)
  {
    var row, col := coordinate.row, coordinate.col;
    d := Door(coordinate, []);
    d := d.(planes := d.planes + [NorthWall(row, col, 7)]);
    d := d.(planes := d.planes + [EastWall(row, col, 7)]);
    d := d.(planes := d.planes + [SouthWall(row, col, 7)]);
    d := d.(planes := d.planes + [WestWall(row, col, 7)]);
    d := d.(planes := d.planes + [Ceiling(row, col, 7)]);
    d := d.(planes := d.planes + [Floor(row, col, 7)]);
    if !Passable(walls[row + 1][col]) {
      // horizontal: add top and bottom
      d := d.(planes := d.planes + [NorthWall(row + 1, col, 7)]);
      d := d.(planes := d.planes + [SouthWall(row - 1, col, 7)]);
    } else {
      // vertical: add left and right
      d := d.(planes := d.planes + [EastWall(row, col - 1, 7)]);
      d := d.(planes := d.planes + [WestWall(row, col + 1, 7)]);
    }
  }

  // ---------------------------------------------------------------------
  // Rooms

  predicate AllCells(walls: Grid, s: seq<Coord>, passable: bool)
    requires Rectangular(walls)
  {
    forall k :: 0 <= k < |s| ==> InGrid(walls, s[k]) && Passable(At(walls, s[k])) == passable
  }

  /** What the flood fill guarantees of a room it built: its traversable
      cells and its bordering solid cells, each listed once; each of its
      doors is a registered door on one of its traversable cells, and every
      door cell among those has its door in the room; no planes, spheres or
      lights yet. */
  predicate RoomOk(walls: Grid, doors: seq<Door>, room: Room)
    requires Rectangular(walls)
  {
    NoDuplicates(room.internalCoordinates) && AllCells(walls, room.internalCoordinates, true) &&
    NoDuplicates(room.coordinates) && AllCells(walls, room.coordinates, false) &&
    (forall d :: d in room.doors ==> d in doors && d.coordinate in room.internalCoordinates) &&
    (forall c :: c in room.internalCoordinates && IsDoorAt(walls, c) ==>
       exists d :: d in room.doors && d.coordinate == c) &&
    room.planes == [] && room.spheres == [] && room.lights == []
  }

  /** A traversable cell that is not a door. */
  predicate EmptyAt(walls: Grid, c: Coord)
    requires Rectangular(walls)
  {
    InGrid(walls, c) && At(walls, c) == Empty
  }

  /** Every empty 4-neighbour of an empty cell of `s` is in `s` too. */
  predicate Closed(walls: Grid, s: seq<Coord>)
    requires Rectangular(walls)
  {
    forall c :: c in s && EmptyAt(walls, c) ==>
      forall b :: b in Neighbours(walls, c) && EmptyAt(walls, b) ==> b in s
  }

  /** In the grid and traversable: empty or a door. */
  predicate PassableAt(walls: Grid, c: Coord)
    requires Rectangular(walls)
  {
    InGrid(walls, c) && Passable(At(walls, c))
  }

  /** In the grid and solid. */
  predicate SolidAt(walls: Grid, c: Coord)
    requires Rectangular(walls)
  {
    InGrid(walls, c) && !Passable(At(walls, c))
  }

  /** Every in-grid neighbour of `c` is in the room: a traversable one (a door
      included) among its traversable cells, a solid one among its border
      cells. */
  predicate Enclosed(walls: Grid, c: Coord, room: Room)
    requires Rectangular(walls)
  {
    InGrid(walls, c) &&
    forall b :: b in Neighbours(walls, c) ==>
      (PassableAt(walls, b) ==> b in room.internalCoordinates) &&
      (SolidAt(walls, b) ==> b in room.coordinates)
  }

  /** A room never stops at an open cell: all neighbours of each of its empty
      cells are in it. */
  predicate RoomClosed(walls: Grid, room: Room)
    requires Rectangular(walls)
  {
    forall c :: c in room.internalCoordinates && EmptyAt(walls, c) ==> Enclosed(walls, c, room)
  }

  /** Every cell after the first is next to an earlier empty cell: the cells
      form one region grown through empty cells from the first. */
  predicate Grown(walls: Grid, cells: seq<Coord>)
    requires Rectangular(walls)
  {
    forall j :: 0 < j < |cells| ==>
      exists i :: 0 <= i < j && EmptyAt(walls, cells[i]) && Adjacent(cells[i], cells[j])
  }

  /** Every border cell is next to an empty cell of `cells`. */
  predicate Bordering(walls: Grid, cells: seq<Coord>, border: seq<Coord>)
    requires Rectangular(walls)
  {
    forall x :: x in border ==> exists c :: c in cells && EmptyAt(walls, c) && Adjacent(c, x)
  }

  /** The room is exactly what a flood fill from its first cell, an empty
      cell, reaches: grown through empty cells from there, closed under
      neighbours, and bordered by the solid neighbours of its empty cells. */
  predicate Region(walls: Grid, room: Room)
    requires Rectangular(walls)
  {
    |room.internalCoordinates| > 0 && EmptyAt(walls, room.internalCoordinates[0]) &&
    Grown(walls, room.internalCoordinates) &&
    Bordering(walls, room.internalCoordinates, room.coordinates) &&
    RoomClosed(walls, room)
  }

  /** An empty neighbour of an empty cell outside a closed list is outside it. */
  lemma OutsideClosed(walls: Grid, s: seq<Coord>, a: Coord, b: Coord)
    requires Rectangular(walls) && Closed(walls, s)
    requires EmptyAt(walls, a) && EmptyAt(walls, b) && b in Neighbours(walls, a) && a !in s
    ensures b !in s
  {
    NeighboursExact(walls, a);
    NeighboursExact(walls, b);
    assert a in Neighbours(walls, b);
  }

  /** Two registered doors at one coordinate are the same door, so every room
      reaching a door cell holds the one door built for it. */
  lemma SharedDoor(walls: Grid, doors: seq<Door>, d1: Door, d2: Door)
    requires Rectangular(walls) && NewDoorsOk(walls, doors, 0)
    requires d1 in doors && d2 in doors && d1.coordinate == d2.coordinate
    ensures d1 == d2
  {
    var i :| 0 <= i < |doors| && doors[i] == d1;
    var j :| 0 <= j < |doors| && doors[j] == d2;
  }

  /** The doors from index `n` on sit on door cells, carry the door geometry
      and each has a coordinate no earlier door has. */
  predicate NewDoorsOk(walls: Grid, doors: seq<Door>, n: nat)
    requires Rectangular(walls)
  {
    forall j :: n <= j < |doors| ==>
      IsDoorAt(walls, doors[j].coordinate) && DoorGeometry(walls, doors[j]) &&
      forall i :: 0 <= i < j ==> doors[i].coordinate != doors[j].coordinate
  }

  function Elems<T>(s: seq<T>): set<T> {
    set x | x in s
  }

  /** Every traversable cell listed by some room of `rooms`. */
  function Covered(rooms: seq<Room>): set<Coord> {
    if rooms == [] then {}
    else Covered(rooms[..|rooms| - 1]) + Elems(rooms[|rooms| - 1].internalCoordinates)
  }

  lemma RoomOkGrows(walls: Grid, doors: seq<Door>, more: seq<Door>, room: Room)
    requires Rectangular(walls) && RoomOk(walls, doors, room)
    ensures RoomOk(walls, doors + more, room)
  {
  }

  /** A door cell reached by the search: build and register its door the
      first time, otherwise look up the door built for it earlier. */
  method RegisterDoor(walls: Grid, coordinate: Coord, doors: seq<Door>, ghost n: nat)
    returns (doors': seq<Door>, door: Door)
    requires Rectangular(walls) && NoDoorInLastRow(walls) && InGrid(walls, coordinate)
    requires At(walls, coordinate) == DoorCell
    requires n <= |doors| && NewDoorsOk(walls, doors, n)
    ensures |doors| <= |doors'| && doors'[..|doors|] == doors && NewDoorsOk(walls, doors', n)
    ensures door in doors' && door.coordinate == coordinate
    ensures (exists i :: 0 <= i < |doors| && doors[i].coordinate == coordinate) ==>
      doors' == doors &&
      exists k :: 0 <= k < |doors| && doors[k] == door &&
                  forall i :: 0 <= i < k ==> doors[i].coordinate != coordinate
    ensures !(exists i :: 0 <= i < |doors| && doors[i].coordinate == coordinate) ==>
      doors' == doors + [door] && DoorGeometry(walls, door)
  {
    var alreadyExists := AlreadyExists(doors, coordinate);
    if !alreadyExists {
      assert coordinate.row + 1 < |walls|;
      door := BuildDoor(walls, coordinate);
      doors' := doors + [door];
    } else {
      var found := GetDoorByCoordinate(doors, coordinate);
      doors', door := doors, found.value;
    }
  }

  /** A traversable neighbour joins the room: a door cell first has its
      door registered (or looked up) and added to the room's doors, then the
      cell is listed among the room's traversable cells unless it already is. */
  method VisitPassable(walls: Grid, coordinate: Coord, doors: seq<Door>, room: Room, ghost n: nat)
    returns (doors': seq<Door>, room': Room)
    requires Rectangular(walls) && NoDoorInLastRow(walls) && InGrid(walls, coordinate)
    requires Passable(At(walls, coordinate))
    requires n <= |doors| && NewDoorsOk(walls, doors, n) && RoomOk(walls, doors, room)
    ensures |doors| <= |doors'| && doors'[..|doors|] == doors
    ensures NewDoorsOk(walls, doors', n) && RoomOk(walls, doors', room')
    ensures room'.internalCoordinates == room.internalCoordinates +
      (if coordinate !in room.internalCoordinates then [coordinate] else [])
    ensures room'.coordinates == room.coordinates
    ensures room'.planes == room.planes && room'.spheres == room.spheres && room'.lights == room.lights
    ensures At(walls, coordinate) != DoorCell ==> room'.doors == room.doors && doors' == doors
    ensures At(walls, coordinate) == DoorCell ==>
      |room'.doors| == |room.doors| + 1 && room'.doors[..|room.doors|] == room.doors &&
      room'.doors[|room.doors|].coordinate == coordinate &&
      doors' == doors + (if exists i :: 0 <= i < |doors| && doors[i].coordinate == coordinate
                         then [] else [room'.doors[|room.doors|]])
  {
    doors', room' := doors, room;
    ghost var added: seq<Door> := [];
    if At(walls, coordinate) == DoorCell {
      var door;
      doors', door := RegisterDoor(walls, coordinate, doors, n);
      room' := room'.(doors := room.doors + [door]);
      added := [door];
    }
    if coordinate !in room'.internalCoordinates {
      room' := room'.(internalCoordinates := room'.internalCoordinates + [coordinate]);
    }
    assert doors == doors'[..|doors|];
    RoomJoin(walls, doors, doors', room, coordinate, added);
  }

  /** A room stays well formed when a traversable cell joins it together
      with the doors found there, against a registry that only grew. */
  lemma RoomJoin(walls: Grid, doors: seq<Door>, doors': seq<Door>, room: Room, c: Coord, added: seq<Door>)
    requires Rectangular(walls) && InGrid(walls, c) && Passable(At(walls, c))
    requires RoomOk(walls, doors, room)
    requires |doors| <= |doors'| && doors'[..|doors|] == doors
    requires forall d :: d in added ==> d in doors' && d.coordinate == c
    requires IsDoorAt(walls, c) ==> |added| > 0
    ensures RoomOk(walls, doors', room.(
      internalCoordinates := room.internalCoordinates + (if c in room.internalCoordinates then [] else [c]),
      doors := room.doors + added))
  {
    var ic := room.internalCoordinates + (if c in room.internalCoordinates then [] else [c]);
    forall d | d in room.doors
      ensures d in doors'
    {
      assert d in doors'[..|doors|];
    }
    forall x | x in ic && IsDoorAt(walls, x)
      ensures exists d :: d in room.doors + added && d.coordinate == x
    {
      if x == c {
        assert added[0] in room.doors + added;
      } else {
        var d :| d in room.doors && d.coordinate == x;
        assert d in room.doors + added;
      }
    }
  }

  /** The body of the loop over the neighbours of the searched cell: queue a
      traversable neighbour not yet expanded, register or look up a door,
      and record the neighbour in the room. */
  method VisitNeighbour(walls: Grid, coordinate: Coord, expanded: seq<Coord>,
                        queue: seq<Coord>, doors: seq<Door>, room: Room, ghost n: nat)
    returns (queue': seq<Coord>, doors': seq<Door>, room': Room)
    requires Rectangular(walls) && NoDoorInLastRow(walls) && InGrid(walls, coordinate)
    requires n <= |doors| && NewDoorsOk(walls, doors, n) && RoomOk(walls, doors, room)
    ensures queue' == queue +
      (if Passable(At(walls, coordinate)) && coordinate !in expanded then [coordinate] else [])
    ensures |doors| <= |doors'| && doors'[..|doors|] == doors
    ensures NewDoorsOk(walls, doors', n) && RoomOk(walls, doors', room')
    ensures room'.internalCoordinates == room.internalCoordinates +
      (if Passable(At(walls, coordinate)) && coordinate !in room.internalCoordinates
       then [coordinate] else [])
    ensures room'.coordinates == room.coordinates +
      (if !Passable(At(walls, coordinate)) && coordinate !in room.coordinates
       then [coordinate] else [])
    ensures room'.planes == room.planes && room'.spheres == room.spheres && room'.lights == room.lights
    ensures At(walls, coordinate) != DoorCell ==> room'.doors == room.doors && doors' == doors
    ensures At(walls, coordinate) == DoorCell ==>
      |room'.doors| == |room.doors| + 1 && room'.doors[..|room.doors|] == room.doors &&
      room'.doors[|room.doors|].coordinate == coordinate &&
      doors' == doors + (if exists i :: 0 <= i < |doors| && doors[i].coordinate == coordinate
                         then [] else [room'.doors[|room.doors|]])
  {
    queue', doors', room' := queue, doors, room;
    var row, col := coordinate.row, coordinate.col;
    if Passable(walls[row][col]) {
      if coordinate !in expanded {
        queue' := queue' + [coordinate];
      }
      doors', room' := VisitPassable(walls, coordinate, doors, room, n);
    } else if coordinate !in room'.coordinates {
      room' := room'.(coordinates := room'.coordinates + [coordinate]);
    }
  }

  /** Every empty neighbour of an empty cell of `expanded` is expanded too
      or still waits in the queue. */
  predicate Frontier(walls: Grid, expanded: seq<Coord>, queue: seq<Coord>)
    requires Rectangular(walls)
  {
    forall c :: c in expanded && EmptyAt(walls, c) ==>
      forall b :: b in Neighbours(walls, c) && EmptyAt(walls, b) ==> b in expanded || b in queue
  }

  /** Dropping the head of the queue keeps the frontier when the head was
      already expanded. */
  lemma FrontierPop(walls: Grid, expanded: seq<Coord>, queue: seq<Coord>)
    requires Rectangular(walls) && |queue| > 0 && queue[0] in expanded
    requires Frontier(walls, expanded, queue)
    ensures Frontier(walls, expanded, queue[1..])
  {
    assert queue == [queue[0]] + queue[1..];
  }

  /** Expanding the head of the queue and queueing its empty neighbours (the
      queue only grows) keeps the frontier. */
  lemma FrontierPush(walls: Grid, expanded: seq<Coord>, queue: seq<Coord>, queue': seq<Coord>)
    requires Rectangular(walls) && |queue| > 0 && Frontier(walls, expanded, queue)
    requires |queue| - 1 <= |queue'| && queue'[..|queue| - 1] == queue[1..]
    requires EmptyAt(walls, queue[0]) ==>
      forall b :: b in Neighbours(walls, queue[0]) && EmptyAt(walls, b) ==>
        b in expanded + [queue[0]] || b in queue'
    ensures Frontier(walls, expanded + [queue[0]], queue')
  {
    assert queue == [queue[0]] + queue'[..|queue| - 1];
    forall c | c in expanded + [queue[0]] && EmptyAt(walls, c)
      ensures forall b :: b in Neighbours(walls, c) && EmptyAt(walls, b) ==>
        b in expanded + [queue[0]] || b in queue'
    {
      if c != queue[0] {
        assert c in expanded;
        forall b | b in Neighbours(walls, c) && EmptyAt(walls, b) && b !in expanded
          ensures b in expanded + [queue[0]] || b in queue'
        {
          assert b in queue;
        }
      }
    }
  }

  lemma PrefixTrans<T>(a: seq<T>, b: seq<T>, c: seq<T>)
    requires |a| <= |b| && b[..|a|] == a && |b| <= |c| && c[..|b|] == b
    ensures |a| <= |c| && c[..|a|] == a
  {
    assert c[..|a|] == c[..|b|][..|a|];
  }

  /** A prefix keeps every element. */
  lemma PrefixIn<T>(a: seq<T>, b: seq<T>)
    requires |a| <= |b| && b[..|a|] == a
    ensures forall x :: x in a ==> x in b
  {
    forall x | x in a
      ensures x in b
    {
      var i :| 0 <= i < |a| && a[i] == x;
      assert b[i] == x;
    }
  }

  /** The cells one search step may add to a room's traversable cells: the
      searched cell and, when it is empty, its in-grid neighbours. */
  function Reach(walls: Grid, searched: Coord): set<Coord>
    requires Rectangular(walls) && InGrid(walls, searched)
  {
    {searched} + Rim(walls, searched)
  }

  /** The cells one search step may add to a room's border: the in-grid
      neighbours of an empty searched cell. */
  function Rim(walls: Grid, searched: Coord): set<Coord>
    requires Rectangular(walls) && InGrid(walls, searched)
  {
    if At(walls, searched) == Empty then Elems(Neighbours(walls, searched)) else {}
  }

  /** What a search step from `searched` has done to a room so far: only
      appended to its lists, traversable cells within reach of the searched
      cell and border cells on its rim. */
  predicate Grew(walls: Grid, searched: Coord, room: Room, room': Room)
    requires Rectangular(walls) && InGrid(walls, searched)
  {
    |room.internalCoordinates| <= |room'.internalCoordinates| &&
    room'.internalCoordinates[..|room.internalCoordinates|] == room.internalCoordinates &&
    (forall j :: |room.internalCoordinates| <= j < |room'.internalCoordinates| ==>
       room'.internalCoordinates[j] in Reach(walls, searched)) &&
    |room.coordinates| <= |room'.coordinates| && room'.coordinates[..|room.coordinates|] == room.coordinates &&
    (forall j :: |room.coordinates| <= j < |room'.coordinates| ==> room'.coordinates[j] in Rim(walls, searched))
  }

  /** Visiting one more cell in reach (a solid one on the rim) keeps `Grew`. */
  lemma GrewStep(walls: Grid, searched: Coord, room: Room, before: Room, after: Room, x: Coord)
    requires Rectangular(walls) && InGrid(walls, searched) && InGrid(walls, x)
    requires Grew(walls, searched, room, before)
    requires x in Reach(walls, searched) && (!Passable(At(walls, x)) ==> x in Rim(walls, searched))
    requires after.internalCoordinates == before.internalCoordinates +
      (if Passable(At(walls, x)) && x !in before.internalCoordinates then [x] else [])
    requires after.coordinates == before.coordinates +
      (if !Passable(At(walls, x)) && x !in before.coordinates then [x] else [])
    ensures Grew(walls, searched, room, after)
  {
    assert after.internalCoordinates[..|room.internalCoordinates|] ==
      before.internalCoordinates[..|room.internalCoordinates|];
    assert after.coordinates[..|room.coordinates|] == before.coordinates[..|room.coordinates|];
  }

  /** The door cells of `visited`, in visiting order and with repeats. */
  function DoorCells(walls: Grid, visited: seq<Coord>): seq<Coord>
    requires Rectangular(walls)
  {
    if visited == [] then []
    else
      var last := visited[|visited| - 1];
      DoorCells(walls, visited[..|visited| - 1]) + (if IsDoorAt(walls, last) then [last] else [])
  }

  /** The coordinates of a list of doors, in order. */
  function DoorCoords(ds: seq<Door>): seq<Coord> {
    if ds == [] then [] else DoorCoords(ds[..|ds| - 1]) + [ds[|ds| - 1].coordinate]
  }

  /** What visiting the cells of `visited` has done to the doors: the room's
      doors gained one entry per door cell visited, in order and repeats
      included, and every door new to the registry is among them. */
  predicate DoorsLogged(walls: Grid, visited: seq<Coord>, doors: seq<Door>, doors': seq<Door>,
                        room: Room, room': Room)
    requires Rectangular(walls)
  {
    |room.doors| <= |room'.doors| && room'.doors[..|room.doors|] == room.doors &&
    DoorCoords(room'.doors[|room.doors|..]) == DoorCells(walls, visited) &&
    forall j :: |doors| <= j < |doors'| ==> doors'[j] in room'.doors
  }

  /** Visiting one more cell keeps `DoorsLogged`: a door cell appends one door
      at that cell to the room, and to the registry only that same door. */
  lemma DoorsStep(walls: Grid, neighbors: seq<Coord>, k: nat, doors: seq<Door>, room: Room,
                  doors0: seq<Door>, room0: Room, doors1: seq<Door>, room1: Room)
    requires Rectangular(walls) && k < |neighbors| && InGrid(walls, neighbors[k])
    requires DoorsLogged(walls, neighbors[..k], doors, doors0, room, room0)
    requires |doors0| <= |doors1| && doors1[..|doors0|] == doors0
    requires At(walls, neighbors[k]) != DoorCell ==> room1.doors == room0.doors && doors1 == doors0
    requires At(walls, neighbors[k]) == DoorCell ==>
      |room1.doors| == |room0.doors| + 1 && room1.doors[..|room0.doors|] == room0.doors &&
      room1.doors[|room0.doors|].coordinate == neighbors[k] &&
      doors1 == doors0 + (if exists i :: 0 <= i < |doors0| && doors0[i].coordinate == neighbors[k]
                          then [] else [room1.doors[|room0.doors|]])
    ensures DoorsLogged(walls, neighbors[..k + 1], doors, doors1, room, room1)
  {
    var x := neighbors[k];
    assert neighbors[..k + 1][..k] == neighbors[..k];
    if At(walls, x) == DoorCell {
      var added := room1.doors[|room.doors|..];
      assert added[..|added| - 1] == room0.doors[|room.doors|..];
      assert room1.doors[..|room.doors|] == room0.doors[..|room.doors|];
      forall j | |doors| <= j < |doors1|
        ensures doors1[j] in room1.doors
      {
        if j < |doors0| {
          assert doors1[j] == doors0[j];
          var i :| 0 <= i < |room0.doors| && room0.doors[i] == doors0[j];
          assert room1.doors[i] == room0.doors[i];
        } else {
          assert doors1[j] == room1.doors[|room0.doors|];
        }
      }
    }
  }

  /** Where a visited cell ends up: an empty one expanded or queued, a
      traversable one in the room, a solid one on its border. */
  predicate Settled(walls: Grid, c: Coord, expanded: seq<Coord>, queue: seq<Coord>, room: Room)
    requires Rectangular(walls)
  {
    (EmptyAt(walls, c) ==> c in expanded || c in queue) &&
    (PassableAt(walls, c) ==> c in room.internalCoordinates) &&
    (SolidAt(walls, c) ==> c in room.coordinates)
  }

  /** The bookkeeping of one pass of the loop over the neighbours of the
      searched cell: every cell visited so far has settled, the queue gains
      only cells of the room, and the room gains only cells expanded or
      queued, none of them an empty cell of the history. */
  lemma VisitStep(walls: Grid, searched: Coord, expanded: seq<Coord>, queue: seq<Coord>, room: Room,
                  history: seq<Coord>, neighbors: seq<Coord>, k: nat,
                  queue0: seq<Coord>, room0: Room, queue1: seq<Coord>, room1: Room)
    requires Rectangular(walls) && InGrid(walls, searched) && searched in expanded && searched !in history
    requires k < |neighbors| && neighbors[0] == searched && InGrid(walls, neighbors[k])
    requires k > 0 && EmptyAt(walls, neighbors[k]) ==> neighbors[k] !in history
    requires forall c :: c in queue0 ==> c in queue || (PassableAt(walls, c) && c in room0.internalCoordinates)
    requires forall c :: c in room0.internalCoordinates ==>
      c in room.internalCoordinates || c in expanded || c in queue0
    requires forall c :: c in room0.internalCoordinates && EmptyAt(walls, c) ==> c !in history
    requires forall j :: 0 <= j < k ==> Settled(walls, neighbors[j], expanded, queue0, room0)
    requires queue1 == queue0 +
      (if Passable(At(walls, neighbors[k])) && neighbors[k] !in expanded then [neighbors[k]] else [])
    requires room1.internalCoordinates == room0.internalCoordinates +
      (if Passable(At(walls, neighbors[k])) && neighbors[k] !in room0.internalCoordinates
       then [neighbors[k]] else [])
    requires room1.coordinates == room0.coordinates +
      (if !Passable(At(walls, neighbors[k])) && neighbors[k] !in room0.coordinates
       then [neighbors[k]] else [])
    ensures forall c :: c in queue1 ==> c in queue || (PassableAt(walls, c) && c in room1.internalCoordinates)
    ensures forall c :: c in room1.internalCoordinates ==>
      c in room.internalCoordinates || c in expanded || c in queue1
    ensures forall c :: c in room1.internalCoordinates && EmptyAt(walls, c) ==> c !in history
    ensures forall j :: 0 <= j < k + 1 ==> Settled(walls, neighbors[j], expanded, queue1, room1)
  {
    forall j | 0 <= j < k
      ensures Settled(walls, neighbors[j], expanded, queue1, room1)
    {
      assert Settled(walls, neighbors[j], expanded, queue0, room0);
    }
  }

  /** What the loop over the neighbours of `searched` keeps after visiting
      the first `k` of them. */
  predicate Searching(walls: Grid, searched: Coord, expanded: seq<Coord>, queue: seq<Coord>,
                      doors: seq<Door>, room: Room, history: seq<Coord>, neighbors: seq<Coord>, k: nat,
                      queue': seq<Coord>, doors': seq<Door>, room': Room)
    requires Rectangular(walls) && InGrid(walls, searched) && k <= |neighbors|
  {
    |queue| <= |queue'| && queue'[..|queue|] == queue &&
    (forall c :: c in queue' ==> c in queue || (PassableAt(walls, c) && c in room'.internalCoordinates)) &&
    |doors| <= |doors'| && doors'[..|doors|] == doors &&
    Grew(walls, searched, room, room') &&
    (k == 0 ==> room'.internalCoordinates == room.internalCoordinates) &&
    (k > 0 ==> searched in room'.internalCoordinates) &&
    (k > 0 && searched !in room.internalCoordinates ==>
       |room'.internalCoordinates| > |room.internalCoordinates| &&
       room'.internalCoordinates[|room.internalCoordinates|] == searched) &&
    (forall c :: c in room'.internalCoordinates ==>
       c in room.internalCoordinates || c in expanded || c in queue') &&
    (forall c :: c in room'.internalCoordinates && EmptyAt(walls, c) ==> c !in history) &&
    (forall j :: 0 <= j < k ==> Settled(walls, neighbors[j], expanded, queue', room')) &&
    DoorsLogged(walls, neighbors[..k], doors, doors', room, room')
  }

  /** Visiting the neighbour at index `k` keeps `Searching`. */
  lemma SearchStep(walls: Grid, searched: Coord, expanded: seq<Coord>, queue: seq<Coord>,
                   doors: seq<Door>, room: Room, history: seq<Coord>, neighbors: seq<Coord>, k: nat,
                   queue0: seq<Coord>, doors0: seq<Door>, room0: Room,
                   queue1: seq<Coord>, doors1: seq<Door>, room1: Room)
    requires Rectangular(walls) && InGrid(walls, searched) && Passable(At(walls, searched))
    requires searched in expanded && Closed(walls, history) && searched !in history
    requires k < |neighbors| && neighbors[0] == searched
    requires forall i :: 0 < i < |neighbors| ==> neighbors[i] in Rim(walls, searched)
    requires Searching(walls, searched, expanded, queue, doors, room, history, neighbors, k, queue0, doors0, room0)
    requires InGrid(walls, neighbors[k])
    requires queue1 == queue0 +
      (if Passable(At(walls, neighbors[k])) && neighbors[k] !in expanded then [neighbors[k]] else [])
    requires |doors0| <= |doors1| && doors1[..|doors0|] == doors0
    requires room1.internalCoordinates == room0.internalCoordinates +
      (if Passable(At(walls, neighbors[k])) && neighbors[k] !in room0.internalCoordinates
       then [neighbors[k]] else [])
    requires room1.coordinates == room0.coordinates +
      (if !Passable(At(walls, neighbors[k])) && neighbors[k] !in room0.coordinates
       then [neighbors[k]] else [])
    requires At(walls, neighbors[k]) != DoorCell ==> room1.doors == room0.doors && doors1 == doors0
    requires At(walls, neighbors[k]) == DoorCell ==>
      |room1.doors| == |room0.doors| + 1 && room1.doors[..|room0.doors|] == room0.doors &&
      room1.doors[|room0.doors|].coordinate == neighbors[k] &&
      doors1 == doors0 + (if exists i :: 0 <= i < |doors0| && doors0[i].coordinate == neighbors[k]
                          then [] else [room1.doors[|room0.doors|]])
    ensures Searching(walls, searched, expanded, queue, doors, room, history, neighbors, k + 1,
                      queue1, doors1, room1)
  {
    var coordinate := neighbors[k];
    if k > 0 && EmptyAt(walls, coordinate) {
      OutsideClosed(walls, history, searched, coordinate);
    }
    PrefixTrans(doors, doors0, doors1);
    PrefixTrans(queue, queue0, queue1);
    GrewStep(walls, searched, room, room0, room1, coordinate);
    VisitStep(walls, searched, expanded, queue, room, history, neighbors, k, queue0, room0, queue1, room1);
    DoorsStep(walls, neighbors, k, doors, room, doors0, room0, doors1, room1);
  }

  /** One searched cell: visit every coordinate `Expand` returns for it. An
      empty cell offers all its in-grid neighbours, so afterwards each of them
      is in the room or on its border, and the empty ones are expanded or
      queued; a door offers only itself. The room only grows, by the
      searched cell and its neighbours, and an empty cell it gains lies
      outside the closed history. */
  method SearchCell(walls: Grid, searched: Coord, expanded: seq<Coord>, queue: seq<Coord>,
                    doors: seq<Door>, room: Room, ghost n: nat, ghost history: seq<Coord>)
    returns (queue': seq<Coord>, doors': seq<Door>, room': Room)
    requires Rectangular(walls) && NoDoorInLastRow(walls)
    requires InGrid(walls, searched) && Passable(At(walls, searched)) && searched in expanded
    requires Closed(walls, history) && searched !in history
    requires n <= |doors| && NewDoorsOk(walls, doors, n) && RoomOk(walls, doors, room)
    requires forall c :: c in room.internalCoordinates && EmptyAt(walls, c) ==> c !in history
    ensures |queue| <= |queue'| && queue'[..|queue|] == queue
    ensures forall c :: c in queue' ==> c in queue || (PassableAt(walls, c) && c in room'.internalCoordinates)
    ensures |doors| <= |doors'| && doors'[..|doors|] == doors
    ensures NewDoorsOk(walls, doors', n) && RoomOk(walls, doors', room')
    ensures Grew(walls, searched, room, room') && searched in room'.internalCoordinates
    ensures searched !in room.internalCoordinates ==>
      |room'.internalCoordinates| > |room.internalCoordinates| &&
      room'.internalCoordinates[|room.internalCoordinates|] == searched
    ensures forall c :: c in room'.internalCoordinates ==>
      c in room.internalCoordinates || c in expanded || c in queue'
    ensures forall c :: c in room'.internalCoordinates && EmptyAt(walls, c) ==> c !in history
    ensures EmptyAt(walls, searched) ==>
      (forall b :: b in Neighbours(walls, searched) && EmptyAt(walls, b) ==> b in expanded || b in queue') &&
      Enclosed(walls, searched, room')
    ensures DoorsLogged(walls, Expand(walls, searched, expanded), doors, doors', room, room')
  {
    queue', doors', room' := queue, doors, room;
    var neighbors := Expand(walls, searched, expanded);
    if At(walls, searched) == DoorCell {
      ExpandFromDoor(walls, searched, expanded);
    } else {
      ExpandFromOpenCell(walls, searched, expanded);
    }
    assert neighbors[0] == searched;
    assert forall k :: 0 < k < |neighbors| ==> neighbors[k] in Rim(walls, searched);
    for k := 0 to |neighbors|
      invariant NewDoorsOk(walls, doors', n) && RoomOk(walls, doors', room')
      invariant Searching(walls, searched, expanded, queue, doors, room, history, neighbors, k, queue', doors', room')
    {
      ghost var before, beforeQueue, beforeRoom := doors', queue', room';
      queue', doors', room' := VisitNeighbour(walls, neighbors[k], expanded, queue', doors', room', n);
      SearchStep(walls, searched, expanded, queue, doors, room, history, neighbors, k,
                 beforeQueue, before, beforeRoom, queue', doors', room');
    }
    assert neighbors[..|neighbors|] == neighbors;
    if EmptyAt(walls, searched) {
      forall b | b in Neighbours(walls, searched)
        ensures Settled(walls, b, expanded, queue', room')
      {
        assert b in neighbors;
      }
    }
  }

  /** A room grown by one search step from a cell already in it (or, for the
      first step, from its first cell) stays grown through empty cells. */
  lemma GrownStep(walls: Grid, room: Room, room': Room, searched: Coord)
    requires Rectangular(walls) && InGrid(walls, searched) && Grew(walls, searched, room, room')
    requires Grown(walls, room.internalCoordinates) && NoDuplicates(room'.internalCoordinates)
    requires searched in room.internalCoordinates ||
      (room.internalCoordinates == [] && |room'.internalCoordinates| > 0 && room'.internalCoordinates[0] == searched)
    ensures Grown(walls, room'.internalCoordinates)
  {
    var cells, cells' := room.internalCoordinates, room'.internalCoordinates;
    NeighboursExact(walls, searched);
    forall j | 0 < j < |cells'|
      ensures exists i :: 0 <= i < j && EmptyAt(walls, cells'[i]) && Adjacent(cells'[i], cells'[j])
    {
      if j < |cells| {
        assert cells'[j] == cells[j];
        var i :| 0 <= i < j && EmptyAt(walls, cells[i]) && Adjacent(cells[i], cells[j]);
        assert cells'[i] == cells[i];
      } else if cells'[j] != searched {
        var i :| 0 <= i < |cells'| && cells'[i] == searched;
        if searched in cells {
          i :| 0 <= i < |cells| && cells[i] == searched;
          assert cells'[i] == searched;
        } else {
          i := 0;
        }
        assert 0 <= i < j && EmptyAt(walls, cells'[i]) && Adjacent(cells'[i], cells'[j]);
      }
    }
  }

  /** The border gained in a search step lies next to the searched cell, an
      empty cell of the room. */
  lemma BorderStep(walls: Grid, room: Room, room': Room, searched: Coord)
    requires Rectangular(walls) && InGrid(walls, searched) && Grew(walls, searched, room, room')
    requires Bordering(walls, room.internalCoordinates, room.coordinates)
    requires searched in room'.internalCoordinates
    ensures Bordering(walls, room'.internalCoordinates, room'.coordinates)
  {
    NeighboursExact(walls, searched);
    PrefixIn(room.internalCoordinates, room'.internalCoordinates);
    forall x | x in room'.coordinates
      ensures exists c :: c in room'.internalCoordinates && EmptyAt(walls, c) && Adjacent(c, x)
    {
      var j :| 0 <= j < |room'.coordinates| && room'.coordinates[j] == x;
      if j < |room.coordinates| {
        assert x in room.coordinates;
        var c :| c in room.internalCoordinates && EmptyAt(walls, c) && Adjacent(c, x);
        assert c in room'.internalCoordinates;
      } else {
        assert x in Rim(walls, searched);
        assert EmptyAt(walls, searched) && Adjacent(searched, x);
      }
    }
  }

  /** A cell enclosed by a room stays enclosed as the room grows. */
  lemma EnclosedKept(walls: Grid, searched: Coord, room: Room, room': Room)
    requires Rectangular(walls) && InGrid(walls, searched) && Grew(walls, searched, room, room')
    ensures forall c :: Enclosed(walls, c, room) ==> Enclosed(walls, c, room')
  {
    PrefixIn(room.internalCoordinates, room'.internalCoordinates);
    PrefixIn(room.coordinates, room'.coordinates);
  }

  /** The part of the fill invariant that speaks of the queue: it holds
      traversable cells of the room (or the seed), the seed is expanded or
      first in line, every empty neighbour of an expanded empty cell is
      expanded or queued, and every cell of the room is expanded or queued. */
  predicate Queued(walls: Grid, start: Coord, expanded: seq<Coord>, queue: seq<Coord>, room: Room)
    requires Rectangular(walls)
  {
    (forall c :: c in queue ==> PassableAt(walls, c) && (c in room.internalCoordinates || c == start)) &&
    (start in expanded || (|queue| > 0 && queue[0] == start)) &&
    Frontier(walls, expanded, queue) &&
    (forall c :: c in room.internalCoordinates ==> c in expanded || c in queue)
  }

  /** The fill loop's invariant: queued cells are traversable cells of the
      room or the seed; the seed is expanded or next; expanded cells are
      covered or in the room; every empty neighbour of an expanded empty cell
      is expanded or queued; every cell of the room is expanded or queued;
      the room starts at the seed, is grown through empty cells and bordered
      by their neighbours; and each newly expanded empty cell is in the room
      with all its neighbours. */
  predicate Filling(walls: Grid, start: Coord, history: seq<Coord>, covered: set<Coord>,
                    expanded: seq<Coord>, queue: seq<Coord>, room: Room)
    requires Rectangular(walls)
  {
    Queued(walls, start, expanded, queue, room) &&
    (forall c :: c in expanded ==> c in covered || c in room.internalCoordinates) &&
    (|room.internalCoordinates| > 0 ==> room.internalCoordinates[0] == start) &&
    Grown(walls, room.internalCoordinates) &&
    Bordering(walls, room.internalCoordinates, room.coordinates) &&
    (forall c :: c in expanded && c !in history && EmptyAt(walls, c) ==>
       c in room.internalCoordinates && Enclosed(walls, c, room))
  }

  /** Dropping a head of the queue that was already expanded keeps the fill
      loop's invariant. */
  lemma SkipStep(walls: Grid, start: Coord, history: seq<Coord>, covered: set<Coord>,
                 expanded: seq<Coord>, queue: seq<Coord>, room: Room)
    requires Rectangular(walls) && |queue| > 0 && queue[0] in expanded
    requires Filling(walls, start, history, covered, expanded, queue, room)
    ensures Filling(walls, start, history, covered, expanded, queue[1..], room)
  {
    assert Queued(walls, start, expanded, queue[1..], room) by {
      FrontierPop(walls, expanded, queue);
      assert queue == [queue[0]] + queue[1..];
    }
  }

  /** The bookkeeping of one pass of the fill loop that expands the head of
      the queue: the loop's invariants about the queue, the history and the
      room carry over the search step. */
  lemma FillStep(walls: Grid, start: Coord, history: seq<Coord>, covered: set<Coord>,
                 expanded0: seq<Coord>, queue0: seq<Coord>, room0: Room,
                 rest: seq<Coord>, expanded: seq<Coord>, queue: seq<Coord>, room: Room)
    requires Rectangular(walls) && |queue0| > 0 && InGrid(walls, queue0[0])
    requires queue0[0] !in expanded0 && expanded == expanded0 + [queue0[0]] && rest == queue0[1..]
    requires Filling(walls, start, history, covered, expanded0, queue0, room0)
    requires |rest| <= |queue| && queue[..|rest|] == rest
    requires forall c :: c in queue ==> c in rest || (PassableAt(walls, c) && c in room.internalCoordinates)
    requires NoDuplicates(room.internalCoordinates)
    requires Grew(walls, queue0[0], room0, room) && queue0[0] in room.internalCoordinates
    requires queue0[0] !in room0.internalCoordinates ==>
      |room.internalCoordinates| > |room0.internalCoordinates| &&
      room.internalCoordinates[|room0.internalCoordinates|] == queue0[0]
    requires forall c :: c in room.internalCoordinates ==>
      c in room0.internalCoordinates || c in expanded || c in queue
    requires EmptyAt(walls, queue0[0]) ==>
      (forall b :: b in Neighbours(walls, queue0[0]) && EmptyAt(walls, b) ==> b in expanded || b in queue) &&
      Enclosed(walls, queue0[0], room)
    ensures Filling(walls, start, history, covered, expanded, queue, room)
  {
    var searched := queue0[0];
    PrefixIn(rest, queue);
    PrefixIn(room0.internalCoordinates, room.internalCoordinates);
    assert queue0 == [searched] + rest;
    FrontierPush(walls, expanded0, queue0, queue);
    assert searched in room0.internalCoordinates || room0.internalCoordinates == [];
    GrownStep(walls, room0, room, searched);
    BorderStep(walls, room0, room, searched);
    EnclosedKept(walls, searched, room0, room);
  }

  /** Once the queue is empty the expanded cells are closed under empty
      neighbours and the room is the region reached from the seed. */
  lemma FillDone(walls: Grid, start: Coord, history: seq<Coord>, covered: set<Coord>,
                 expanded: seq<Coord>, room: Room)
    requires Rectangular(walls) && EmptyAt(walls, start) && start !in history
    requires Filling(walls, start, history, covered, expanded, [], room)
    requires forall c :: c in room.internalCoordinates && EmptyAt(walls, c) ==> c !in history
    ensures start in expanded && Closed(walls, expanded)
    ensures forall c :: c in expanded ==> c in covered || c in room.internalCoordinates
    ensures forall c :: c in room.internalCoordinates ==> c in expanded
    ensures Region(walls, room) && room.internalCoordinates[0] == start
  {
    assert start in room.internalCoordinates;
  }

  /** One room's breadth-first expansion from the seed `start`: pop the
      oldest queued cell, skip it if already expanded, otherwise record it
      as expanded and visit what `Expand` returns for it. Starting from a
      history closed under empty neighbours, the room's empty cells are all
      new, every cell of the room ends up expanded, and the room is the
      region reached from the seed. */
  method FillRoom(walls: Grid, start: Coord, history: seq<Coord>, registry: seq<Door>,
                  ghost n: nat, ghost covered: set<Coord>)
    returns (expanded: seq<Coord>, doors: seq<Door>, room: Room)
    requires Rectangular(walls) && NoDoorInLastRow(walls)
    requires InGrid(walls, start) && At(walls, start) == Empty && start !in history
    requires n <= |registry| && NewDoorsOk(walls, registry, n)
    requires forall c :: c in history ==> c in covered
    requires Closed(walls, history)
    ensures Elems(history) <= Elems(expanded) && start in expanded
    ensures |registry| <= |doors| && doors[..|registry|] == registry
    ensures NewDoorsOk(walls, doors, n) && RoomOk(walls, doors, room)
    ensures forall c :: c in expanded ==> c in covered || c in room.internalCoordinates
    ensures Closed(walls, expanded)
    ensures forall c :: c in room.internalCoordinates ==> c in expanded
    ensures forall c :: c in room.internalCoordinates && EmptyAt(walls, c) ==> c !in history
    ensures Region(walls, room) && room.internalCoordinates[0] == start
    ensures forall j :: |registry| <= j < |doors| ==> doors[j] in room.doors
  {
    expanded, doors, room := history, registry, EmptyRoom();
    var queue := [start];
    while |queue| > 0
      invariant Elems(history) <= Elems(expanded)
      invariant |registry| <= |doors| && doors[..|registry|] == registry
      invariant NewDoorsOk(walls, doors, n) && RoomOk(walls, doors, room)
      invariant forall c :: c in room.internalCoordinates && EmptyAt(walls, c) ==> c !in history
      invariant Filling(walls, start, history, covered, expanded, queue, room)
      invariant forall j :: |registry| <= j < |doors| ==> doors[j] in room.doors
      decreases GridCells(walls) - Elems(expanded), |queue|
    {
      var searched := queue[0];
      assert searched in queue;
      if searched in expanded {
        // the same cell was queued twice
        SkipStep(walls, start, history, covered, expanded, queue, room);
        queue := queue[1..];
        continue;
      }
      ghost var oldQueue, oldExpanded, oldRoom := queue, expanded, room;
      queue := queue[1..];
      assert searched in GridCells(walls);
      assert Elems(expanded + [searched]) == Elems(expanded) + {searched};
      expanded := expanded + [searched];
      ghost var before, rest := doors, queue;
      queue, doors, room := SearchCell(walls, searched, expanded, queue, doors, room, n, history);
      PrefixTrans(registry, before, doors);
      FillStep(walls, start, history, covered, oldExpanded, oldQueue, oldRoom, rest, expanded, queue, room);
      HousedStep(registry, before, doors, oldRoom, room);
    }
    FillDone(walls, start, history, covered, expanded, room);
  }

  /** The doors a fill has added to the registry stay among the room's doors
      when a search step appends to both. */
  lemma HousedStep(registry: seq<Door>, before: seq<Door>, doors: seq<Door>, room0: Room, room: Room)
    requires |registry| <= |before| <= |doors| && doors[..|before|] == before
    requires |room0.doors| <= |room.doors| && room.doors[..|room0.doors|] == room0.doors
    requires forall j :: |registry| <= j < |before| ==> before[j] in room0.doors
    requires forall j :: |before| <= j < |doors| ==> doors[j] in room.doors
    ensures forall j :: |registry| <= j < |doors| ==> doors[j] in room.doors
  {
    forall j | |registry| <= j < |before|
      ensures doors[j] in room.doors
    {
      assert doors[j] == before[j];
      var i :| 0 <= i < |room0.doors| && room0.doors[i] == before[j];
      assert room.doors[i] == room0.doors[i];
    }
  }

  function GridCells(walls: Grid): set<Coord>
    requires Rectangular(walls)
  {
    set r, c | 0 <= r < |walls| && 0 <= c < |walls[0]| :: Coord(r, c)
  }

  function EmptyCells(walls: Grid): set<Coord>
    requires Rectangular(walls)
  {
    set r, c | 0 <= r < |walls| && 0 <= c < |walls[0]| && walls[r][c] == Empty :: Coord(r, c)
  }

  lemma {:induction false} CoveredSnoc(rooms: seq<Room>, room: Room)
    ensures Covered(rooms + [room]) == Covered(rooms) + Elems(room.internalCoordinates)
  {
    assert (rooms + [room])[..|rooms|] == rooms;
  }

  /** A cell of any room of `rooms` is covered by them. */
  lemma {:induction false} CoveredHas(rooms: seq<Room>, k: int, c: Coord)
    requires 0 <= k < |rooms| && c in rooms[k].internalCoordinates
    ensures c in Covered(rooms)
    decreases |rooms|
  {
    if k < |rooms| - 1 {
      CoveredHas(rooms[..|rooms| - 1], k, c);
    }
  }

  /** Forgetting the doors keeps a history closed: closure is about empty
      cells only, and those all survive. */
  lemma DropDoorsClosed(walls: Grid, history: seq<Coord>)
    requires Rectangular(walls) && Closed(walls, history)
    ensures Closed(walls, DropDoors(walls, history))
  {
    DropDoorsKeeps(walls, history);
  }

  /** One pass of the outer loop after the seed is chosen: forget the doors
      in the history, then fill a new room from the seed. Every empty cell of
      the history stays expanded, the new room's empty cells were not in the
      history, and the history stays closed under empty neighbours. */
  method BuildRoom(walls: Grid, seed: Coord, history: seq<Coord>, registry: seq<Door>, ghost n: nat)
    returns (expanded: seq<Coord>, doors: seq<Door>, room: Room)
    requires Rectangular(walls) && NoDoorInLastRow(walls)
    requires Unvisited(walls, history, seed) && Closed(walls, history)
    requires n <= |registry| && NewDoorsOk(walls, registry, n)
    ensures seed in expanded && Closed(walls, expanded)
    ensures forall c :: c in history && EmptyAt(walls, c) ==> c in expanded
    ensures forall c :: c in expanded ==> c in history || c in room.internalCoordinates
    ensures |registry| <= |doors| && doors[..|registry|] == registry
    ensures NewDoorsOk(walls, doors, n) && RoomOk(walls, doors, room)
    ensures forall c :: c in room.internalCoordinates ==> c in expanded
    ensures forall c :: c in room.internalCoordinates && EmptyAt(walls, c) ==> c !in history
    ensures Region(walls, room) && room.internalCoordinates[0] == seed
    ensures forall j :: |registry| <= j < |doors| ==> doors[j] in room.doors
  {
    var dropped := RemoveDoorsFromHistory(walls, history);
    DropDoorsKeeps(walls, history);
    DropDoorsClosed(walls, history);
    expanded, doors, room := FillRoom(walls, seed, dropped, registry, n, Elems(history));
    forall c | c in history && EmptyAt(walls, c)
      ensures c in expanded
    {
      assert c in dropped;
      assert c in Elems(dropped);
    }
  }

  /** Rooms built against a registry stay well formed and closed when it
      grows and a new well-formed, closed room is appended. */
  lemma RoomsGrow(walls: Grid, registry: seq<Door>, doors: seq<Door>, rooms: seq<Room>, room: Room, from: nat)
    requires Rectangular(walls) && |registry| <= |doors| && doors[..|registry|] == registry
    requires forall k :: from <= k < |rooms| ==>
      RoomOk(walls, registry, rooms[k]) && Region(walls, rooms[k])
    requires RoomOk(walls, doors, room) && Region(walls, room)
    ensures forall k :: from <= k < |rooms + [room]| ==>
      RoomOk(walls, doors, (rooms + [room])[k]) && Region(walls, (rooms + [room])[k])
  {
    forall k | from <= k < |rooms + [room]|
      ensures RoomOk(walls, doors, (rooms + [room])[k]) && Region(walls, (rooms + [room])[k])
    {
      if k < |rooms| {
        assert (rooms + [room])[k] == rooms[k];
        assert doors == registry + doors[|registry|..];
        RoomOkGrows(walls, registry, doors[|registry|..], rooms[k]);
      } else {
        assert (rooms + [room])[k] == room;
      }
    }
  }

  /** The history and the covered cells move together: after a room is built
      the expanded cells are covered by the earlier rooms or the new one, and
      every empty covered cell is expanded. */
  lemma CoverStep(walls: Grid, history: seq<Coord>, expanded: seq<Coord>, covered: set<Coord>, room: Room)
    requires Rectangular(walls)
    requires forall c :: c in history ==> c in covered
    requires forall c :: c in covered && EmptyAt(walls, c) ==> c in history
    requires forall c :: c in history && EmptyAt(walls, c) ==> c in expanded
    requires forall c :: c in expanded ==> c in history || c in room.internalCoordinates
    requires forall c :: c in room.internalCoordinates ==> c in expanded
    ensures forall c :: c in expanded ==> c in covered + Elems(room.internalCoordinates)
    ensures forall c :: c in covered + Elems(room.internalCoordinates) && EmptyAt(walls, c) ==> c in expanded
  {
  }

  /** Appending a room whose empty cells are all outside a history that
      holds every empty cell of the earlier rooms keeps the rooms disjoint. */
  lemma AddRoom(walls: Grid, rooms: seq<Room>, room: Room, from: nat, history: seq<Coord>)
    requires Rectangular(walls) && from <= |rooms|
    requires forall k1, k2, c :: from <= k1 < k2 < |rooms| && EmptyAt(walls, c) ==>
      !(c in rooms[k1].internalCoordinates && c in rooms[k2].internalCoordinates)
    requires forall c :: c in Covered(rooms[from..]) && EmptyAt(walls, c) ==> c in history
    requires forall c :: c in room.internalCoordinates && EmptyAt(walls, c) ==> c !in history
    ensures (rooms + [room])[from..] == rooms[from..] + [room]
    ensures Covered((rooms + [room])[from..]) == Covered(rooms[from..]) + Elems(room.internalCoordinates)
    ensures forall k1, k2, c :: from <= k1 < k2 < |rooms + [room]| && EmptyAt(walls, c) ==>
      !(c in (rooms + [room])[k1].internalCoordinates && c in (rooms + [room])[k2].internalCoordinates)
  {
    assert (rooms + [room])[from..] == rooms[from..] + [room];
    CoveredSnoc(rooms[from..], room);
    forall k1, c | from <= k1 < |rooms| && EmptyAt(walls, c) && c in rooms[k1].internalCoordinates
      ensures c !in room.internalCoordinates
    {
      CoveredHas(rooms[from..], k1 - from, c);
    }
  }

  /** The seed is newly expanded and no empty cell of the history is lost,
      so fewer empty cells remain unexpanded. */
  lemma Progress(walls: Grid, history: seq<Coord>, expanded: seq<Coord>, seed: Coord)
    requires Rectangular(walls) && Unvisited(walls, history, seed) && seed in expanded
    requires forall c :: c in history && EmptyAt(walls, c) ==> c in expanded
    ensures EmptyCells(walls) - Elems(expanded) < EmptyCells(walls) - Elems(history)
  {
    assert seed in EmptyCells(walls);
    assert seed in Elems(expanded) && seed !in Elems(history);
    assert seed in (EmptyCells(walls) - Elems(history)) - (EmptyCells(walls) - Elems(expanded));
  }

  /** Some room of `rooms` from index `from` on holds door `d`. */
  predicate HeldBy(d: Door, rooms: seq<Room>, from: nat) {
    exists k :: from <= k < |rooms| && d in rooms[k].doors
  }

  /** Adding a room keeps every new door held by some new room: the doors
      registered before stay with their rooms, and the new room holds the
      doors its fill registered. */
  lemma DoorsHoused(doorsIn: seq<Door>, registry: seq<Door>, doors: seq<Door>, rooms: seq<Room>,
                    room: Room, rooms': seq<Room>, from: nat)
    requires |doorsIn| <= |registry| <= |doors| && doors[..|registry|] == registry
    requires from <= |rooms| && rooms' == rooms + [room]
    requires forall j :: |doorsIn| <= j < |registry| ==> HeldBy(registry[j], rooms, from)
    requires forall j :: |registry| <= j < |doors| ==> doors[j] in room.doors
    ensures forall j :: |doorsIn| <= j < |doors| ==> HeldBy(doors[j], rooms', from)
  {
    forall j | |doorsIn| <= j < |doors|
      ensures HeldBy(doors[j], rooms', from)
    {
      if j < |registry| {
        assert doors[j] == registry[j];
        var k :| from <= k < |rooms| && registry[j] in rooms[k].doors;
        assert rooms'[k] == rooms[k];
      } else {
        assert rooms'[|rooms|] == room;
      }
    }
  }

  /** Partitions the traversable cells into rooms: while some empty cell is
      unvisited, take the first one in row-major order as a seed, forget the
      doors in the history (as the enumerate-and-pop loop does) and fill a
      new room from the seed. Rooms and new doors are appended to the lists
      passed in. Every empty cell lands in exactly one new room, and a room
      that reaches a door cell holds the door registered for it. */
  method MakeRooms(walls: Grid, doorsIn: seq<Door>, roomsIn: seq<Room>)
    returns (doors: seq<Door>, rooms: seq<Room>)
    requires Rectangular(walls) && NoDoorInLastRow(walls)
    ensures |doorsIn| <= |doors| && doors[..|doorsIn|] == doorsIn
    ensures |roomsIn| <= |rooms| && rooms[..|roomsIn|] == roomsIn
    ensures NewDoorsOk(walls, doors, |doorsIn|)
    ensures forall k :: |roomsIn| <= k < |rooms| ==>
      RoomOk(walls, doors, rooms[k]) && Region(walls, rooms[k])
    ensures forall c :: EmptyAt(walls, c) ==> c in Covered(rooms[|roomsIn|..])
    ensures forall k1, k2, c :: |roomsIn| <= k1 < k2 < |rooms| && EmptyAt(walls, c) ==>
      !(c in rooms[k1].internalCoordinates && c in rooms[k2].internalCoordinates)
    ensures forall j :: |doorsIn| <= j < |doors| ==> HeldBy(doors[j], rooms, |roomsIn|)
  {
    doors, rooms := doorsIn, roomsIn;
    var expanded: seq<Coord> := [];
    var startingCoordinate := GetNewRoom(walls, expanded);
    while startingCoordinate.Some?
      invariant |doorsIn| <= |doors| && doors[..|doorsIn|] == doorsIn
      invariant |roomsIn| <= |rooms| && rooms[..|roomsIn|] == roomsIn
      invariant NewDoorsOk(walls, doors, |doorsIn|)
      invariant forall k :: |roomsIn| <= k < |rooms| ==>
        RoomOk(walls, doors, rooms[k]) && Region(walls, rooms[k])
      invariant forall c :: c in expanded ==> c in Covered(rooms[|roomsIn|..])
      invariant forall c :: c in Covered(rooms[|roomsIn|..]) && EmptyAt(walls, c) ==> c in expanded
      invariant Closed(walls, expanded)
      invariant forall k1, k2, c :: |roomsIn| <= k1 < k2 < |rooms| && EmptyAt(walls, c) ==>
        !(c in rooms[k1].internalCoordinates && c in rooms[k2].internalCoordinates)
      invariant forall j :: |doorsIn| <= j < |doors| ==> HeldBy(doors[j], rooms, |roomsIn|)
      invariant startingCoordinate.Some? ==> Unvisited(walls, expanded, startingCoordinate.value)
      invariant startingCoordinate.None? ==> forall c :: !Unvisited(walls, expanded, c)
      decreases EmptyCells(walls) - Elems(expanded)
    {
      var seed := startingCoordinate.value;
      ghost var history, registry, prior := expanded, doors, rooms;
      var newRoom;
      expanded, doors, newRoom := BuildRoom(walls, seed, expanded, doors, |doorsIn|);
      assert doors[..|doorsIn|] == registry[..|doorsIn|];
      RoomsGrow(walls, registry, doors, rooms, newRoom, |roomsIn|);
      CoverStep(walls, history, expanded, Covered(prior[|roomsIn|..]), newRoom);
      rooms := rooms + [newRoom];
      DoorsHoused(doorsIn, registry, doors, prior, newRoom, rooms, |roomsIn|);
      AddRoom(walls, prior, newRoom, |roomsIn|, history);
      Progress(walls, history, expanded, seed);
      startingCoordinate := GetNewRoom(walls, expanded);
    }
    forall c | EmptyAt(walls, c)
      ensures c in Covered(rooms[|roomsIn|..])
    {
      assert !Unvisited(walls, expanded, c);
    }
  }

  /** On the map of one column `0 / d / 0` (an empty cell, a door, an empty
      cell), a room meeting the guarantees of `MakeRooms` never holds both
      empty cells: the door cell separates them. */
  lemma DoorSeparatesRooms(walls: Grid, doors: seq<Door>, room: Room)
    requires walls == [[Empty], [DoorCell], [Empty]]
    requires RoomOk(walls, doors, room) && Region(walls, room)
    ensures !(Coord(0, 0) in room.internalCoordinates && Coord(2, 0) in room.internalCoordinates)
  {
    assert Rectangular(walls) && |walls| == 3 && |walls[0]| == 1;
  }

  /** On the same map, a room holding either empty cell also holds the door
      cell and the door registered for it, so both rooms share the door. */
  lemma DoorSharedByRooms(walls: Grid, doors: seq<Door>, room: Room, c: Coord)
    requires walls == [[Empty], [DoorCell], [Empty]]
    requires RoomOk(walls, doors, room) && Region(walls, room)
    requires c in room.internalCoordinates && (c == Coord(0, 0) || c == Coord(2, 0))
    ensures Coord(1, 0) in room.internalCoordinates
    ensures exists d :: d in room.doors && d in doors && d.coordinate == Coord(1, 0)
  {
    assert Enclosed(walls, c, room);
    assert Coord(1, 0) in Neighbours(walls, c);
    assert IsDoorAt(walls, Coord(1, 0));
  }
}
