/**
 * src/section.c: a room, holding fixed-capacity arrays of walls and doors,
 * each filled from the front with its own count and capacity.
 */
module Sections {
  import opened Nullable
  import opened Alloc
  import opened Algebra

  /**
   * `struct door`: a segment and the door it leads to. The destination is
   * an opaque pointer value (None is NULL); the section only stores it.
   */
  datatype Door = Door(position: Line, dest: Option<nat>)

  class Section {
    var doors: array?<Door>
    var walls: array?<Line>
    var door_count: int
    var door_max: int
    var wall_count: int
    var wall_max: int

    /** The capacity invariant the `==` guards of the add operations depend on. */
    ghost predicate Valid()
      reads this
    {
      doors != null && walls != null &&
      doors.Length == door_max && walls.Length == wall_max &&
      0 <= door_count <= door_max && 0 <= wall_count <= wall_max
    }

    /** The walls added so far, in order. */
    ghost function Walls(): seq<Line>
      requires Valid()
      reads this, walls
    {
      walls[..wall_count]
    }

    /** The doors added so far, in order. */
    ghost function Doors(): seq<Door>
      requires Valid()
      reads this, doors
    {
      doors[..door_count]
    }

    /** The block malloc returns for `struct section`, fields not yet set. */
    constructor Uninitialised()
      ensures doors == null && walls == null
    {
      doors, walls := null, null;
    }

    /**
     * section_create. `sectionOk`, `doorsOk` and `wallsOk` are the answers
     * of its three mallocs. Any failure yields null and leaves the heap as
     * it was; success allocates exactly the record and its two arrays.
     */
    static method Create(heap: Heap, door_max: nat, wall_max: nat,
                         sectionOk: bool, doorsOk: bool, wallsOk: bool) returns (s: Section?)
      modifies heap
      ensures s == null <==> !(sectionOk && doorsOk && wallsOk)
      ensures s == null ==> heap.live == old(heap.live)
      ensures s != null ==>
                fresh(s) && s.Valid() && fresh(s.doors) && fresh(s.walls) &&
                s.wall_count == 0 && s.door_count == 0 &&
                s.wall_max == wall_max && s.door_max == door_max &&
                heap.live == old(heap.live) + {s, s.doors, s.walls}
    {
      if !sectionOk { return null; }
      var n := new Section.Uninitialised();
      heap.Acquire(n);

      if !doorsOk {
        heap.Free(n);
        return null;
      }
      var doors := new Door[door_max];
      n.doors := doors;
      heap.Acquire(doors);

      if !wallsOk {
        heap.Free(doors);
        heap.Free(n);
        return null;
      }
      var walls := new Line[wall_max];
      n.walls := walls;
      heap.Acquire(walls);

      n.wall_count := 0;
      n.wall_max := wall_max;
      n.door_count := 0;
      n.door_max := door_max;
      return n;
    }

    /**
     * section_add_door: 1 and nothing changed when the doors are full;
     * otherwise the door is stored at the old count, the count grows by
     * one, and 0 is returned. Walls are untouched either way.
     */
    method AddDoor(door: Line, dest: Option<nat>) returns (rc: int)
      requires Valid()
      modifies this`door_count, doors
      ensures Valid()
      ensures rc == (if old(door_count) == door_max then 1 else 0)
      ensures rc == 1 ==> door_count == old(door_count) && doors[..] == old(doors[..])
      ensures rc == 0 ==> door_count == old(door_count) + 1 &&
                          doors[..] == old(doors[..])[old(door_count) := Door(door, dest)]
      ensures Doors() == if rc == 0 then old(Doors()) + [Door(door, dest)] else old(Doors())
      ensures walls == old(walls) && unchanged(walls) && wall_count == old(wall_count)
    {
      if door_count == door_max { return 1; }
      doors[door_count] := doors[door_count].(dest := dest);
      doors[door_count] := doors[door_count].(position := door);
      door_count := door_count + 1;
      return 0;
    }

    /**
     * section_add_wall: 1 and nothing changed when the walls are full;
     * otherwise the wall is stored at the old count, the count grows by
     * one, and 0 is returned. Doors are untouched either way.
     */
    method AddWall(wall: Line) returns (rc: int)
      requires Valid()
      modifies this`wall_count, walls
      ensures Valid()
      ensures rc == (if old(wall_count) == wall_max then 1 else 0)
      ensures rc == 1 ==> wall_count == old(wall_count) && walls[..] == old(walls[..])
      ensures rc == 0 ==> wall_count == old(wall_count) + 1 &&
                          walls[..] == old(walls[..])[old(wall_count) := wall]
      ensures Walls() == if rc == 0 then old(Walls()) + [wall] else old(Walls())
      ensures doors == old(doors) && unchanged(doors) && door_count == old(door_count)
    {
      if wall_count == wall_max { return 1; }
      walls[wall_count] := wall;
      wall_count := wall_count + 1;
      return 0;
    }
  }
}
