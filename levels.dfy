/**
 * src/levels.c: the level table and the builder that copies its segments
 * into a section. src/main.c carries an identical copy of the table and
 * uses it for ray casting.
 */
module Levels {
  import opened Alloc
  import opened Algebra
  import opened Sections

  /** One row of `double map[][7]`: a segment followed by its RGB colour. */
  datatype MapRow = MapRow(x0: real, y0: real, xf: real, yf: real, r: real, g: real, b: real)

  const MAP_LINES: nat := 17

  const MAP: seq<MapRow> := [
    MapRow(10.0, 10.0, 300.0, 10.0, 255.0, 0.0, 0.0),
    MapRow(10.0, 10.0, 10.0, 300.0, 255.0, 0.0, 0.0),
    MapRow(300.0, 10.0, 300.0, 300.0, 255.0, 0.0, 0.0),
    MapRow(50.0, 10.0, 50.0, 100.0, 0.0, 255.0, 0.0),
    MapRow(50.0, 100.0, 100.0, 100.0, 0.0, 255.0, 0.0),
    MapRow(100.0, 100.0, 100.0, 200.0, 0.0, 255.0, 0.0),
    MapRow(150.0, 50.0, 150.0, 150.0, 0.0, 255.0, 0.0),
    MapRow(150.0, 150.0, 200.0, 150.0, 0.0, 255.0, 0.0),
    MapRow(100.0, 200.0, 200.0, 200.0, 0.0, 0.0, 255.0),
    MapRow(200.0, 200.0, 200.0, 250.0, 0.0, 0.0, 255.0),
    MapRow(200.0, 250.0, 250.0, 250.0, 0.0, 0.0, 255.0),
    MapRow(250.0, 50.0, 250.0, 150.0, 255.0, 255.0, 0.0),
    MapRow(250.0, 50.0, 300.0, 50.0, 255.0, 255.0, 0.0),
    MapRow(150.0, 150.0, 150.0, 200.0, 0.0, 255.0, 255.0),
    MapRow(200.0, 50.0, 150.0, 50.0, 0.0, 255.0, 255.0),
    MapRow(50.0, 250.0, 150.0, 250.0, 0.0, 255.0, 255.0),
    MapRow(50.0, 150.0, 50.0, 200.0, 255.0, 0.0, 255.0)
  ]

  /** The segment of a row; the colour columns are dropped. */
  function RowWall(row: MapRow): Line {
    Line(row.x0, row.y0, row.xf, row.yf)
  }

  /** The walls the level is meant to hold, in table order. */
  ghost function MapWalls(): seq<Line> {
    seq(MAP_LINES, i requires 0 <= i < MAP_LINES => RowWall(MAP[i]))
  }

  /**
   * create_level_1: a section with room for 2 doors and the 17 walls of
   * the table, filled in table order, with no doors. The C code passes the
   * result of section_create to section_add_wall without a NULL check;
   * here an allocation failure returns null before the loop.
   */
  method CreateLevel1(heap: Heap, sectionOk: bool, doorsOk: bool, wallsOk: bool) returns (level: Section?)
    modifies heap
    ensures level == null <==> !(sectionOk && doorsOk && wallsOk)
    ensures level == null ==> heap.live == old(heap.live)
    ensures level != null ==>
              fresh(level) && level.Valid() &&
              level.wall_count == level.wall_max == MAP_LINES &&
              level.door_count == 0 && level.door_max == 2 &&
              level.Walls() == MapWalls() &&
              heap.live == old(heap.live) + {level, level.doors, level.walls}
  {
    level := Section.Create(heap, 2, MAP_LINES, sectionOk, doorsOk, wallsOk);
    if level == null { return; }
    var i := 0;
    while i < MAP_LINES
      invariant 0 <= i <= MAP_LINES
      invariant level.Valid() && fresh(level) && fresh(level.walls) && fresh(level.doors)
      invariant level.wall_max == MAP_LINES && level.door_count == 0 && level.door_max == 2
      invariant level.wall_count == i && level.Walls() == MapWalls()[..i]
      invariant heap.live == old(heap.live) + {level, level.doors, level.walls}
    {
      var wall := Line(MAP[i].x0, MAP[i].y0, MAP[i].xf, MAP[i].yf);
      var rc := level.AddWall(wall);
      assert rc == 0;
      i := i + 1;
    }
    assert MapWalls()[..MAP_LINES] == MapWalls();
  }
}
