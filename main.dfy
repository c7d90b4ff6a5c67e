/**
 * src/main.c without SDL: the input transition applied by process_inputs
 * and the ray casting of render_camera (per-column ray angle, nearest-hit
 * selection, shading and slice height). Drawing is left out; render_camera
 * is modelled as returning what each column would draw.
 */
module Frame {
  import opened MathLib
  import opened Constants
  import opened Algebra
  import opened Players
  import opened Levels

  // ---------------------------------------------------------------------
  // process_inputs
  // ---------------------------------------------------------------------

  /** The keys process_inputs reacts to; every other key is `OtherKey`. */
  datatype Key = KeyEscape | KeyW | KeyD | KeyS | KeyA | KeySpace | KeyR | OtherKey

  /** The polled event. `MouseMotion` carries the relative x motion. */
  datatype Event = Quit | KeyDown(key: Key) | KeyUp(key: Key) | MouseMotion(dx: int) | OtherEvent

  predicate IsMoveKey(k: Key) {
    k == KeyW || k == KeyD || k == KeyS || k == KeyA || k == KeySpace
  }

  /** The flag a move key drives. */
  function Flag(ms: MoveSet, k: Key): bool
    requires IsMoveKey(k)
  {
    match k
    case KeyW => ms.front
    case KeyD => ms.right
    case KeyS => ms.back
    case KeyA => ms.left
    case KeySpace => ms.jump
  }

  /** Sets the flag a key drives to `v`; keys that drive no flag change nothing. */
  function SetFlag(ms: MoveSet, k: Key, v: bool): MoveSet {
    match k
    case KeyW => ms.(front := v)
    case KeyD => ms.(right := v)
    case KeyS => ms.(back := v)
    case KeyA => ms.(left := v)
    case KeySpace => ms.(jump := v)
    case _ => ms
  }

  /** The move flags after an event other than KEYDOWN of r. */
  function FlagsAfter(ms: MoveSet, e: Event): MoveSet {
    match e
    case KeyDown(k) => SetFlag(ms, k, true)
    case KeyUp(k) => SetFlag(ms, k, false)
    case _ => ms
  }

  /** The rotation after an event other than KEYDOWN of r. */
  function RotationAfter(rotation: real, e: Event, firstPerson: bool): real {
    match e
    case MouseMotion(dx) => if firstPerson then (-dx * MOUSE_SENSITIVITY) as real else rotation
    case OtherEvent => 0.0
    case _ => rotation
  }

  /** A key event sets exactly the flag its key drives and no other. */
  lemma SetFlagTouchesOnlyItsFlag(ms: MoveSet, k: Key, v: bool, k': Key)
    requires IsMoveKey(k')
    ensures Flag(SetFlag(ms, k, v), k') == if k' == k then v else Flag(ms, k')
  {}

  /**
   * `SetFlag` leaves the flags alone for keys that drive none (ESC, r and
   * any other key). KEYDOWN of r still clears the moves, but through
   * `setup_player`, which `ProcessInputs` applies instead of `SetFlag`.
   */
  lemma NonMoveKeyKeepsFlags(ms: MoveSet, k: Key, v: bool)
    requires !IsMoveKey(k)
    ensures SetFlag(ms, k, v) == ms
  {}

  /** Pressing then releasing a key leaves its flag cleared and the others as they were. */
  lemma PressThenRelease(ms: MoveSet, k: Key)
    ensures FlagsAfter(FlagsAfter(ms, KeyDown(k)), KeyUp(k)) == SetFlag(ms, k, false)
    ensures !ms.front && !ms.right && !ms.back && !ms.left && !ms.jump ==>
              FlagsAfter(FlagsAfter(ms, KeyDown(k)), KeyUp(k)) == ms
  {}

  /** Repeated key-down events (auto-repeat) change nothing after the first. */
  lemma KeyDownIdempotent(ms: MoveSet, k: Key)
    ensures FlagsAfter(FlagsAfter(ms, KeyDown(k)), KeyDown(k)) == FlagsAfter(ms, KeyDown(k))
  {}

  /**
   * For every event other than KEYDOWN of r (which resets the player
   * through `setup_player`, rotation included): the rotation is cleared
   * only by an unhandled event type; key events and QUIT keep it, and
   * mouse motion sets it only in first-person mode.
   */
  lemma RotationResetOnlyWhenUnhandled(rotation: real, e: Event, firstPerson: bool)
    ensures e == OtherEvent ==> RotationAfter(rotation, e, firstPerson) == 0.0
    ensures (e.Quit? || e.KeyDown? || e.KeyUp?) ==> RotationAfter(rotation, e, firstPerson) == rotation
    ensures e.MouseMotion? && !firstPerson ==> RotationAfter(rotation, e, firstPerson) == rotation
    ensures e.MouseMotion? && firstPerson ==> RotationAfter(rotation, e, firstPerson) == -2.0 * e.dx as real
  {}

  /**
   * process_inputs for one polled event. `running` is game_is_running;
   * `firstPerson` is the FIRST_PERSON build switch (off in this build);
   * `aim` is the angle rotate_player_towards computes from the mouse
   * position, applied before the event when the switch is off.
   */
  method ProcessInputs(p: Player, running: bool, e: Event, firstPerson: bool, aim: real)
    returns (stillRunning: bool)
    requires p.Valid()
    modifies p, p.velocity
    ensures p.Valid()
    ensures stillRunning == (running && e != Quit && e != KeyDown(KeyEscape))
    ensures e == KeyDown(KeyR) ==>
              p.position == Point(445.0, 295.0) && p.Velocity() == ZERO &&
              p.rotation == 0.0 && p.angle == 0.0 &&
              p.width == PLAYER_WIDTH && p.height == PLAYER_HEIGHT &&
              p.move_set == MoveSet(false, false, false, false, old(p.move_set.jump)) &&
              p.possible_moves == MoveSet(true, true, true, true, old(p.possible_moves.jump))
    ensures e != KeyDown(KeyR) ==>
              p.move_set == FlagsAfter(old(p.move_set), e) &&
              p.rotation == RotationAfter(old(p.rotation), e, firstPerson) &&
              p.angle == (if firstPerson then old(p.angle) else aim) &&
              p.position == old(p.position) && p.possible_moves == old(p.possible_moves) &&
              p.width == old(p.width) && p.height == old(p.height) &&
              p.Velocity() == old(p.Velocity())
  {
    if !firstPerson {
      p.angle := aim;
    }
    stillRunning := running;
    match e {
      case Quit =>
        stillRunning := false;
      case KeyDown(k) =>
        if k == KeyEscape { stillRunning := false; }
        if k == KeyW { p.move_set := p.move_set.(front := true); }
        if k == KeyD { p.move_set := p.move_set.(right := true); }
        if k == KeyS { p.move_set := p.move_set.(back := true); }
        if k == KeyA { p.move_set := p.move_set.(left := true); }
        if k == KeySpace { p.move_set := p.move_set.(jump := true); }
        if k == KeyR { p.Setup(); }
      case KeyUp(k) =>
        if k == KeyW { p.move_set := p.move_set.(front := false); }
        if k == KeyD { p.move_set := p.move_set.(right := false); }
        if k == KeyS { p.move_set := p.move_set.(back := false); }
        if k == KeyA { p.move_set := p.move_set.(left := false); }
        if k == KeySpace { p.move_set := p.move_set.(jump := false); }
      case MouseMotion(dx) =>
        if firstPerson {
          p.rotation := (-dx * MOUSE_SENSITIVITY) as real;
        }
      case OtherEvent =>
        p.rotation := 0.0;
    }
  }

  // ---------------------------------------------------------------------
  // render_camera: ray angle
  // ---------------------------------------------------------------------

  /** The ray of column i: FOV/2 left of the view, stepping FOV/RAYS_NUMBER right per column. */
  function RayAngle(playerAngle: real, i: int): real {
    NormalizeAngle(playerAngle + FOV / 2.0 - (FOV / RAYS_NUMBER as real) * i as real)
  }

  /**
   * For a view angle in [-2PI, 2PI] every column's ray is in [-PI, PI], and
   * before the wrap it lies within FOV/2 of the view, the first column at
   * the left edge.
   */
  lemma RayAngleInRange(playerAngle: real, i: int)
    requires -2.0 * PI <= playerAngle <= 2.0 * PI && 0 <= i < RAYS_NUMBER
    ensures -PI <= RayAngle(playerAngle, i) <= PI
    ensures var raw := playerAngle + FOV / 2.0 - (FOV / RAYS_NUMBER as real) * i as real;
            playerAngle - FOV / 2.0 < raw <= playerAngle + FOV / 2.0 &&
            (i == 0 ==> raw == playerAngle + FOV / 2.0)
  {
    var step := FOV / RAYS_NUMBER as real;
    assert 0.0 <= step * i as real < step * RAYS_NUMBER as real == FOV;
  }

  // ---------------------------------------------------------------------
  // render_camera: nearest hit
  // ---------------------------------------------------------------------

  /** `smallest_intersection[2]`, which starts at INFINITY. */
  datatype Dist = Infinity | Finite(d: real)

  /** `distance < smallest_intersection[2]`: every finite distance is below INFINITY. */
  predicate Below(d: real, t: Dist) {
    t.Infinity? || d < t.d
  }

  /** `smallest_intersection[0..2]`: the nearest point so far and its distance. */
  datatype Track = Track(at: Point, dist: Dist)

  const RESET: Track := Track(Point(0.0, 0.0), Infinity)

  /** What the wall loop learns from wall j: whether it is hit, where, and how far along the view. */
  datatype Probe = Probe(hit: bool, at: Point, dist: real)

  /**
   * The probe of one wall: intersection_lines, and for a hit the distance
   * of the point from the line through the player along `plane`.
   */
  function ProbeWall(m: Libm, angle: real, x: real, y: real, plane: Vec2, wall: Line): Probe
    requires plane != ZERO
  {
    var o := IntersectionLines(m, angle, x, y, wall);
    if o.hit then
      Probe(true, o.written.value, DistanceFromLine(m, plane, x - o.written.value.x, y - o.written.value.y))
    else Probe(false, Point(0.0, 0.0), 0.0)
  }

  /** The probes of every row of the map, in order. */
  ghost function ProbesOf(m: Libm, angle: real, x: real, y: real, plane: Vec2, rows: seq<MapRow>): seq<Probe>
    requires plane != ZERO
  {
    seq(|rows|, j requires 0 <= j < |rows| => ProbeWall(m, angle, x, y, plane, RowWall(rows[j])))
  }

  /** The loop state after a prefix of the walls: the tracked hit and `wall_index`. */
  datatype Nearest = Nearest(track: Track, wallIndex: nat)

  /** The wall loop over probes from a RESET track, one step per wall. */
  function Select(ps: seq<Probe>): Nearest
    decreases |ps|
  {
    if |ps| == 0 then Nearest(RESET, 0)
    else
      var prev := Select(ps[..|ps| - 1]);
      var q := ps[|ps| - 1];
      if q.hit && Below(q.dist, prev.track.dist) then Nearest(Track(q.at, Finite(q.dist)), |ps| - 1)
      else prev
  }

  /** The recorded distance is finite exactly when some wall is hit, and then no hit is nearer. */
  lemma {:induction false} SelectIsMinimal(ps: seq<Probe>)
    ensures Select(ps).track.dist.Finite? <==> exists j :: 0 <= j < |ps| && ps[j].hit
    ensures forall j :: 0 <= j < |ps| && ps[j].hit ==>
              Select(ps).track.dist.Finite? && Select(ps).track.dist.d <= ps[j].dist
    decreases |ps|
  {
    if |ps| > 0 {
      var init := ps[..|ps| - 1];
      SelectIsMinimal(init);
      assert forall j :: 0 <= j < |init| ==> init[j] == ps[j];
      if ps[|ps| - 1].hit { assert exists j :: 0 <= j < |ps| && ps[j].hit; }
    }
  }

  /**
   * A finite recorded distance is attained: `wall_index` is a hit wall whose
   * point and distance are the ones recorded, and because the comparison is
   * strict every earlier hit is strictly farther.
   */
  lemma {:induction false} SelectIsLowestAttaining(ps: seq<Probe>)
    requires Select(ps).track.dist.Finite?
    ensures var w := Select(ps).wallIndex;
            w < |ps| && ps[w].hit &&
            Select(ps).track == Track(ps[w].at, Finite(ps[w].dist)) &&
            forall j :: 0 <= j < w && ps[j].hit ==> ps[j].dist > ps[w].dist
    decreases |ps|
  {
    var init := ps[..|ps| - 1];
    assert forall j :: 0 <= j < |init| ==> init[j] == ps[j];
    var prev := Select(init);
    var q := ps[|ps| - 1];
    if q.hit && Below(q.dist, prev.track.dist) {
      SelectIsMinimal(init);
    } else {
      SelectIsLowestAttaining(init);
    }
  }

  /** With no hit the track stays RESET (0, 0, INFINITY) and `wall_index` stays 0. */
  lemma {:induction false} SelectWithoutHit(ps: seq<Probe>)
    requires forall j :: 0 <= j < |ps| ==> !ps[j].hit
    ensures Select(ps) == Nearest(RESET, 0)
    decreases |ps|
  {
    if |ps| > 0 {
      var init := ps[..|ps| - 1];
      assert forall j :: 0 <= j < |init| ==> init[j] == ps[j];
      SelectWithoutHit(init);
    }
  }

  /**
   * The wall loop of one column: each wall hit strictly nearer than the
   * tracked one replaces it, and `wall_index` records its row.
   */
  method CastRay(m: Libm, rows: seq<MapRow>, angle: real, x: real, y: real, plane: Vec2)
    returns (track: Track, wallIndex: nat)
    requires plane != ZERO
    ensures Nearest(track, wallIndex) == Select(ProbesOf(m, angle, x, y, plane, rows))
  {
    ghost var ps := ProbesOf(m, angle, x, y, plane, rows);
    track := RESET;
    wallIndex := 0;
    var j := 0;
    while j < |rows|
      invariant 0 <= j <= |rows|
      invariant Nearest(track, wallIndex) == Select(ps[..j])
    {
      assert ps[..j + 1][..j] == ps[..j];
      var o := IntersectionLines(m, angle, x, y, RowWall(rows[j]));
      if o.hit {
        var distance := DistanceFromLine(m, plane, x - o.written.value.x, y - o.written.value.y);
        if Below(distance, track.dist) {
          track := Track(o.written.value, Finite(distance));
          wallIndex := j;
        }
      }
      j := j + 1;
    }
    assert ps[..|rows|] == ps;
  }

  // ---------------------------------------------------------------------
  // render_camera: columns, shading, slice height
  // ---------------------------------------------------------------------

  /** What a column draws: nothing, or the nearest hit with its wall row. */
  datatype Column = Blank | Lit(at: Point, dist: real, wallIndex: nat)

  function ColumnOf(n: Nearest): Column {
    if n.track.dist.Finite? then Lit(n.track.at, n.track.dist.d, n.wallIndex) else Blank
  }

  /** The plane vector: the heading a quarter turn to the right of the view. */
  function PlaneVector(m: Libm, angle: real): Vec2 {
    Dir(m, angle + PI / 2.0)
  }

  /** The column a ray would draw, from a fresh RESET track. */
  ghost function ColumnFor(m: Libm, rows: seq<MapRow>, playerAngle: real, x: real, y: real, i: int): Column
    requires PlaneVector(m, playerAngle) != ZERO
  {
    ColumnOf(Select(ProbesOf(m, RayAngle(playerAngle, i), x, y, PlaneVector(m, playerAngle), rows)))
  }

  /**
   * render_camera's two loops over the map. (x, y) is the ray origin, which
   * src/main.c reads as `player.x`, `player.y`. The C resets
   * `smallest_intersection` after each column; here each CastRay starts
   * from RESET, so column i depends only on its own ray.
   */
  method RenderCamera(m: Libm, p: Player, x: real, y: real) returns (columns: seq<Column>)
    requires Lawful(m)
    ensures PlaneVector(m, p.angle) != ZERO
    ensures |columns| == RAYS_NUMBER
    ensures forall i :: 0 <= i < RAYS_NUMBER ==> columns[i] == ColumnFor(m, MAP, p.angle, x, y, i)
  {
    var plane := PlaneVector(m, p.angle);
    DirUnit(m, p.angle + PI / 2.0);
    columns := [];
    var i := 0;
    while i < RAYS_NUMBER
      invariant 0 <= i <= RAYS_NUMBER && |columns| == i
      invariant forall k :: 0 <= k < i ==> columns[k] == ColumnFor(m, MAP, p.angle, x, y, k)
    {
      var angle := RayAngle(p.angle, i);
      var track, wallIndex := CastRay(m, MAP, angle, x, y, plane);
      columns := columns + [ColumnOf(Nearest(track, wallIndex))];
      i := i + 1;
    }
  }

  /** The brightness of a slice at distance d: fades linearly to 0 at 600, then 0.01. */
  function Shade(d: real): real {
    if d > 600.0 then 0.01 else 1.0 - d / 600.0
  }

  /**
   * For non-negative distances the shade is in [0, 1], equals 1 at 0 and
   * 0 at 600, fades as the distance grows up to 600, and is the constant
   * 0.01 beyond, slightly brighter than at 600.
   */
  lemma ShadeBounds(d: real, e: real)
    requires 0.0 <= d
    ensures 0.0 <= Shade(d) <= 1.0
    ensures Shade(0.0) == 1.0 && Shade(600.0) == 0.0
    ensures d <= e <= 600.0 ==> Shade(e) <= Shade(d)
    ensures d > 600.0 ==> Shade(d) == 0.01 > Shade(600.0)
  {}

  /** The slice height `WINDOW_HEIGHT / (d / WALL_SIZE)`. */
  function SliceHeight(d: real): real
    requires d != 0.0
  {
    WINDOW_HEIGHT as real / (d / WALL_SIZE)
  }

  /** The slice height is inversely proportional to the distance: height * d == 30000. */
  lemma SliceHeightInverse(d: real)
    requires d != 0.0
    ensures SliceHeight(d) * d == 30000.0
    ensures 0.0 < d ==> 0.0 < SliceHeight(d)
  {
    assert WALL_SIZE == 50.0;
    assert d / WALL_SIZE != 0.0;
    assert SliceHeight(d) * (d / WALL_SIZE) == 600.0;
  }

  /** C's conversion of a double to int, which truncates toward zero. */
  function Trunc(r: real): int {
    if r >= 0.0 then r.Floor else -((-r).Floor)
  }

  /** The top row `yi = WINDOW_HEIGHT - FLOOR_SIZE - height / 2`, truncated to int. */
  function SliceTop(d: real): int
    requires d != 0.0
  {
    Trunc((WINDOW_HEIGHT - FLOOR_SIZE) as real - SliceHeight(d) / 2.0)
  }

  /**
   * The slice is centred on the horizon row 300 up to the truncation: the
   * top is within one row of `300 - height/2`, rounded toward zero.
   */
  lemma SliceTopCentred(d: real)
    requires d != 0.0
    ensures var t, exact := SliceTop(d), 300.0 - SliceHeight(d) / 2.0;
            (exact >= 0.0 ==> t as real <= exact < t as real + 1.0) &&
            (exact < 0.0 ==> t as real - 1.0 < exact <= t as real)
  {
    assert (WINDOW_HEIGHT - FLOOR_SIZE) as real == 300.0;
  }
}
