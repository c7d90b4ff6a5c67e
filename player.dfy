/**
 * src/player.c: the global player record and the three steps that update
 * it — reset, velocity from the movement intents, and the per-frame
 * rotation with the desired position.
 */
module Players {
  import opened MathLib
  import opened Constants
  import opened Algebra

  /**
   * `struct move_set`. `jump` is the flag src/main.c sets on SPACE; nothing
   * in src/player.c reads it.
   */
  datatype MoveSet = MoveSet(front: bool, back: bool, right: bool, left: bool, jump: bool)

  function Add(u: Vec2, v: Vec2): Vec2 { Vec2(u.x + v.x, u.y + v.y) }

  function Scale(k: real, v: Vec2): Vec2 { Vec2(v.x * k, v.y * k) }

  /** The heading `(cos a, sin a)`, a unit vector. */
  function Dir(m: Libm, a: real): Vec2 {
    Vec2(m.cos(a), m.sin(a))
  }

  lemma DirUnit(m: Libm, a: real)
    requires Lawful(m)
    ensures Dot(Dir(m, a), Dir(m, a)) == 1.0 && Dir(m, a) != ZERO
  {
    UnitCircle(m, a);
  }

  /** The sideways contribution: right over left, each gated by its own permission. */
  function Lateral(m: Libm, angle: real, ms: MoveSet, pm: MoveSet): Vec2
  {
    if ms.right && pm.right then Dir(m, angle + PI / 2.0)
    else if ms.left && pm.left then Dir(m, angle - PI / 2.0)
    else ZERO
  }

  /** The forward/backward contribution: front over back, both gated by the back permission. */
  function Longitudinal(m: Libm, angle: real, ms: MoveSet, pm: MoveSet): Vec2
  {
    if ms.front && pm.back then Dir(m, angle)
    else if ms.back && pm.back then Dir(m, angle + PI)
    else ZERO
  }

  /** The direction set_move_player accumulates before it normalises. */
  function Intent(m: Libm, angle: real, ms: MoveSet, pm: MoveSet): Vec2
  {
    Add(Lateral(m, angle, ms, pm), Longitudinal(m, angle, ms, pm))
  }

  /** A vector normalised and scaled to PLAYER_MOVE_SPEED, as the end of set_move_player does. */
  function VelocityFor(m: Libm, d: Vec2): Vec2 {
    Scale(PLAYER_MOVE_SPEED, Normalized(m, d))
  }

  /**
   * The scaled vector is zero when d is zero, and otherwise has length
   * PLAYER_MOVE_SPEED and points along d.
   */
  lemma VelocityForAlong(m: Libm, d: Vec2)
    requires Lawful(m)
    ensures var v := VelocityFor(m, d);
            (d == ZERO ==> v == ZERO) &&
            (d != ZERO ==>
               Dot(v, v) == PLAYER_MOVE_SPEED * PLAYER_MOVE_SPEED && Cross(v, d) == 0.0 && 0.0 < Dot(v, d))
  {
    if d != ZERO {
      NormalizedIsUnit(m, d);
      ScaleUnit(Normalized(m, d), d);
    }
  }

  /** The velocity set_move_player leaves for the heading and flags. */
  function IntentVelocity(m: Libm, angle: real, ms: MoveSet, pm: MoveSet): Vec2 {
    VelocityFor(m, Intent(m, angle, ms, pm))
  }

  /** Scaling a unit vector along d by PLAYER_MOVE_SPEED keeps it along d at full speed. */
  lemma ScaleUnit(r: Vec2, d: Vec2)
    requires Dot(r, r) == 1.0 && Cross(r, d) == 0.0 && 0.0 < Dot(r, d)
    ensures var v := Scale(PLAYER_MOVE_SPEED, r);
            Dot(v, v) == PLAYER_MOVE_SPEED * PLAYER_MOVE_SPEED && Cross(v, d) == 0.0 && 0.0 < Dot(v, d)
  {
    var v := Scale(PLAYER_MOVE_SPEED, r);
    assert Dot(v, v) == Dot(r, r) * 10000.0;
    assert Cross(v, d) == Cross(r, d) * 100.0;
    assert Dot(v, d) == Dot(r, d) * 100.0;
  }

  /** The heading after turning by `rotation * PLAYER_ROTATION_SPEED * dt`, wrapped once. */
  function Turned(angle: real, rotation: real, dt: real): real {
    NormalizeAngle(angle - rotation * PLAYER_ROTATION_SPEED * dt)
  }

  /** Where a player at `p` moving with velocity `v` would be after `dt`. */
  function Advance(p: Point, v: Vec2, dt: real): Point {
    Point(p.x + v.x * dt, p.y + v.y * dt)
  }

  /** `struct player`, the single global `player`. */
  class Player {
    var width: real
    var height: real
    var position: Point
    /** `double velocity[2]`, embedded in the record. */
    const velocity: array<real>
    var rotation: real
    var angle: real
    var move_set: MoveSet
    var possible_moves: MoveSet

    ghost predicate Valid()
      reads this
    {
      velocity.Length == 2
    }

    function Velocity(): Vec2
      requires Valid()
      reads this, velocity
    {
      Vec2(velocity[0], velocity[1])
    }

    /** The zero-initialised global before setup_player runs. */
    constructor ()
      ensures Valid() && fresh(velocity) && Velocity() == ZERO
      ensures width == 0.0 && height == 0.0 && position == Point(0.0, 0.0)
      ensures rotation == 0.0 && angle == 0.0
      ensures move_set == MoveSet(false, false, false, false, false)
      ensures possible_moves == MoveSet(false, false, false, false, false)
    {
      width, height := 0.0, 0.0;
      position := Point(0.0, 0.0);
      velocity := new real[2](_ => 0.0);
      rotation, angle := 0.0, 0.0;
      move_set := MoveSet(false, false, false, false, false);
      possible_moves := MoveSet(false, false, false, false, false);
    }

    /**
     * setup_player: the player stands centred at (445, 295), still and
     * facing angle 0, with no move active and every move permitted. The
     * jump flag is not touched.
     */
    method Setup()
      requires Valid()
      modifies this, velocity
      ensures Valid()
      ensures width == PLAYER_WIDTH && height == PLAYER_HEIGHT
      ensures position == Point(445.0, 295.0)
      ensures Velocity() == ZERO && rotation == 0.0 && angle == 0.0
      ensures move_set == MoveSet(false, false, false, false, old(move_set.jump))
      ensures possible_moves == MoveSet(true, true, true, true, old(possible_moves.jump))
    {
      width := PLAYER_WIDTH;
      height := PLAYER_HEIGHT;
      position := Point(WINDOW_WIDTH as real / 2.0 - width / 2.0, WINDOW_HEIGHT as real / 2.0 - height / 2.0);
      velocity[0] := 0.0;
      velocity[1] := 0.0;
      rotation := 0.0;
      angle := 0.0;
      move_set := move_set.(front := false, back := false, right := false, left := false);
      possible_moves := possible_moves.(front := true, back := true, right := true, left := true);
    }

    /**
     * The first part of set_move_player: zeroes the velocity and adds the
     * permitted lateral and longitudinal headings.
     */
    method AccumulateHeadings(m: Libm)
      requires Valid()
      modifies velocity
      ensures Velocity() == Intent(m, angle, move_set, possible_moves)
    {
      // The sums are taken in locals and stored once, which is the same
      // sequence of values the C leaves in the two cells.
      var vx, vy := 0.0, 0.0;
      if move_set.right && possible_moves.right {
        vx, vy := vx + m.cos(angle + PI / 2.0), vy + m.sin(angle + PI / 2.0);
      } else if move_set.left && possible_moves.left {
        vx, vy := vx + m.cos(angle - PI / 2.0), vy + m.sin(angle - PI / 2.0);
      }
      assert Vec2(vx, vy) == Lateral(m, angle, move_set, possible_moves);
      ghost var lateral := Vec2(vx, vy);

      if move_set.front && possible_moves.back {
        vx, vy := vx + m.cos(angle), vy + m.sin(angle);
      } else if move_set.back && possible_moves.back {
        vx, vy := vx + m.cos(angle + PI), vy + m.sin(angle + PI);
      }
      assert Vec2(vx, vy) == Add(lateral, Longitudinal(m, angle, move_set, possible_moves));
      velocity[0] := vx;
      velocity[1] := vy;
    }

    /**
     * set_move_player: the accumulated headings, normalised and scaled by
     * PLAYER_MOVE_SPEED.
     */
    method SetMovePlayer(m: Libm)
      requires Valid()
      modifies velocity
      ensures Velocity() == IntentVelocity(m, angle, move_set, possible_moves)
    {
      AccumulateHeadings(m);
      NormalizeVector2(m, velocity);
      velocity[0] := velocity[0] * PLAYER_MOVE_SPEED;
      velocity[1] := velocity[1] * PLAYER_MOVE_SPEED;
    }

    /**
     * update_player: recomputes the velocity, turns by
     * `rotation * PLAYER_ROTATION_SPEED * delta_time` with one wrap step,
     * and returns where the player would be after `delta_time` without
     * moving it.
     */
    method UpdatePlayer(m: Libm, deltaTime: real) returns (desired: Point)
      requires Valid()
      modifies this, velocity
      ensures Valid()
      ensures Velocity() == IntentVelocity(m, old(angle), move_set, possible_moves)
      ensures angle == Turned(old(angle), old(rotation), deltaTime)
      ensures desired == Advance(position, Velocity(), deltaTime)
      ensures position == old(position) && rotation == old(rotation)
      ensures width == old(width) && height == old(height)
      ensures move_set == old(move_set) && possible_moves == old(possible_moves)
    {
      ghost var ms, pm := move_set, possible_moves;
      SetMovePlayer(m);
      assert move_set == ms && possible_moves == pm;
      angle := Turned(angle, rotation, deltaTime);
      desired := Advance(position, Vec2(velocity[0], velocity[1]), deltaTime);
    }
  }

  /** With no permitted intent the velocity stays exactly zero. */
  lemma StillWithoutPermittedIntent(m: Libm, angle: real, ms: MoveSet, pm: MoveSet)
    requires !(ms.right && pm.right) && !(ms.left && pm.left)
    requires !(ms.front && pm.back) && !(ms.back && pm.back)
    ensures IntentVelocity(m, angle, ms, pm) == ZERO
  {
    assert Intent(m, angle, ms, pm) == ZERO;
  }

  /** The squared speed after set_move_player is 0 or PLAYER_MOVE_SPEED squared. */
  lemma SpeedIsZeroOrFull(m: Libm, d: Vec2)
    requires Lawful(m)
    ensures var v := VelocityFor(m, d);
            Dot(v, v) == 0.0 || Dot(v, v) == 10000.0
  {
    VelocityForAlong(m, d);
  }

  /**
   * A single permitted heading — sideways or along the view, not both —
   * accumulates to a unit vector, so the player moves at full speed.
   */
  lemma {:induction false} SingleHeadingIsUnit(m: Libm, angle: real, ms: MoveSet, pm: MoveSet)
    requires Lawful(m)
    requires ((ms.right && pm.right) || (ms.left && pm.left)) != ((ms.front || ms.back) && pm.back)
    ensures Dot(Intent(m, angle, ms, pm), Intent(m, angle, ms, pm)) == 1.0
  {
    if (ms.right && pm.right) || (ms.left && pm.left) {
      DirUnit(m, angle + PI / 2.0);
      DirUnit(m, angle - PI / 2.0);
      assert Intent(m, angle, ms, pm) == Lateral(m, angle, ms, pm);
    } else {
      DirUnit(m, angle);
      DirUnit(m, angle + PI);
      assert Intent(m, angle, ms, pm) == Longitudinal(m, angle, ms, pm);
    }
  }

  /** Right takes precedence: with right active and permitted, left is ignored. */
  lemma RightOverridesLeft(m: Libm, angle: real, ms: MoveSet, pm: MoveSet)
    requires ms.right && pm.right
    ensures IntentVelocity(m, angle, ms, pm) == IntentVelocity(m, angle, ms.(left := false), pm)
  {}

  /** Front takes precedence: with front active and back permitted, back is ignored. */
  lemma FrontOverridesBack(m: Libm, angle: real, ms: MoveSet, pm: MoveSet)
    requires ms.front && pm.back
    ensures IntentVelocity(m, angle, ms, pm) == IntentVelocity(m, angle, ms.(back := false), pm)
  {}

  /**
   * The forward move tests `possible_moves.back`: `possible_moves.front` is
   * never consulted, and without the back permission neither front nor
   * back moves the player.
   */
  lemma ForwardGatedByBack(m: Libm, angle: real, ms: MoveSet, pm: MoveSet, b: bool)
    ensures IntentVelocity(m, angle, ms, pm) == IntentVelocity(m, angle, ms, pm.(front := b))
    ensures !pm.back ==>
              IntentVelocity(m, angle, ms, pm) == IntentVelocity(m, angle, ms.(front := false, back := false), pm)
  {}

  /** The jump flag has no effect on the velocity. */
  lemma JumpIgnored(m: Libm, angle: real, ms: MoveSet, pm: MoveSet, b: bool, c: bool)
    ensures IntentVelocity(m, angle, ms, pm) == IntentVelocity(m, angle, ms.(jump := b), pm.(jump := c))
  {}

  /** The unit x vector becomes a velocity of (100, 0). */
  lemma {:induction false} UnitXVelocity(m: Libm)
    requires Lawful(m)
    ensures VelocityFor(m, Vec2(1.0, 0.0)) == Vec2(100.0, 0.0)
  {
    assert Dot(Vec2(1.0, 0.0), Vec2(1.0, 0.0)) == 1.0;
    SqrtUnique(m, 1.0, 1.0);
  }

  /**
   * Moving forward at angle 0 accumulates the heading (1, 0), so the
   * velocity is (100, 0).
   */
  lemma {:induction false} ForwardAtAngleZero(m: Libm, ms: MoveSet, pm: MoveSet)
    requires Lawful(m) && m.cos(0.0) == 1.0 && m.sin(0.0) == 0.0
    requires ms.front && !ms.right && !ms.left && pm.back
    ensures IntentVelocity(m, 0.0, ms, pm) == Vec2(100.0, 0.0)
  {
    assert Lateral(m, 0.0, ms, pm) == ZERO;
    assert Longitudinal(m, 0.0, ms, pm) == Dir(m, 0.0) == Vec2(1.0, 0.0);
    assert Intent(m, 0.0, ms, pm) == Vec2(1.0, 0.0);
    UnitXVelocity(m);
  }
}
