/** Compile-time constants of the raycaster (src/constants.h). */
module Constants {
  /** PI is the literal 3.14159 the program uses, not the true circle constant. */
  const PI: real := 3.14159

  const WINDOW_HEIGHT: int := 600
  const WINDOW_WIDTH: int := 900

  const PLAYER_WIDTH: real := 10.0
  const PLAYER_HEIGHT: real := 10.0
  const PLAYER_MOVE_SPEED: real := 100.0
  const PLAYER_ROTATION_SPEED: real := 1.3

  /** One ray per screen column. */
  const RAYS_NUMBER: int := WINDOW_WIDTH
  const FOV: real := PI / 3.0

  /** The rendering-mode switch; 0 in this build. */
  const FIRST_PERSON: bool := false
  const MOUSE_SENSITIVITY: int := 2

  const FLOOR_SIZE: int := WINDOW_HEIGHT / 2
  const WALL_SIZE: real := 50.0
}
