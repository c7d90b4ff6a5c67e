# Raycaster core in Dafny

This project models the geometry and game-state core of a small C
raycaster. A player stands on a 2-D map of wall segments. Keyboard and
mouse events set the player's movement flags and rotation. Every frame
the player's velocity is rebuilt from those flags, its heading is turned
and its desired position is computed. The camera casts `RAYS_NUMBER`
(900) rays across a 60-degree field of view. Each ray keeps the wall hit
nearest to the camera plane, and that distance decides the shade and
height of the column's wall slice. Alongside the renderer the core has a
"section" container: fixed-capacity arrays of walls and doors, filled
from the level table by `create_level_1`. It also has a singly linked
list of lines.

Modules, following the source files:

- `Constants`: the values from `src/constants.h`.
- `MathLib`: `sqrt`, `sin`, `cos` and `tan` as a `Libm` value of four
  uninterpreted functions. `Lawful(m)` states the two laws the proofs
  use: `sqrt` is the non-negative square root on non-negative inputs,
  and `sin² + cos² == 1`.
- `Algebra` (`src/algebra.c`): vector length and normalisation, the
  distance from a point to the line through the origin along a vector,
  the one-step angle wrap, and the ray/segment intersection test. That
  test includes its special branch for horizontal segments.
- `Utils` (`src/utils.c`): the older float copy of the same kernel. Its
  intersection test has no horizontal branch. It also has
  `distance_from_plane`.
- `Alloc`: a ledger of live heap blocks (`Heap.live`), so that
  `malloc` and `free` can be followed. Whether each `malloc` succeeds is
  an input.
- `Sections` (`src/section.c`): `Section` is a class that owns a door
  array and a wall array, each with a count and a capacity.
- `LinkedList` (`src/linked_list.c`): a heap-allocated list of lines
  with prepend and a recursive destroy.
- `Players` (`src/player.c`): the `Player` class with setup, velocity
  assembly and the per-frame update.
- `Levels` (`src/levels.c`): the 17-row map table and `create_level_1`.
- `Frame` (`src/main.c`): the event transitions of `process_inputs` and
  the ray-casting loop of `render_camera`, without SDL. The loop
  returns the column it would draw for each ray.

All C `float` and `double` arithmetic is modelled on `real`. `PI` is the
literal `3.14159` of the header, not the mathematical constant.

The model follows the code where it differs from what one might expect,
and from what the headers declare:

- One might expect opposing keys to cancel. `set_move_player` uses
  else-if chains, so right wins over left and front over back. Forward
  movement is also allowed only when `possible_moves.back` is set.
- One might expect a ray along +x to hit the wall ahead. At angle 0,
  `tan(0) == 0` puts the crossing at the origin's own height, and the
  strict `yi < intersection[1]` test rejects it, so no non-horizontal
  wall is ever hit (`Algebra.AngleZeroMissesWallAhead`). The same holds
  at the exact angles `±PI/2`.
- `src/section.h` declares neither the `dest` field of `struct door` nor
  the counters that `src/section.c` uses. The model follows
  `src/section.c`.
- `src/main.c` reads `player.x`, `player.y` and `move_set.jump`, but
  `src/player.h` does not declare them. `MoveSet` carries a `jump` flag,
  and the ray origin `x, y` is a parameter of `Frame.RenderCamera`.

## Model

| member | source | states |
|---|---|---|
| Algebra.AbsVector2IsLength | src/algebra.c:24-26 | under lawful `sqrt` the magnitude is non-negative, its square is `x²+y²`, and it is 0 exactly for the zero vector |
| Algebra.Normalized | src/algebra.c:11-15 | the zero vector is left unchanged (the `len ? len : 1` guard) |
| Algebra.NormalizedIsUnit | src/algebra.c:11-15 | a nonzero vector becomes a unit vector, parallel to it and pointing the same way |
| Algebra.NormalizeVector2 | src/algebra.c:11-15 | the two array cells are replaced in place by the normalised vector |
| Algebra.OrthogonalPartFacts | src/algebra.c:37-42 | the orthogonal projection is perpendicular to the plane vector, and its squared length times `|plane|²` is the squared cross product |
| Algebra.DistanceFromLineFacts | src/algebra.c:37-44 | the distance is non-negative, `d²·|plane|² == cross²`, and it is 0 exactly when the point lies on the plane vector's line |
| Algebra.DistanceZeroOnLine | src/algebra.c:37-44 | every multiple of the plane vector is at distance 0 |
| Algebra.ZeroCrossIsOnLine | src/algebra.c:38 | a point with zero cross product is its own projection onto the plane vector |
| Algebra.UnitPlaneDistance | src/algebra.c:37-44 | for a unit plane vector the distance is the absolute value of the cross product |
| Algebra.NormalizeAngle | src/algebra.c:52-58 | the result differs from the input by 0 or ±2·PI, leaves `[-PI, PI]` fixed, and maps `[-3PI, 3PI]` into `[-PI, PI]` |
| Algebra.NormalizeAngleIsSingleStep | src/algebra.c:52-58 | only one step of 2·PI is taken: `4PI` and `-4PI` stay out of range |
| Algebra.EndpointsOnSegmentLine | src/algebra.c:86-88 | both segment endpoints satisfy the segment's line equation `at·x + bt·y + ct == 0` |
| Algebra.CramerSolvesAt | src/algebra.c:114-115 | a point meeting the two Cramer-rule equations lies on the ray's line and on the segment's line when the determinant is nonzero |
| Algebra.CrossingUnique | src/algebra.c:81-91 | with a nonzero determinant the two lines share at most one point |
| Algebra.HorizontalSolves | src/algebra.c:94-101 | on a horizontal segment the branch's point `(xi + (y0-yi)/tan, y0)` lies on both lines |
| Algebra.HorizontalBranch | src/algebra.c:94-111 | origin on the segment's line gives no point and no hit; otherwise the point is on both lines and is a hit exactly when it is within the segment's x-extent and the segment is not behind the ray's vertical direction |
| Algebra.CramerPoint | src/algebra.c:114-115 | the computed point lies on the ray's line and on the segment's line |
| Algebra.GeneralBranch | src/algebra.c:114-144 | a point on both lines is written; it is a hit exactly when it is in the segment's bounding box and strictly ahead in the angle's quadrant |
| Algebra.IntersectionLines | src/algebra.c:72-147 | a zero determinant gives no point and no hit; the horizontal early return gives neither; otherwise the written point is the crossing; the flag matches the branch's in-front test |
| Algebra.CrossingIsWritten | src/algebra.c:72-147 | any point on both lines is the point written (the crossing is unique) |
| Algebra.SameCrossing | src/algebra.c:81-91 | two points on both the ray's line and the segment's line are equal when the determinant is nonzero |
| Algebra.HorizontalHitOnSegment | src/algebra.c:94-111 | a hit on a horizontal segment lies on that segment, between its endpoints |
| Algebra.HorizontalBehindMisses | src/algebra.c:100-108 | a horizontal segment on the opposite side of the ray's vertical direction is never hit |
| Algebra.AxisAnglesMissSlanted | src/algebra.c:128-144 | at angles exactly ±PI/2, or 0 with `tan(0) == 0`, no non-horizontal segment is hit |
| Algebra.AngleZeroMissesWallAhead | src/algebra.c:128-144 | a ray at angle 0 from (60,60) finds the crossing (110,60) on the wall ahead but reports no hit |
| Utils.NormalizeVector2 | src/utils.c:11-15 | same in-place normalisation as the double version |
| Utils.AbsVector2 | src/utils.c:24-26 | same magnitude as the double version |
| Utils.AbsVector2IsLength | src/utils.c:24-26 | non-negative, and zero exactly for the zero vector |
| Utils.NormalizeAngle | src/utils.c:34-40 | same wrap as the double version; `[-3PI, 3PI]` maps into `[-PI, PI]` |
| Utils.DistanceFromPlane | src/utils.c:115-122 | same value as `distance_from_line` of the double kernel |
| Utils.IntersectionLines | src/utils.c:53-105 | a point is written exactly when the determinant is nonzero; it lies on both lines; it is a hit exactly when it is in the box and strictly ahead in the angle's quadrant |
| Utils.AgreesWithAlgebraOffHorizontal | src/utils.c:53-105 | on non-horizontal segments the float and double tests give the same flag and point |
| Utils.HorizontalSamePoint | src/utils.c:69-73 | on horizontal segments both versions write the same crossing when the double one writes any |
| Utils.OriginOnHorizontalLineMisses | src/utils.c:76-102 | with the origin on a horizontal segment's line the float test writes the origin and reports no hit |
| Alloc.Heap.Acquire | src/section.c:13 | an allocation adds a fresh block to the live set |
| Alloc.Heap.Free | src/section.c:18 | a free removes a live block from the live set |
| Sections.Section.Create | src/section.c:12-35 | null exactly when one of the three allocations fails, with every block already taken freed again; otherwise empty arrays of the given capacities, both counts 0, three new live blocks |
| Sections.Section.AddDoor | src/section.c:45-51 | returns 1 and changes nothing when the doors are full; otherwise stores `(door, dest)` at the old count, increments the count, returns 0; walls untouched |
| Sections.Section.AddWall | src/section.c:60-65 | returns 1 and changes nothing when the walls are full; otherwise appends the wall at the old count, increments the count, returns 0; doors untouched |
| LinkedList.FootprintSize | src/linked_list.c:51-55 | a valid chain has exactly one node per element |
| LinkedList.Create | src/linked_list.c:10-15 | null exactly when the allocation fails; otherwise a fresh empty list and one more live block |
| LinkedList.CreateLineNode | src/linked_list.c:24-30 | null on a failed allocation; otherwise a fresh node holding the value followed by the given chain |
| LinkedList.AddLine | src/linked_list.c:39-44 | on success returns 0 and the contents become the new line followed by the old contents; on failure returns 1 and the list is unchanged |
| LinkedList.DestroyListRecursive | src/linked_list.c:51-55 | frees exactly the nodes of the chain |
| LinkedList.Destroy | src/linked_list.c:62-66 | frees exactly the list and all its nodes; a null list frees nothing |
| Players.DirUnit | src/player.c:53-65 | every heading `(cos a, sin a)` is a unit vector |
| Players.VelocityForAlong | src/player.c:69-71 | a zero heading sum gives zero velocity; any other gives speed exactly 100 along that sum and in its direction |
| Players.Player.Setup | src/player.c:17-41 | centres the player at (445, 295), zeroes velocity, rotation and angle, clears the moves and permits all four, keeps the jump flags |
| Players.Player.AccumulateHeadings | src/player.c:48-66 | the velocity array holds the lateral heading plus the longitudinal heading |
| Players.Player.SetMovePlayer | src/player.c:47-72 | the velocity becomes 100 times the normalised heading sum |
| Players.Player.UpdatePlayer | src/player.c:80-93 | velocity rebuilt from the old angle; new angle is `NormalizeAngle(angle - rotation·1.3·dt)`; returns `position + velocity·dt`; nothing else changes |
| Players.StillWithoutPermittedIntent | src/player.c:52-66 | with no permitted pressed move the velocity is zero |
| Players.SpeedIsZeroOrFull | src/player.c:69-71 | the speed after normalisation and scaling is either 0 or exactly 100 |
| Players.SingleHeadingIsUnit | src/player.c:52-66 | with exactly one heading active the sum is a unit vector |
| Players.RightOverridesLeft | src/player.c:52-58 | when right is pressed and permitted, left is ignored |
| Players.FrontOverridesBack | src/player.c:60-66 | when front is pressed and back permitted, back is ignored |
| Players.ForwardGatedByBack | src/player.c:60-66 | `possible_moves.front` has no effect; without `possible_moves.back` neither front nor back moves the player |
| Players.JumpIgnored | src/player.c:47-72 | the jump flags do not affect the velocity |
| Players.UnitXVelocity | src/player.c:69-71 | the heading (1,0) gives velocity (100,0) |
| Players.ForwardAtAngleZero | src/player.c:60-71 | at angle 0 with only forward active the velocity is (100,0) |
| Levels.CreateLevel1 | src/levels.c:29-41 | on success a section with capacity 2 doors and 17 walls, no doors, and the 17 map segments as walls in table order; null exactly when an allocation fails |
| Frame.SetFlagTouchesOnlyItsFlag | src/main.c:115-128 | setting one key's flag leaves the other flags unchanged |
| Frame.NonMoveKeyKeepsFlags | src/main.c:114-128 | for every key event other than KEYDOWN of r (which resets the player through `setup_player`), keys other than W, A, S, D and space leave the movement flags unchanged |
| Frame.PressThenRelease | src/main.c:112-129 | a key press followed by its release leaves that flag false, and from rest returns to rest |
| Frame.KeyDownIdempotent | src/main.c:112-122 | repeating a key press changes nothing more |
| Frame.RotationResetOnlyWhenUnhandled | src/main.c:131-138 | for every event other than KEYDOWN of r (which resets the player through `setup_player`, rotation included): rotation becomes 0 only for an unhandled event; mouse motion in first person sets it to `-2·dx`; the other events keep it |
| Frame.ProcessInputs | src/main.c:96-140 | the game stops exactly on quit or Escape; R resets the player as `setup_player`; other events update only flags and rotation; out of first person the angle first becomes the aim angle |
| Frame.RayAngleInRange | src/main.c:169-184 | for a player angle in `[-2PI, 2PI]` (which covers the `atan2f` heading, up to π as a float) every ray angle is in `[-PI, PI]`, and it is the raw sweep angle up to one 2·PI step |
| Frame.SelectIsMinimal | src/main.c:181-195 | the tracked distance is finite exactly when some wall is hit, and is no larger than any hit wall's distance |
| Frame.SelectIsLowestAttaining | src/main.c:187-193 | the selected wall is a hit whose distance is the tracked one, and no earlier wall has that distance (strict `<`) |
| Frame.SelectWithoutHit | src/main.c:181-195 | with no hit the track stays at its reset value and the wall index at 0 |
| Frame.CastRay | src/main.c:181-195 | returns the nearest hit wall for one ray, as defined over the map's probes |
| Frame.RenderCamera | src/main.c:167-226 | the plane vector is nonzero; 900 columns; column `i` is the nearest hit of ray `i`, or blank when none |
| Frame.ShadeBounds | src/main.c:199 | the shade is in `[0, 1]`, 1 at distance 0, 0 at 600, non-increasing up to 600, and 0.01 beyond |
| Frame.SliceHeightInverse | src/main.c:203 | the slice height is inversely proportional to distance (`height·d == 30000`) and positive for positive distance |
| Frame.SliceTopCentred | src/main.c:206 | the slice's top is the truncation toward zero of `300 - height/2`, which centres the slice on the horizon |

## Left out

- SDL: window, renderer, event polling, key and mouse state, and all drawing. Events are a datatype `Frame.Event`, and `Frame.RenderCamera` returns the columns instead of drawing them.
- `src/gametime.c` (the clock): `delta_time` is a parameter of `Players.Player.UpdatePlayer`.
- `rotate_player_towards` and `SDL_GetMouseState`: their effect on the angle out of first person is the `aim` parameter of `Frame.ProcessInputs`.
- The 2-D map drawing `render_map`, the minimap ray drawing and the red plane marker in `render_camera`: these only draw.
- Jumping and gravity (`player.z`, `is_jumping`, the jump offset of each slice): `src/player.h` declares none of these fields, and the jump code is not part of this model. Only the `jump` key flag is kept.
- Floating-point rounding, NaN and infinity: arithmetic is on `real`. `INFINITY` is the `Infinity` case of `Frame.Dist`.
- Algebra.DistanceFromLine, Utils.DistanceFromPlane: require a nonzero plane vector. With a zero vector the C divides 0 by 0 and yields NaN, which `real` cannot represent.
- Sections.Section.Create: the capacities are `nat`, whereas the C takes `int`. A negative size passed to `malloc` is not modelled.
- `smallest_intersection[3]` (the ray angle of the nearest hit): it is written but never read, so the model's track keeps only the point and the distance.
- Algebra.NormalizeAngle, Utils.NormalizeAngle: the C updates the angle through a pointer. The model returns the new angle, and callers assign it.
- The header-only declarations `new_section`, `render_section` and `section_leaving`, and the `next_door` and `room` door fields: `src/section.c` does not implement them. Portal traversal between sections is not modelled. A door's `dest` stands for the C `struct door*` (documented as a pointer to the next door): it is an opaque `Option<nat>` (None for NULL) that is only stored, never followed.
- main.c's own copy of the map table: it has the same 17 rows as `src/levels.c`, so `Frame.RenderCamera` casts against `Levels.MAP`.
- Levels.CreateLevel1: when `section_create` returns NULL, `create_level_1` does not check it and passes NULL to `section_add_wall`, which dereferences it (`src/section.c:61`). The C behaviour is then undefined, and the C never returns NULL from there. The model instead returns null without adding walls.
- `process_inputs` ignores the return value of `SDL_PollEvent` (`src/main.c:97-98`). When no event is queued the switch reads an uninitialised `event`. `Frame.Event` has no case for that, since its contents are indeterminate.
