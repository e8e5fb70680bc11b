# website-pets movement engine in Dafny

This project models the movement core of website-pets. In website-pets, a sprite ("entity") walks, climbs and falls over a web page. It is held back by obstacles (elements marked "collidable") and kept inside a world box. In world/world.ts that box runs from the document's origin (0, 0) to the viewport's right and bottom edges in document coordinates (`clientWidth + scrollX`, `clientHeight + scrollY`). The lower bound 0 does not follow the scroll offset, so on a scrolled page the entity can sit above or to the left of the visible viewport. Only World.ts's `canMove`, which works in viewport coordinates, keeps it within the viewport itself.

The model has four parts:

- **Position resolver** (`calculate_position.dfy`, module `CalculatePosition`).
  - The collision pass moves the entity's box by `(dX, dY)`. It keeps the obstacles the moved box touches, using a closed-interval test. It then vetoes each axis on its own, so the entity can slide along a face.
  - The boundary pass clamps each axis into `[0, right]` × `[0, bottom]`. The left (top) check is made before the right (bottom) check.
  - Both passes are pure functions over `real` rectangles.
- **Entity** (`entity.dfy`, module `EntityModel`).
  - A class with position, gravity accumulator, gravity flag, state, sprite source and mirroring.
  - `Tick` maps the pressed keys to action states and chooses the state by priority. It then runs `Move`.
  - `Move` applies the gravity step (−0.2 per tick, floor −10). Its loop turns the action states into a delta. It asks a resolver (a function parameter) for the new corner, takes it, and clears the accumulator when the top did not change.
  - `Move` is proved against the pure function `MoveOutcome`.
- **World drivers**, in two versions. Both share the pressed-key updates in `pressed_keys.dfy`.
  - `legacy_world.dfy` (module `LegacyWorld`, World.ts): an all-or-nothing `CanMove` test that uses open intervals. Arrow-key handlers. Unguarded start/stop.
  - `world.dfy` (module `World`, world/world.ts): the resolver is the collision pass followed by clamping. Handlers for the arrow keys and W/A/D; there is no down key. Guarded start/stop/tick. Resize handling and dragging.
  - Both keep the pressed keys in a sequence without duplicates (`ordered_set.dfy`). This is how a JavaScript `Set` behaves, including its insertion order, which decides which horizontal key wins.
- **State tables** (`state_map.dfy` for state.ts, `state_sprite.dfy` for State.ts): the state → sprite maps.

Shared shapes (`Rect`, `ElementRect`, `Position`, `Key`) are in `types.dfy`.

## Model

| member | source | states |
|---|---|---|
| CalculatePosition.CollidingObstacles | src/models/world/calculate-position.ts:15-26 | an obstacle is kept exactly when the moved box is not strictly past any of its edges, so edge contact counts as colliding |
| CalculatePosition.SomeBlocksHorizontally | src/models/world/calculate-position.ts:30-48 | true exactly when some colliding obstacle overlaps the current box vertically and would still overlap it horizontally after the move (open intervals) |
| CalculatePosition.SomeBlocksVertically | src/models/world/calculate-position.ts:51-68 | the symmetric test for the vertical part of the move |
| CalculatePosition.CalculatePositionWithCollision | src/models/world/calculate-position.ts:3-81 | each axis is all-or-nothing: left is `left` when some touched obstacle blocks horizontally, else `left+dX`; the same for top, decided separately; nothing touched gives exactly `(left+dX, top+dY)`; a zero move stays put |
| CalculatePosition.OutsideVerticallyNeverVetoesHorizontal | src/models/world/calculate-position.ts:35-40 | adding an obstacle that lies wholly above or below the current box never changes the resulting left |
| CalculatePosition.OutsideHorizontallyNeverVetoesVertical | src/models/world/calculate-position.ts:56-61 | adding an obstacle that lies wholly left or right of the current box never changes the resulting top |
| CalculatePosition.ObstacleOrderIrrelevant | src/models/world/calculate-position.ts:15-68 | any permutation of the obstacles gives the same position |
| CalculatePosition.MoreObstaclesOnlyAddVetoes | src/models/world/calculate-position.ts:15-68 | a superset of obstacles keeps every veto; on each axis its result is the subset's result or the blocked one |
| CalculatePosition.HorizontalMoveNeverPenetrates | src/models/world/calculate-position.ts:28-74 | a purely horizontal move never ends overlapping an obstacle the box did not already overlap |
| CalculatePosition.VerticalMoveNeverPenetrates | src/models/world/calculate-position.ts:28-74 | a purely vertical move never ends overlapping an obstacle the box did not already overlap |
| CalculatePosition.DiagonalMoveCanEnterAtCorner | src/models/world/calculate-position.ts:35-74 | a diagonal move toward an obstacle's corner is vetoed on neither axis and ends inside the obstacle (concrete boxes) |
| CalculatePosition.PushIntoWallStaysPut | src/models/world/calculate-position.ts:9-74 | a box at (0,0) of size 50×50 pushed right by 10 against an obstacle from (40,0) to (100,50) stays at (0,0) |
| CalculatePosition.CalculatePositionWithWorldBoundary | src/models/world/calculate-position.ts:83-128 | an axis is kept exactly when it is already inside `[0, limit−size]`; below 0 goes to 0 first; past the far edge goes to `limit−size`; when the box fits, the result is inside the world |
| CalculatePosition.BoundaryIdempotent | src/models/world/calculate-position.ts:88-127 | when the box fits, clamping a clamped position changes nothing |
| CalculatePosition.BoundaryNotIdempotentWhenTooWide | src/models/world/calculate-position.ts:103-123 | a box wider than the world at left −5 is moved to 0, then to `right−width` = −50: without the fit, clamping is not idempotent |
| EntityModel.KeyAction | src/models/Entity.ts:5-10 | up maps to MOVE_UP, down to IDLE, left to MOVE_LEFT, right to MOVE_RIGHT, and each key to a different state |
| EntityModel.KeyStates | src/models/Entity.ts:97-99 | the action states follow the pressed keys' order one for one; distinct keys give distinct states, so the `Set` drops nothing |
| EntityModel.FirstPresent | src/models/Entity.ts:137-143 | returns the index of the first priority entry that is present (every earlier one is absent), or the list length when none is |
| EntityModel.SelectState | src/models/Entity.ts:115-145 | MOVE_UP held gives MOVE_UP; else a nonzero accumulator gives FALL even with left or right held; else the first of FALL, MOVE_LEFT, MOVE_RIGHT present, default IDLE (so up+left gives MOVE_UP) |
| EntityModel.HorizontalDelta | src/models/Entity.ts:160-181 | `dX ∈ {0, −speed, +speed}`; 0 without left or right; −speed only with left present, +speed only with right present |
| EntityModel.LaterHorizontalWins | src/models/Entity.ts:164-171 | the horizontal state iterated last decides `dX` |
| EntityModel.LaterKeyWins | src/models/Entity.ts:160-171 | with left and right both held, the key pressed later (later in the set's insertion order) decides the direction |
| EntityModel.VerticalDelta | src/models/Entity.ts:172-176 | with MOVE_UP present `dY = −speed`; otherwise `dY = −yAcc`, between 0 and 10 (downward) |
| EntityModel.NextYAcc | src/models/Entity.ts:158 | with gravity enabled, the result is the larger of `yAcc − 0.2` and −10; disabled, it is 0; from `[−10, 0]` it stays in `[−10, 0]` |
| EntityModel.FreeFallValue | src/models/Entity.ts:158 | from rest the accumulator is `−n/5` after n ≤ 50 steps and −10 from then on |
| EntityModel.MoveOutcomeProperties | src/models/Entity.ts:157-194 | after a move the accumulator is in `[−10, 0]`; the corner is exactly the resolver's result; the accumulator is 0 after climbing, after an unchanged top, or with gravity off, and is the gravity step otherwise |
| EntityModel.UnobstructedFall | src/models/Entity.ts:157-194 | with no keys and nothing in the way, each move takes the accumulator one free-fall step further (no landing reset) |
| EntityModel.FiveFreeTicks | src/models/Entity.ts:96-102 | five unobstructed ticks of a new entity give −0.2, −0.4, −0.6, −0.8, −1.0 |
| EntityModel.Entity.constructor | src/models/Entity.ts:39-63 | a new entity is at the configured corner, at rest, gravity on, IDLE, unmirrored, with the idle sprite |
| EntityModel.Entity.SetLeft | src/models/Entity.ts:78-81 | sets left only |
| EntityModel.Entity.SetTop | src/models/Entity.ts:87-90 | sets top only |
| EntityModel.Entity.ToggleGravity | src/models/Entity.ts:104-106 | gravity is disabled exactly when `on` is false |
| EntityModel.Entity.SetStateSprite | src/models/Entity.ts:196-207 | sprite source from the state's sprite; MOVE_LEFT mirrors, MOVE_RIGHT unmirrors, other states keep the direction |
| EntityModel.Entity.SetState | src/models/Entity.ts:115-152 | the state becomes `SelectState`; sprite and direction are rewritten only when the state changes |
| EntityModel.Entity.Move | src/models/Entity.ts:157-194 | the new corner and accumulator are `MoveOutcome` of the old box and accumulator; the accumulator stays in `[−10, 0]` |
| EntityModel.Entity.Tick | src/models/Entity.ts:96-102 | the state is chosen from the accumulator before this tick's gravity step, then the entity moves as `MoveOutcome` says |
| StateMap.StateToSprite | src/models/state.ts:28-35 | RUN exactly for MOVE_LEFT and MOVE_RIGHT; CLIMB exactly for MOVE_UP and MOVE_DOWN; IDLE and FALL for themselves; never SIT or WALLGRAB |
| StateMap.StateNamesDistinct | src/models/state.ts:4-11 | the six state names are pairwise different |
| StateSprite.StateSpriteName | src/models/State.ts:10-17 | 'run' exactly for left and right; 'climb' exactly for up and down; 'idle' and 'fall' for themselves |
| StateSprite.TablesAgree | src/models/State.ts:10-17 | for every state, the string equals the name of the sprite state that state.ts assigns |
| LegacyWorld.KeyOf | src/models/World.ts:56-77 | Left/ArrowLeft, Right/ArrowRight, Up/ArrowUp and Down/ArrowDown name their keys; every other name names none |
| PressedKeys.Press | src/models/World.ts:56-77 | key-down adds the key the name maps to; a name mapping to no key changes nothing; re-adding changes nothing; no duplicates appear |
| PressedKeys.Release | src/models/World.ts:79-100 | key-up removes exactly the key the name maps to and keeps every other one |
| PressedKeys.PressIdempotent | src/models/World.ts:56-77 | pressing a key twice is the same as pressing it once |
| PressedKeys.PressThenReleaseOthersUnchanged | src/models/world/world.ts:125-167 | after key-down then key-up of one key, that key is absent and every other key is as it was |
| PressedKeys.PressThenRelease | src/models/world/world.ts:125-167 | pressing and then releasing a key that was not held restores the pressed keys, order included |
| LegacyWorld.SomeOverlaps | src/models/World.ts:117-129 | true exactly when some obstacle shares interior points with the moved box |
| LegacyWorld.CanMove | src/models/World.ts:102-130 | true exactly when the moved box is inside `[0, width]` × `[0, height]` and overlaps no obstacle; false whenever it leaves the world; with no obstacles, the bounds test alone |
| LegacyWorld.EdgeContactIsNotBlocked | src/models/World.ts:117-128 | a moved box whose right edge lands on an obstacle's left edge is not blocked (open intervals) |
| LegacyWorld.World.constructor | src/models/World.ts:21-25 | not running, no keys pressed |
| LegacyWorld.World.Start | src/models/World.ts:27-33 | sets the running flag and returns the frame id |
| LegacyWorld.World.Stop | src/models/World.ts:35-39 | clears the running flag |
| LegacyWorld.World.Tick | src/models/World.ts:41-54 | when not running it returns −1 and leaves the entity unchanged; otherwise it ticks the entity with the pressed keys and returns the frame id |
| LegacyWorld.World.HandleKeyDown | src/models/World.ts:56-77 | the pressed keys become `Press` of the old ones with the key the name maps to, and stay duplicate-free |
| LegacyWorld.World.HandleKeyUp | src/models/World.ts:79-100 | the pressed keys become `Release` of the old ones with the key the name maps to, and stay duplicate-free |
| World.KeyOf | src/models/world/world.ts:125-145 | 'a'/Left/ArrowLeft name LEFT, 'd'/Right/ArrowRight name RIGHT, 'w'/Up/ArrowUp name UP; nothing names DOWN |
| World.ResolvePosition | src/models/world/world.ts:169-200 | collision first, then clamping to `{0, 0, W, H}`; when the entity fits, the result is in bounds; a move that touches nothing and stays inside is taken as proposed; each axis ends at its old value, moved value, 0 or `limit−size` |
| World.ClampedAtBottom | src/models/world/world.ts:169-200 | top 780 plus dY 30 with height 50 in a world 800 high gives top 750 |
| World.TickKeepsEntityInWorld | src/models/world/world.ts:110-123 | a move through the world's resolver leaves an entity that fits inside the world |
| World.CentredOn | src/models/world/world.ts:64-67 | the corner puts the entity's centre on the pointer |
| World.World.constructor | src/models/world/world.ts:16-26 | not running, no keys pressed, not dragging |
| World.World.Start | src/models/world/world.ts:28-49 | returns −1 and changes nothing if already running or on a small screen; otherwise sets the flag and returns the frame id |
| World.World.Stop | src/models/world/world.ts:51-61 | no-op when not running; otherwise clears the flag |
| World.World.OnScreenSizeChange | src/models/world/world.ts:101-108 | afterwards the world runs exactly when the screen is not small |
| World.World.Tick | src/models/world/world.ts:110-123 | when not running it returns −1 and leaves the entity unchanged; otherwise it ticks the entity through `ResolvePosition`, and an entity that fits stays inside the world |
| World.World.HandleKeyDown | src/models/world/world.ts:125-145 | the pressed keys become `Press` of the old ones with the key the name maps to, and stay duplicate-free |
| World.World.HandleKeyUp | src/models/world/world.ts:147-167 | the pressed keys become `Release` of the old ones with the key the name maps to, and stay duplicate-free |
| World.World.MoveTo | src/models/world/world.ts:64-67 | the entity's corner is `(pageX − width/2, pageY − height/2)` |
| World.World.MouseDown | src/models/world/world.ts:70-80 | gravity is disabled, the entity is centred on the pointer, and dragging starts |
| World.World.MouseMove | src/models/world/world.ts:83-86 | while dragging, the entity is centred on the pointer; otherwise nothing changes |
| World.World.MouseUp | src/models/world/world.ts:89-94 | gravity is enabled again and dragging stops |
| OrderedSet.Delete | src/models/world/world.ts:147-167 | `Set.delete` keeps exactly the other elements; a one-element set loses its element exactly when it is the deleted one |
| OrderedSet.DeleteAppend | src/models/world/world.ts:147-167 | deleting from a concatenation deletes from each part and keeps the parts in order, so the surviving keys keep their insertion order |
| OrderedSet.DeleteDistinct | src/models/world/world.ts:147-167 | deleting keeps the pressed keys duplicate-free |
| OrderedSet.AddThenDelete | src/models/world/world.ts:125-167 | adding an absent key and then deleting it restores the sequence exactly |

## Behaviour of the code worth knowing

- **State priority.** A nonzero accumulator gives FALL unless MOVE_UP is held, even with left or right held (Entity.ts:128-130). Otherwise the priority is MOVE_UP, FALL, MOVE_LEFT, MOVE_RIGHT, IDLE (Entity.ts:137-143). The state is chosen from the previous tick's accumulator, before this tick's gravity step.
- **Lower clamp bound.** The boundary pass compares the left and top with the constant 0 (calculate-position.ts:89-92). It never reads the world box's `left` or `top`.
- **Gravity step.** The step is 0.2 and the floor is −10 (Entity.ts:158).
- **Non-penetration.** Only a move along one axis is guaranteed not to enter an obstacle (`HorizontalMoveNeverPenetrates`, `VerticalMoveNeverPenetrates`). A diagonal move can enter an obstacle at its corner, because each axis is tested against the current box alone (`DiagonalMoveCanEnterAtCorner`).
- **Which state table Entity.ts uses.** Entity.ts imports `SpriteState` and `StateToSpriteMap` from './State', but only state.ts declares those names. The entity therefore uses state.ts's table. State.ts's own `State` enum is identical to state.ts's, so it is declared once.

## Left out

- DOM and browser plumbing is not modelled: creating the image element, writing styles, `getBoundingClientRect`, `querySelectorAll('.collidable')`, adding and removing event listeners, and `console.warn`.
  - The entity writes its position, sprite source and mirroring to fields instead of styles.
  - Obstacles and the entity's box arrive as `Rect`/`ElementRect` values.
  - The pointer-move listener that a drag installs is modelled as the `dragging` flag.
- The entity's measured box (`getBoundingClientRect` plus scroll, and `offsetWidth`/`offsetHeight` in `moveTo`, world.ts:64-67) is taken to equal the box built from its fields `left`, `top`, `width` and `height` (`ElementBox`). The landing reset, which compares the resolved top with the field `top` (Entity.ts:187), relies on this.
- `getElementRectWithScroll` (calculate-position.ts:129-138, world.utils.ts) is not modelled, because it reads the browser's scroll offsets. All rectangles are taken to be in document coordinates already.
- The viewport's right and bottom edges in document coordinates (`getWorldWidth`/`getWorldHeight`, `clientWidth + scrollX` and `clientHeight + scrollY`) are parameters (`worldRight`, `worldBottom`), because they are browser measurements.
- `isSmallScreenSize` (src/utils/screen.ts) is a boolean parameter of `Start` and `OnScreenSizeChange`, because it is a browser measurement.
- The return value of `requestAnimationFrame` is an opaque integer parameter. The frame loop itself is the host's.
- The world.ts constructor's error for a missing container is not modelled, and neither is adding or removing the entity's element from that container. Both are DOM operations.
- World.ts's `WorldInfo` offers only `canMove`, while Entity.ts calls `getAdjustedPosition`. `LegacyWorld.World.Tick` therefore takes the entity's resolver as a parameter. `CanMove` is modelled on its own, since nothing shown connects it to the entity.
- world.ts imports its entity from '../entity/entity'. That file is not part of this model, so the Entity.ts entity stands in for it.
- `Partial<EntityConfig>` merging is not modelled, because it is plain object spread. The constructor takes a complete configuration, and `DefaultConfig` holds the defaults.
- Sprite image paths (src/utils/sprites.ts) are not modelled, because they come from the bundler. The sprite map is a `map<SpriteState, string>` parameter.
- Floating-point rounding is not modelled. Coordinates and the accumulator are exact reals, so the 0.2 step and the −10 floor behave exactly.
- Concurrency is not modelled: event handlers and frames run one at a time in the host.
- Entry and configuration files (src/index.ts, src/demo.ts, the ninja entity files, webpack.prod.config.ts) are not modelled, because they only set things up.
