/** The world driver (world/world.ts): key handlers for the arrow keys and
    W/A/D (no down key) over the pressed-key set, position resolution as the
    collision pass followed by the boundary pass, guarded start/stop/tick, and
    dragging the entity with the pointer. The world box runs from the document
    origin (0, 0) to the viewport's right/bottom edge in document coordinates
    (`clientWidth + scrollX`, `clientHeight + scrollY`); those two edges, the
    small-screen test, the obstacles and the frame ids are parameters. */
module World {
  import opened WorldTypes
  import OrderedSet
  import PressedKeys
  import CalculatePosition
  import EntityModel
  import StateMap

  /** The key a `keydown`/`keyup` event's `key` names, if any; this driver has
      no down key. */
  function KeyOf(name: string): (k: Option<Key>)
    ensures k == Some(Left) <==> name == "a" || name == "Left" || name == "ArrowLeft"
    ensures k == Some(Right) <==> name == "d" || name == "Right" || name == "ArrowRight"
    ensures k == Some(Up) <==> name == "w" || name == "Up" || name == "ArrowUp"
    ensures k != Some(Down)
  {
    match name
    case "a" => Some(Left)
    case "Left" => Some(Left)
    case "ArrowLeft" => Some(Left)
    case "d" => Some(Right)
    case "Right" => Some(Right)
    case "ArrowRight" => Some(Right)
    case "w" => Some(Up)
    case "Up" => Some(Up)
    case "ArrowUp" => Some(Up)
    case _ => None
  }

  /** `calculatePosition`: resolve collisions first, then clamp into the world
      box from the document origin (0, 0) to (worldRight, worldBottom), the
      viewport's far corner in document coordinates. The result lies in the box
      whenever the element fits, and a move that touches nothing and stays
      inside is taken as proposed. */
  function ResolvePosition(e: ElementRect, dX: real, dY: real, obstacles: seq<Rect>,
                           worldRight: real, worldBottom: real): (q: Position)
    ensures 0.0 <= e.width <= worldRight ==> CalculatePosition.InsideAxis(q.left, e.width, worldRight)
    ensures 0.0 <= e.height <= worldBottom ==> CalculatePosition.InsideAxis(q.top, e.height, worldBottom)
    ensures (forall o :: o in obstacles ==> !CalculatePosition.Touches(e, dX, dY, o)) &&
            CalculatePosition.InsideAxis(e.left + dX, e.width, worldRight) &&
            CalculatePosition.InsideAxis(e.top + dY, e.height, worldBottom)
            ==> q == Position(e.left + dX, e.top + dY)
    ensures q.left in {e.left, e.left + dX, 0.0, worldRight - e.width}
    ensures q.top in {e.top, e.top + dY, 0.0, worldBottom - e.height}
  {
    var newPosition := CalculatePosition.CalculatePositionWithCollision(e, dX, dY, obstacles);
    var worldRect := Rect(0.0, worldRight, 0.0, worldBottom);
    CalculatePosition.CalculatePositionWithWorldBoundary(worldRect, e, newPosition)
  }

  /** An element 50 high with its top at 780, moved down by 30 in a world 800
      high, is clamped to a top of 750. */
  lemma ClampedAtBottom()
    ensures ResolvePosition(BoxAt(0.0, 780.0, 50.0, 50.0), 0.0, 30.0, [], 800.0, 800.0) == Position(0.0, 750.0)
  {
  }

  /** The resolver the world hands to its entity on each tick. */
  function Resolver(obstacles: seq<Rect>, worldRight: real, worldBottom: real): (ElementRect, real, real) -> Position
  {
    (e: ElementRect, dX: real, dY: real) => ResolvePosition(e, dX, dY, obstacles, worldRight, worldBottom)
  }

  /** Ticks of an entity that fits in the world keep it inside the world. */
  lemma TickKeepsEntityInWorld(box: ElementRect, yAcc: real, yAccDisabled: bool, speed: real,
                               states: seq<StateMap.State>, obstacles: seq<Rect>,
                               worldRight: real, worldBottom: real)
    requires 0.0 <= box.width <= worldRight && 0.0 <= box.height <= worldBottom
    ensures var m := EntityModel.MoveOutcome(box, yAcc, yAccDisabled, speed, states,
                                             Resolver(obstacles, worldRight, worldBottom));
            CalculatePosition.InsideAxis(m.left, box.width, worldRight) &&
            CalculatePosition.InsideAxis(m.top, box.height, worldBottom)
  {
  }

  /** The top-left corner that centres an element of the given size on the
      pointer. */
  function CentredOn(pageX: real, pageY: real, width: real, height: real): (p: Position)
    ensures p.left + width / 2.0 == pageX && p.top + height / 2.0 == pageY
  {
    Position(pageX - width / 2.0, pageY - height / 2.0)
  }

  class World {
    var isRunning: bool
    var keyPressed: seq<Key>
    /** Whether a drag is in progress, i.e. the pointer-move listener is
        installed. */
    var dragging: bool
    const mainEntity: EntityModel.Entity

    ghost predicate Valid()
      reads this, mainEntity
    {
      OrderedSet.Distinct(keyPressed) && mainEntity.Valid()
    }

    constructor (mainEntity: EntityModel.Entity)
      requires mainEntity.Valid()
      ensures Valid() && this.mainEntity == mainEntity
      ensures !isRunning && keyPressed == [] && !dragging
    {
      this.mainEntity := mainEntity;
      isRunning, keyPressed, dragging := false, [], false;
    }

    /** `start`: refuse with -1 when already running or on a small screen;
        otherwise set the running flag and request the first frame. */
    method Start(isSmallScreen: bool, frame: int) returns (id: int)
      modifies this`isRunning
      ensures old(isRunning) || isSmallScreen ==> id == -1 && isRunning == old(isRunning)
      ensures !old(isRunning) && !isSmallScreen ==> isRunning && id == frame
    {
      if isRunning {
        return -1;
      }
      if isSmallScreen {
        return -1;
      }
      isRunning := true;
      id := frame;
    }

    /** `stop`: nothing to do when not running; otherwise clear the flag. */
    method Stop()
      modifies this`isRunning
      ensures !isRunning
    {
      if !isRunning {
        return;
      }
      isRunning := false;
    }

    /** `onScreenSizeChange`: stop on a small screen, otherwise (re)start. */
    method OnScreenSizeChange(isSmallScreen: bool, frame: int)
      modifies this`isRunning
      ensures isRunning == !isSmallScreen
    {
      if isSmallScreen {
        Stop();
      } else {
        var _ := Start(isSmallScreen, frame);
      }
    }

    /** `tick`: when stopped, return -1 and touch nothing; otherwise tick the
        entity with the pressed keys and the world's resolver, and request the
        next frame. */
    method Tick(frame: int, obstacles: seq<Rect>, worldRight: real, worldBottom: real) returns (id: int)
      requires Valid()
      modifies mainEntity`state, mainEntity`mirrored, mainEntity`src, mainEntity`yAcc,
               mainEntity`left, mainEntity`top
      ensures Valid()
      ensures !isRunning ==> id == -1 && unchanged(mainEntity)
      ensures isRunning ==> id == frame
      ensures isRunning ==>
                mainEntity.state == EntityModel.SelectState(old(mainEntity.yAcc), EntityModel.KeyStates(keyPressed))
      ensures isRunning ==>
                (EntityModel.Motion(mainEntity.left, mainEntity.top, mainEntity.yAcc)
                 == EntityModel.MoveOutcome(old(mainEntity.ElementBox()), old(mainEntity.yAcc), mainEntity.yAccDisabled,
                                            mainEntity.speed, EntityModel.KeyStates(keyPressed),
                                            Resolver(obstacles, worldRight, worldBottom)))
      ensures isRunning && 0.0 <= mainEntity.width <= worldRight && 0.0 <= mainEntity.height <= worldBottom ==>
                CalculatePosition.InsideAxis(mainEntity.left, mainEntity.width, worldRight) &&
                CalculatePosition.InsideAxis(mainEntity.top, mainEntity.height, worldBottom)
    {
      if !isRunning {
        return -1;
      }
      ghost var box := mainEntity.ElementBox();
      mainEntity.Tick(keyPressed, Resolver(obstacles, worldRight, worldBottom));
      if 0.0 <= mainEntity.width <= worldRight && 0.0 <= mainEntity.height <= worldBottom {
        TickKeepsEntityInWorld(box, old(mainEntity.yAcc), mainEntity.yAccDisabled, mainEntity.speed,
                               EntityModel.KeyStates(keyPressed), obstacles, worldRight, worldBottom);
      }
      id := frame;
    }

    /** `handleKeyDown`. */
    method HandleKeyDown(name: string)
      requires Valid()
      modifies this`keyPressed
      ensures Valid()
      ensures keyPressed == PressedKeys.Press(old(keyPressed), KeyOf(name))
    {
      match KeyOf(name)
      case Some(k) =>
        keyPressed := OrderedSet.Add(keyPressed, k);
      case None =>
        return;
    }

    /** `handleKeyUp`. */
    method HandleKeyUp(name: string)
      requires Valid()
      modifies this`keyPressed
      ensures Valid()
      ensures keyPressed == PressedKeys.Release(old(keyPressed), KeyOf(name))
    {
      match KeyOf(name)
      case Some(k) =>
        OrderedSet.DeleteDistinct(keyPressed, k);
        keyPressed := OrderedSet.Delete(keyPressed, k);
      case None =>
        return;
    }

    /** `moveTo` of `makeEntityDraggable`: centre the entity on the pointer. */
    method MoveTo(entity: EntityModel.Entity, pageX: real, pageY: real)
      modifies entity`left, entity`top
      ensures Position(entity.left, entity.top) == CentredOn(pageX, pageY, entity.width, entity.height)
    {
      entity.SetLeft(pageX - entity.width / 2.0);
      entity.SetTop(pageY - entity.height / 2.0);
    }

    /** Pointer pressed on the entity: disable gravity, centre the entity on
        the pointer and start following the pointer. */
    method MouseDown(entity: EntityModel.Entity, pageX: real, pageY: real)
      modifies this`dragging, entity`yAccDisabled, entity`left, entity`top
      ensures dragging && entity.yAccDisabled
      ensures Position(entity.left, entity.top) == CentredOn(pageX, pageY, entity.width, entity.height)
    {
      entity.ToggleGravity(false);
      MoveTo(entity, pageX, pageY);
      dragging := true;
    }

    /** Pointer moved: the entity follows only while a drag is in progress. */
    method MouseMove(entity: EntityModel.Entity, pageX: real, pageY: real)
      modifies entity`left, entity`top
      ensures dragging ==> Position(entity.left, entity.top) == CentredOn(pageX, pageY, entity.width, entity.height)
      ensures !dragging ==> unchanged(entity)
    {
      if dragging {
        MoveTo(entity, pageX, pageY);
      }
    }

    /** Pointer released: re-enable gravity and stop following the pointer. */
    method MouseUp(entity: EntityModel.Entity)
      modifies this`dragging, entity`yAccDisabled
      ensures !dragging && !entity.yAccDisabled
    {
      entity.ToggleGravity(true);
      dragging := false;
    }
  }
}
