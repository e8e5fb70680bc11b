/** The earlier world driver (World.ts): an all-or-nothing `canMove` test, the
    arrow-key handlers over the pressed-key set, and the running flag that
    guards the frame loop. Frame ids from `requestAnimationFrame` are opaque
    integers supplied by the caller. */
module LegacyWorld {
  import opened WorldTypes
  import OrderedSet
  import PressedKeys
  import EntityModel

  /** The key a `keydown`/`keyup` event's `key` names, if any. */
  function KeyOf(name: string): (k: Option<Key>)
    ensures k == Some(Left) <==> name == "Left" || name == "ArrowLeft"
    ensures k == Some(Right) <==> name == "Right" || name == "ArrowRight"
    ensures k == Some(Up) <==> name == "Up" || name == "ArrowUp"
    ensures k == Some(Down) <==> name == "Down" || name == "ArrowDown"
  {
    match name
    case "Left" => Some(Left)
    case "ArrowLeft" => Some(Left)
    case "Right" => Some(Right)
    case "ArrowRight" => Some(Right)
    case "Up" => Some(Up)
    case "ArrowUp" => Some(Up)
    case "Down" => Some(Down)
    case "ArrowDown" => Some(Down)
    case _ => None
  }

  /** The element moved by (dX, dY) lies within [0, width] x [0, height]. */
  predicate InWorld(e: Rect, dX: real, dY: real, worldWidth: real, worldHeight: real)
  {
    !(e.left + dX < 0.0 || e.right + dX > worldWidth || e.top + dY < 0.0 || e.bottom + dY > worldHeight)
  }

  /** The element moved by (dX, dY) shares interior points with the obstacle:
      open intervals, so sharing an edge is not overlapping. */
  predicate OverlapsAfterMove(e: Rect, dX: real, dY: real, o: Rect)
  {
    !(e.left + dX >= o.right || e.right + dX <= o.left || e.top + dY >= o.bottom || e.bottom + dY <= o.top)
  }

  /** `collidableElements.some(...)` with the overlap test. */
  function SomeOverlaps(e: Rect, dX: real, dY: real, obstacles: seq<Rect>): (b: bool)
    ensures b <==> exists o :: o in obstacles && OverlapsAfterMove(e, dX, dY, o)
  {
    if obstacles == [] then false
    else OverlapsAfterMove(e, dX, dY, obstacles[0]) || SomeOverlaps(e, dX, dY, obstacles[1..])
  }

  /** `canMove`: the move is allowed exactly when it stays in the world and
      overlaps no obstacle; with no obstacles only the bounds matter. */
  function CanMove(e: Rect, dX: real, dY: real, obstacles: seq<Rect>, worldWidth: real, worldHeight: real): (ok: bool)
    ensures ok <==> InWorld(e, dX, dY, worldWidth, worldHeight) &&
                    forall o :: o in obstacles ==> !OverlapsAfterMove(e, dX, dY, o)
    ensures !InWorld(e, dX, dY, worldWidth, worldHeight) ==> !ok
    ensures obstacles == [] ==> (ok <==> InWorld(e, dX, dY, worldWidth, worldHeight))
  {
    if e.left + dX < 0.0 || e.right + dX > worldWidth || e.top + dY < 0.0 || e.bottom + dY > worldHeight then
      false
    else
      !SomeOverlaps(e, dX, dY, obstacles)
  }

  /** Moving up to an obstacle's left face is allowed here: an element whose
      moved right edge lands exactly on the obstacle's left edge is not
      blocked, although the collision pass of the position resolver counts the
      same contact as touching. */
  lemma EdgeContactIsNotBlocked(e: Rect, dX: real, dY: real, o: Rect, worldWidth: real, worldHeight: real)
    requires e.right + dX == o.left
    ensures CanMove(e, dX, dY, [o], worldWidth, worldHeight) == InWorld(e, dX, dY, worldWidth, worldHeight)
  {
  }

  class World {
    var isRunning: bool
    var keyPressed: seq<Key>
    const mainEntity: EntityModel.Entity

    ghost predicate Valid()
      reads this, mainEntity
    {
      OrderedSet.Distinct(keyPressed) && mainEntity.Valid()
    }

    constructor (mainEntity: EntityModel.Entity)
      requires mainEntity.Valid()
      ensures Valid() && this.mainEntity == mainEntity
      ensures !isRunning && keyPressed == []
    {
      this.mainEntity := mainEntity;
      isRunning := false;
      keyPressed := [];
    }

    /** `start`: set the running flag and request the first frame. */
    method Start(frame: int) returns (id: int)
      modifies this`isRunning
      ensures isRunning && id == frame
    {
      isRunning := true;
      id := frame;
    }

    /** `stop`: clear the running flag. */
    method Stop()
      modifies this`isRunning
      ensures !isRunning
    {
      isRunning := false;
    }

    /** `tick`: when stopped, return -1 and touch nothing; otherwise tick the
        entity with the pressed keys and request the next frame. World.ts gives
        the entity no position resolver, so the caller supplies one. */
    method Tick(frame: int, resolve: (ElementRect, real, real) -> Position) returns (id: int)
      requires Valid()
      modifies mainEntity`state, mainEntity`mirrored, mainEntity`src, mainEntity`yAcc,
               mainEntity`left, mainEntity`top
      ensures Valid()
      ensures !isRunning ==> id == -1 && unchanged(mainEntity)
      ensures isRunning ==> id == frame
      ensures isRunning ==>
                mainEntity.state == EntityModel.SelectState(old(mainEntity.yAcc), EntityModel.KeyStates(keyPressed))
      ensures isRunning ==>
                (EntityModel.Motion(mainEntity.left, mainEntity.top, mainEntity.yAcc)
                 == EntityModel.MoveOutcome(old(mainEntity.ElementBox()), old(mainEntity.yAcc), mainEntity.yAccDisabled,
                                            mainEntity.speed, EntityModel.KeyStates(keyPressed), resolve))
    {
      if !isRunning {
        return -1;
      }
      mainEntity.Tick(keyPressed, resolve);
      id := frame;
    }

    /** `handleKeyDown`. */
    method HandleKeyDown(name: string)
      requires Valid()
      modifies this`keyPressed
      ensures Valid()
      ensures keyPressed == PressedKeys.Press(old(keyPressed), KeyOf(name))
    {
      match KeyOf(name)
      case Some(k) =>
        keyPressed := OrderedSet.Add(keyPressed, k);
      case None =>
        return;
    }

    /** `handleKeyUp`. */
    method HandleKeyUp(name: string)
      requires Valid()
      modifies this`keyPressed
      ensures Valid()
      ensures keyPressed == PressedKeys.Release(old(keyPressed), KeyOf(name))
    {
      match KeyOf(name)
      case Some(k) =>
        OrderedSet.DeleteDistinct(keyPressed, k);
        keyPressed := OrderedSet.Delete(keyPressed, k);
      case None =>
        return;
    }
  }
}
