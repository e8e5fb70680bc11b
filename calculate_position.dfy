/** The position resolver (calculate-position.ts): a collision pass that vetoes
    each axis of a proposed move separately, and a boundary pass that clamps
    each axis into the world box. Obstacles arrive as plain rectangles already
    in document coordinates. */
module CalculatePosition {
  import opened WorldTypes

  /* ---------------------------- collision pass ---------------------------- */

  /** The element moved by (dX, dY) touches the obstacle: the closed-interval
      test, so sharing an edge counts as touching. */
  predicate Touches(e: ElementRect, dX: real, dY: real, o: Rect)
  {
    !(e.left + dX > o.right || e.right + dX < o.left ||
      e.top + dY > o.bottom || e.bottom + dY < o.top)
  }

  /** The obstacles the moved element touches, in their original order. */
  function CollidingObstacles(e: ElementRect, dX: real, dY: real, obstacles: seq<Rect>): (r: seq<Rect>)
    ensures forall o :: o in r <==> o in obstacles && Touches(e, dX, dY, o)
    ensures |r| <= |obstacles|
  {
    if obstacles == [] then []
    else
      var rest := CollidingObstacles(e, dX, dY, obstacles[1..]);
      if Touches(e, dX, dY, obstacles[0]) then [obstacles[0]] + rest else rest
  }

  /** The obstacle overlaps the CURRENT element vertically (open intervals), and
      the horizontal part of the move would leave the two overlapping
      horizontally (open intervals). */
  predicate BlocksHorizontally(e: ElementRect, dX: real, o: Rect)
  {
    var isOutsideVertically := e.top >= o.bottom || e.bottom <= o.top;
    !isOutsideVertically && !(e.left + dX >= o.right || e.right + dX <= o.left)
  }

  /** The symmetric test for the vertical part of the move. */
  predicate BlocksVertically(e: ElementRect, dY: real, o: Rect)
  {
    var isOutsideHorizontally := e.left >= o.right || e.right <= o.left;
    !isOutsideHorizontally && !(e.top + dY >= o.bottom || e.bottom + dY <= o.top)
  }

  /** `colliding.some(...)` with the horizontal test. */
  function SomeBlocksHorizontally(e: ElementRect, dX: real, colliding: seq<Rect>): (b: bool)
    ensures b <==> exists o :: o in colliding && BlocksHorizontally(e, dX, o)
  {
    if colliding == [] then false
    else BlocksHorizontally(e, dX, colliding[0]) || SomeBlocksHorizontally(e, dX, colliding[1..])
  }

  /** `colliding.some(...)` with the vertical test. */
  function SomeBlocksVertically(e: ElementRect, dY: real, colliding: seq<Rect>): (b: bool)
    ensures b <==> exists o :: o in colliding && BlocksVertically(e, dY, o)
  {
    if colliding == [] then false
    else BlocksVertically(e, dY, colliding[0]) || SomeBlocksVertically(e, dY, colliding[1..])
  }

  /** Reference definition of a horizontal veto, over the whole obstacle set:
      some obstacle is touched by the moved element and blocks horizontally. */
  ghost predicate HorizontallyVetoed(e: ElementRect, dX: real, dY: real, obstacles: seq<Rect>)
  {
    exists o :: o in obstacles && Touches(e, dX, dY, o) && BlocksHorizontally(e, dX, o)
  }

  /** Reference definition of a vertical veto. */
  ghost predicate VerticallyVetoed(e: ElementRect, dX: real, dY: real, obstacles: seq<Rect>)
  {
    exists o :: o in obstacles && Touches(e, dX, dY, o) && BlocksVertically(e, dY, o)
  }

  /** `calculatePositionWithCollision`: each axis moves by its whole delta or
      not at all, decided independently by the vetoes; when nothing is touched
      the move is taken as proposed, and a zero move stays put. */
  function CalculatePositionWithCollision(e: ElementRect, dX: real, dY: real, obstacles: seq<Rect>): (p: Position)
    ensures p.left == if HorizontallyVetoed(e, dX, dY, obstacles) then e.left else e.left + dX
    ensures p.top == if VerticallyVetoed(e, dX, dY, obstacles) then e.top else e.top + dY
    ensures (forall o :: o in obstacles ==> !Touches(e, dX, dY, o)) ==> p == Position(e.left + dX, e.top + dY)
    ensures dX == 0.0 && dY == 0.0 ==> p == Position(e.left, e.top)
  {
    var colliding := CollidingObstacles(e, dX, dY, obstacles);
    if |colliding| > 0 then
      var willCollideHorizontally := SomeBlocksHorizontally(e, dX, colliding);
      var willCollideVertically := SomeBlocksVertically(e, dY, colliding);
      Position(e.left + (if willCollideHorizontally then 0.0 else dX),
               e.top + (if willCollideVertically then 0.0 else dY))
    else
      Position(e.left + dX, e.top + dY)
  }

  /** An obstacle lying wholly above or below the current element never vetoes
      horizontal motion: adding it leaves the resulting left unchanged. */
  lemma OutsideVerticallyNeverVetoesHorizontal(e: ElementRect, dX: real, dY: real, obstacles: seq<Rect>, o: Rect)
    requires e.top >= o.bottom || e.bottom <= o.top
    ensures CalculatePositionWithCollision(e, dX, dY, obstacles + [o]).left
         == CalculatePositionWithCollision(e, dX, dY, obstacles).left
  {
  }

  /** An obstacle lying wholly left or right of the current element never
      vetoes vertical motion. */
  lemma OutsideHorizontallyNeverVetoesVertical(e: ElementRect, dX: real, dY: real, obstacles: seq<Rect>, o: Rect)
    requires e.left >= o.right || e.right <= o.left
    ensures CalculatePositionWithCollision(e, dX, dY, obstacles + [o]).top
         == CalculatePositionWithCollision(e, dX, dY, obstacles).top
  {
  }

  /** The order of the obstacles does not matter: any permutation gives the
      same position. */
  lemma ObstacleOrderIrrelevant(e: ElementRect, dX: real, dY: real, a: seq<Rect>, b: seq<Rect>)
    requires multiset(a) == multiset(b)
    ensures CalculatePositionWithCollision(e, dX, dY, a) == CalculatePositionWithCollision(e, dX, dY, b)
  {
    assert forall o :: o in a <==> o in b by {
      forall o ensures o in a <==> o in b {
        assert o in a <==> o in multiset(a);
        assert o in b <==> o in multiset(b);
      }
    }
  }

  /** More obstacles can only add vetoes: every axis vetoed for a set of
      obstacles stays vetoed for any superset, so on each axis the result for
      the larger set is either the one for the smaller set or the blocked one. */
  lemma MoreObstaclesOnlyAddVetoes(e: ElementRect, dX: real, dY: real, small: seq<Rect>, large: seq<Rect>)
    requires forall o :: o in small ==> o in large
    ensures HorizontallyVetoed(e, dX, dY, small) ==> HorizontallyVetoed(e, dX, dY, large)
    ensures VerticallyVetoed(e, dX, dY, small) ==> VerticallyVetoed(e, dX, dY, large)
    ensures var p, q := CalculatePositionWithCollision(e, dX, dY, small), CalculatePositionWithCollision(e, dX, dY, large);
            (q.left == p.left || q.left == e.left) && (q.top == p.top || q.top == e.top)
  {
  }

  /** The two boxes share interior points (open intervals on both axes). */
  predicate Overlaps(e: ElementRect, o: Rect)
  {
    e.left < o.right && e.right > o.left && e.top < o.bottom && e.bottom > o.top
  }

  /** The element's box with its top-left corner moved to p. */
  function MovedTo(e: ElementRect, p: Position): (m: ElementRect)
    ensures m.right - m.left == e.right - e.left && m.bottom - m.top == e.bottom - e.top
    ensures m.left == p.left && m.top == p.top
  {
    ElementRect(p.left, e.right + (p.left - e.left), p.top, e.bottom + (p.top - e.top), e.width, e.height)
  }

  /** A purely horizontal move never carries the element into an obstacle it
      was not already overlapping. */
  lemma HorizontalMoveNeverPenetrates(e: ElementRect, dX: real, obstacles: seq<Rect>, o: Rect)
    requires o in obstacles && !Overlaps(e, o)
    ensures !Overlaps(MovedTo(e, CalculatePositionWithCollision(e, dX, 0.0, obstacles)), o)
  {
  }

  /** A purely vertical move never carries the element into an obstacle it was
      not already overlapping. */
  lemma VerticalMoveNeverPenetrates(e: ElementRect, dY: real, obstacles: seq<Rect>, o: Rect)
    requires o in obstacles && !Overlaps(e, o)
    ensures !Overlaps(MovedTo(e, CalculatePositionWithCollision(e, 0.0, dY, obstacles)), o)
  {
  }

  /** A diagonal move towards an obstacle's corner is vetoed on neither axis,
      because the obstacle is outside the current element on both axes: the
      element at (0, 0) of size 10 x 10 moved by (5, 5) ends up overlapping the
      obstacle spanning (12, 12) to (22, 22). */
  lemma DiagonalMoveCanEnterAtCorner()
    ensures var e := BoxAt(0.0, 0.0, 10.0, 10.0);
            var o := Rect(12.0, 22.0, 12.0, 22.0);
            var p := CalculatePositionWithCollision(e, 5.0, 5.0, [o]);
            p == Position(5.0, 5.0) && !Overlaps(e, o) && Overlaps(MovedTo(e, p), o)
  {
  }

  /** An element at (0, 0) of size 50 x 50 pushed right by 10 against an
      obstacle spanning (40, 0) to (100, 50) stays where it is. */
  lemma PushIntoWallStaysPut()
    ensures CalculatePositionWithCollision(BoxAt(0.0, 0.0, 50.0, 50.0), 10.0, 0.0,
                                           [Rect(40.0, 100.0, 0.0, 50.0)]) == Position(0.0, 0.0)
  {
  }

  /* ----------------------------- boundary pass ---------------------------- */

  /** The coordinate x of a box of the given size lies within [0, limit]. */
  predicate InsideAxis(x: real, size: real, limit: real)
  {
    0.0 <= x && x + size <= limit
  }

  /** `calculatePositionWithWorldBoundary`: per axis, a position left of (above)
      0 goes to 0; otherwise one past the right (bottom) edge goes to the edge
      minus the size; a coordinate already inside is kept. The world's own left
      and top are not read: the lower bound is always 0. */
  function CalculatePositionWithWorldBoundary(world: WorldRect, e: ElementRect, p: Position): (q: Position)
    ensures q.left == p.left <==> InsideAxis(p.left, e.width, world.right)
    ensures q.top == p.top <==> InsideAxis(p.top, e.height, world.bottom)
    ensures p.left < 0.0 ==> q.left == 0.0
    ensures 0.0 <= p.left && p.left + e.width > world.right ==> q.left == world.right - e.width
    ensures p.top < 0.0 ==> q.top == 0.0
    ensures 0.0 <= p.top && p.top + e.height > world.bottom ==> q.top == world.bottom - e.height
    ensures 0.0 <= e.width <= world.right ==> InsideAxis(q.left, e.width, world.right)
    ensures 0.0 <= e.height <= world.bottom ==> InsideAxis(q.top, e.height, world.bottom)
  {
    var isOutsideWorldLeft := p.left < 0.0;
    var isOutsideWorldRight := p.left + e.width > world.right;
    var isOutsideWorldTop := p.top < 0.0;
    var isOutsideWorldBottom := p.top + e.height > world.bottom;
    if isOutsideWorldLeft || isOutsideWorldRight || isOutsideWorldTop || isOutsideWorldBottom then
      var left := if isOutsideWorldLeft then 0.0
                  else if isOutsideWorldRight then world.right - e.width
                  else p.left;
      var top := if isOutsideWorldTop then 0.0
                 else if isOutsideWorldBottom then world.bottom - e.height
                 else p.top;
      Position(left, top)
    else
      p
  }

  /** Clamping is idempotent whenever the element fits in the world. */
  lemma BoundaryIdempotent(world: WorldRect, e: ElementRect, p: Position)
    requires 0.0 <= e.width <= world.right && 0.0 <= e.height <= world.bottom
    ensures var q := CalculatePositionWithWorldBoundary(world, e, p);
            CalculatePositionWithWorldBoundary(world, e, q) == q
  {
  }

  /** Without the fit it is not: an element 150 wide in a world 100 wide at
      left -5 is moved to 0, and then, being past the right edge, to -50. */
  lemma BoundaryNotIdempotentWhenTooWide()
    ensures var world, e := Rect(0.0, 100.0, 0.0, 100.0), BoxAt(0.0, 0.0, 150.0, 10.0);
            var q := CalculatePositionWithWorldBoundary(world, e, Position(-5.0, 0.0));
            q == Position(0.0, 0.0) && CalculatePositionWithWorldBoundary(world, e, q) == Position(-50.0, 0.0)
  {
  }
}
