/** The controllable entity (Entity.ts): its state machine, its gravity
    accumulator and its movement, without the image element it draws into.
    The element is kept only as what the entity writes to it: the position,
    the sprite source and whether the sprite is mirrored. */
module EntityModel {
  import opened WorldTypes
  import opened StateMap
  import OrderedSet

  /** `KEY_ACTION_MAP`: up climbs, left and right run, and down maps to idle. */
  function KeyAction(k: Key): (s: State)
    ensures s == MoveUp <==> k == Up
    ensures s == MoveLeft <==> k == Left
    ensures s == MoveRight <==> k == Right
    ensures s == State.Idle <==> k == Down
  {
    match k
    case Up => MoveUp
    case Down => State.Idle
    case Left => MoveLeft
    case Right => MoveRight
  }

  /** The action states of the pressed keys, in the keys' order. Because the
      key map is one-to-one, distinct keys give distinct states, so building a
      `Set` of them drops nothing. */
  function KeyStates(keys: seq<Key>): (r: seq<State>)
    ensures |r| == |keys|
    ensures forall i :: 0 <= i < |keys| ==> r[i] == KeyAction(keys[i])
    ensures OrderedSet.Distinct(keys) ==> OrderedSet.Distinct(r)
  {
    seq(|keys|, i requires 0 <= i < |keys| => KeyAction(keys[i]))
  }

  /** The priority order of `setState`. */
  const StatePriority: seq<State> := [MoveUp, State.Fall, MoveLeft, MoveRight, State.Idle]

  /** `priority.some(...)`: the index of the first state of the priority list
      that is present, or the list's length when none is. */
  function FirstPresent(priority: seq<State>, states: seq<State>): (k: nat)
    ensures k <= |priority|
    ensures k < |priority| ==> priority[k] in states
    ensures forall j :: 0 <= j < k ==> priority[j] !in states
  {
    if priority == [] then 0
    else if priority[0] in states then 0
    else 1 + FirstPresent(priority[1..], states)
  }

  /** `setState`'s choice. A nonzero accumulator means falling unless up is
      held, whatever else is held; otherwise the first present state of
      up, fall, left, right wins, and idle is the default. */
  function SelectState(yAcc: real, states: seq<State>): (r: State)
    ensures MoveUp in states ==> r == MoveUp
    ensures MoveUp !in states && yAcc != 0.0 ==> r == State.Fall
    ensures MoveUp !in states && yAcc == 0.0 ==>
              r == if State.Fall in states then State.Fall
                   else if MoveLeft in states then MoveLeft
                   else if MoveRight in states then MoveRight
                   else State.Idle
  {
    if yAcc != 0.0 && MoveUp !in states then State.Fall
    else if |states| == 0 then State.Idle
    else
      var k := FirstPresent(StatePriority, states);
      assert k > 1 ==> StatePriority[1] !in states;
      assert k > 2 ==> StatePriority[2] !in states;
      assert k > 3 ==> StatePriority[3] !in states;
      if k < |StatePriority| then StatePriority[k] else State.Idle
  }

  /** The horizontal delta the `forEach` in `move` leaves: the last left or
      right state in iteration order decides, and there is none without them. */
  function HorizontalDelta(states: seq<State>, speed: real): (dX: real)
    ensures dX == 0.0 || dX == speed || dX == -speed
    ensures MoveLeft !in states && MoveRight !in states ==> dX == 0.0
    ensures dX == -speed && speed != 0.0 ==> MoveLeft in states
    ensures dX == speed && speed != 0.0 ==> MoveRight in states
  {
    if states == [] then 0.0
    else
      match states[|states| - 1]
      case MoveLeft => -speed
      case MoveRight => speed
      case _ => HorizontalDelta(states[..|states| - 1], speed)
  }

  /** When several horizontal states are present, the one iterated last wins. */
  lemma {:induction false} LaterHorizontalWins(states: seq<State>, speed: real, i: nat)
    requires i < |states| && (states[i] == MoveLeft || states[i] == MoveRight)
    requires forall j :: i < j < |states| ==> states[j] != MoveLeft && states[j] != MoveRight
    ensures HorizontalDelta(states, speed) == if states[i] == MoveLeft then -speed else speed
  {
    if i < |states| - 1 {
      var prefix := states[..|states| - 1];
      assert forall j :: i < j < |prefix| ==> prefix[j] == states[j];
      LaterHorizontalWins(prefix, speed, i);
    }
  }

  /** With left and right both held, the key pressed later decides the
      direction, since the pressed keys are iterated in insertion order. */
  lemma LaterKeyWins(keys: seq<Key>, speed: real, i: nat, j: nat)
    requires OrderedSet.Distinct(keys)
    requires i < j < |keys| && {keys[i], keys[j]} == {Left, Right}
    ensures HorizontalDelta(KeyStates(keys), speed) == if keys[j] == Left then -speed else speed
  {
    var states := KeyStates(keys);
    forall k | j < k < |states| ensures states[k] != MoveLeft && states[k] != MoveRight {
      assert keys[k] != keys[i] && keys[k] != keys[j];
    }
    LaterHorizontalWins(states, speed, j);
  }

  /** The vertical delta: climbing at `speed` when up is held, otherwise
      falling by the accumulator's magnitude. */
  function VerticalDelta(states: seq<State>, speed: real, yAcc: real): (dY: real)
    ensures MoveUp in states ==> dY == -speed
    ensures MoveUp !in states && -10.0 <= yAcc <= 0.0 ==> 0.0 <= dY <= 10.0 && dY == -yAcc
  {
    if MoveUp in states then -speed else -yAcc
  }

  function Max(a: real, b: real): (m: real)
    ensures m >= a && m >= b && (m == a || m == b)
  {
    if a >= b then a else b
  }

  /** The gravity step at the start of `move`: lower the accumulator by 0.2
      down to a floor of -10, or hold it at 0 while gravity is disabled. */
  function NextYAcc(yAcc: real, yAccDisabled: bool): (r: real)
    ensures yAccDisabled ==> r == 0.0
    ensures !yAccDisabled ==> r >= -10.0 && r >= yAcc - 0.2 && (r == -10.0 || r == yAcc - 0.2)
    ensures -10.0 <= yAcc <= 0.0 ==> -10.0 <= r <= 0.0
  {
    if !yAccDisabled then Max(yAcc - 0.2, -10.0) else 0.0
  }

  /** The accumulator after n gravity steps from rest. */
  function FreeFall(n: nat): real
  {
    if n == 0 then 0.0 else NextYAcc(FreeFall(n - 1), false)
  }

  /** Falling from rest, the accumulator drops by exactly 0.2 per step until it
      reaches the floor of -10 after 50 steps, and stays there. */
  lemma {:induction false} FreeFallValue(n: nat)
    ensures FreeFall(n) == if n <= 50 then -(n as real) / 5.0 else -10.0
  {
    if n > 0 {
      FreeFallValue(n - 1);
    }
  }

  /** The outcome of `move`: the new corner and accumulator. */
  datatype Motion = Motion(left: real, top: real, yAcc: real)

  /** What `move` does, as a function of the entity's box, accumulator, gravity
      flag and speed, the action states and the resolver. */
  function MoveOutcome(box: ElementRect, yAcc: real, yAccDisabled: bool, speed: real,
                       states: seq<State>, resolve: (ElementRect, real, real) -> Position): Motion
  {
    var acc := NextYAcc(yAcc, yAccDisabled);
    var p := resolve(box, HorizontalDelta(states, speed), VerticalDelta(states, speed, acc));
    Motion(p.left, p.top, if MoveUp in states || p.top == box.top then 0.0 else acc)
  }

  /** A move keeps the accumulator within [-10, 0], puts the entity exactly where
      the resolver says, and clears the accumulator when the entity climbs or
      when its top did not change (it landed or was blocked). */
  lemma MoveOutcomeProperties(box: ElementRect, yAcc: real, yAccDisabled: bool, speed: real,
                              states: seq<State>, resolve: (ElementRect, real, real) -> Position)
    requires -10.0 <= yAcc <= 0.0
    ensures var m := MoveOutcome(box, yAcc, yAccDisabled, speed, states, resolve);
            var p := resolve(box, HorizontalDelta(states, speed),
                             VerticalDelta(states, speed, NextYAcc(yAcc, yAccDisabled)));
            && -10.0 <= m.yAcc <= 0.0
            && m.left == p.left && m.top == p.top
            && (MoveUp in states || m.top == box.top ==> m.yAcc == 0.0)
            && (MoveUp !in states && m.top != box.top ==> m.yAcc == NextYAcc(yAcc, yAccDisabled))
            && (yAccDisabled ==> m.yAcc == 0.0)
  {
  }

  /** A resolver that lets every move through. */
  function Unobstructed(box: ElementRect, dX: real, dY: real): Position
  {
    Position(box.left + dX, box.top + dY)
  }

  /** With no keys held, gravity on and nothing in the way, the accumulator
      after n + 1 moves from rest is the free-fall value: each move goes down,
      so no landing clears it. */
  lemma UnobstructedFall(box: ElementRect, n: nat, speed: real)
    ensures MoveOutcome(box, FreeFall(n), false, speed, [], Unobstructed).yAcc == FreeFall(n + 1)
  {
  }

  /** Construction parameters of an entity. */
  datatype EntityConfig = EntityConfig(left: real, top: real, height: real, width: real, speed: real)

  /** The configuration used for every field the caller leaves out. */
  const DefaultConfig := EntityConfig(0.0, 0.0, 100.0, 100.0, 5.0)

  class Entity {
    var left: real
    var top: real
    const width: real
    const height: real
    const speed: real
    /** Vertical accumulator; negative while falling. */
    var yAcc: real
    var yAccDisabled: bool
    var state: State
    /** Whether the sprite is drawn mirrored (`scaleX(-1)`); the initial, empty
        transform draws like `scaleX(1)`. */
    var mirrored: bool
    /** The sprite image source written to the element. */
    var src: string
    const spriteMap: map<SpriteState, string>

    ghost predicate Valid()
      reads this
    {
      -10.0 <= yAcc <= 0.0
    }

    /** The element's box in document coordinates. */
    function ElementBox(): ElementRect
      reads this
    {
      BoxAt(left, top, width, height)
    }

    /** The image source for a sprite state, empty when the map has none. */
    function SpriteSource(sprite: SpriteState): string
    {
      if sprite in spriteMap then spriteMap[sprite] else ""
    }

    constructor (spriteMap: map<SpriteState, string>, config: EntityConfig)
      ensures Valid()
      ensures this.spriteMap == spriteMap
      ensures left == config.left && top == config.top
      ensures width == config.width && height == config.height && speed == config.speed
      ensures yAcc == 0.0 && !yAccDisabled && state == State.Idle && !mirrored
      ensures src == SpriteSource(SpriteState.Idle)
    {
      this.spriteMap := spriteMap;
      width, height, speed := config.width, config.height, config.speed;
      yAcc, yAccDisabled := 0.0, false;
      state, mirrored, src := State.Idle, false, "";
      left, top := config.left, config.top;
      new;
      SetState([State.Idle]);
      SetStateSprite(State.Idle);
    }

    method SetLeft(x: real)
      modifies this`left
      ensures left == x
    {
      left := x;
    }

    method SetTop(y: real)
      modifies this`top
      ensures top == y
    {
      top := y;
    }

    /** `toggleGravity`: gravity is disabled exactly when `on` is false. */
    method ToggleGravity(on: bool)
      modifies this`yAccDisabled
      ensures yAccDisabled == !on
    {
      yAccDisabled := !on;
    }

    /** `setStateSprite`: choose the sprite of the state; moving left mirrors
        the sprite, moving right unmirrors it, other states keep the direction. */
    method SetStateSprite(s: State)
      modifies this`mirrored, this`src
      ensures src == SpriteSource(StateToSprite(s))
      ensures mirrored == if s == MoveLeft then true else if s == MoveRight then false else old(mirrored)
    {
      var stateSprite := StateToSprite(s);
      if s == MoveLeft {
        mirrored := true;
      } else if s == MoveRight {
        mirrored := false;
      }
      src := SpriteSource(stateSprite);
    }

    /** `setState`: the state becomes the prioritised choice; sprite and
        direction are rewritten only when the state changes. */
    method SetState(states: seq<State>)
      modifies this`state, this`mirrored, this`src
      ensures state == SelectState(yAcc, states)
      ensures state == old(state) ==> mirrored == old(mirrored) && src == old(src)
      ensures state != old(state) ==>
                src == SpriteSource(StateToSprite(state)) &&
                mirrored == if state == MoveLeft then true else if state == MoveRight then false else old(mirrored)
    {
      var newState := SelectState(yAcc, states);
      if state != newState {
        state := newState;
        SetStateSprite(newState);
      }
    }

    /** `move`: apply gravity, turn the action states into a delta (the loop
        over the states), ask the resolver for the new corner, take it, and
        clear the accumulator if the top did not change. */
    method Move(states: seq<State>, resolve: (ElementRect, real, real) -> Position)
      requires Valid()
      modifies this`yAcc, this`left, this`top
      ensures Valid()
      ensures Motion(left, top, yAcc) == MoveOutcome(old(ElementBox()), old(yAcc), yAccDisabled, speed, states, resolve)
    {
      var acc := NextYAcc(yAcc, yAccDisabled);
      ghost var acc0 := acc;
      var dX := 0.0;
      var dY := -acc;
      var i := 0;
      while i < |states|
        invariant 0 <= i <= |states|
        invariant dX == HorizontalDelta(states[..i], speed)
        invariant MoveUp in states[..i] ==> dY == -speed && acc == 0.0
        invariant MoveUp !in states[..i] ==> dY == -acc0 && acc == acc0
      {
        assert states[..i + 1][..i] == states[..i];
        assert states[..i + 1] == states[..i] + [states[i]];
        match states[i] {
          case MoveLeft =>
            dX := -speed;
          case MoveRight =>
            dX := speed;
          case MoveUp =>
            dY := -speed;
            acc := 0.0;
          case _ =>
        }
        i := i + 1;
      }
      assert states[..i] == states;
      var p := resolve(ElementBox(), dX, dY);
      if top == p.top {
        acc := 0.0;
      }
      yAcc := acc;
      SetLeft(p.left);
      SetTop(p.top);
    }

    /** `tick`: map the pressed keys to action states, choose the state from the
        accumulator as the previous tick left it, then move. */
    method Tick(keys: seq<Key>, resolve: (ElementRect, real, real) -> Position)
      requires Valid() && OrderedSet.Distinct(keys)
      modifies this`state, this`mirrored, this`src, this`yAcc, this`left, this`top
      ensures Valid()
      ensures state == SelectState(old(yAcc), KeyStates(keys))
      ensures state == old(state) ==> mirrored == old(mirrored) && src == old(src)
      ensures state != old(state) ==>
                src == SpriteSource(StateToSprite(state)) &&
                mirrored == if state == MoveLeft then true else if state == MoveRight then false else old(mirrored)
      ensures Motion(left, top, yAcc)
           == MoveOutcome(old(ElementBox()), old(yAcc), yAccDisabled, speed, KeyStates(keys), resolve)
    {
      var keyStates := KeyStates(keys);
      SetState(keyStates);
      Move(keyStates, resolve);
    }
  }

  /** Five unobstructed ticks of a fresh entity with no keys held leave the
      accumulator at -0.2, -0.4, -0.6, -0.8 and -1.0. */
  method FiveFreeTicks() returns (accs: seq<real>)
    ensures accs == [-0.2, -0.4, -0.6, -0.8, -1.0]
  {
    var entity := new Entity(map[], DefaultConfig);
    accs := [];
    var n := 0;
    while n < 5
      invariant 0 <= n <= 5 && entity.Valid()
      invariant entity.yAcc == FreeFall(n) && !entity.yAccDisabled
      invariant |accs| == n && forall k :: 0 <= k < n ==> accs[k] == FreeFall(k + 1)
    {
      UnobstructedFall(entity.ElementBox(), n, entity.speed);
      entity.Tick([], Unobstructed);
      accs := accs + [entity.yAcc];
      n := n + 1;
    }
    FreeFallValue(1); FreeFallValue(2); FreeFallValue(3); FreeFallValue(4); FreeFallValue(5);
  }
}
