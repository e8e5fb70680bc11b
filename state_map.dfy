/** The entity's states, the sprite states, and the table choosing a sprite
    for every entity state (state.ts). */
module StateMap {

  /** States of an entity. */
  datatype State = Idle | Fall | MoveLeft | MoveRight | MoveUp | MoveDown

  /** States of a sprite. */
  datatype SpriteState = Climb | Fall | Idle | Run | Sit | WallGrab

  /** The string value of each state of an entity. */
  function StateName(s: State): string
  {
    match s
    case Idle => "idle"
    case Fall => "fall"
    case MoveLeft => "move-left"
    case MoveRight => "move-right"
    case MoveUp => "move-up"
    case MoveDown => "move-down"
  }

  /** The string value of each sprite state. */
  function SpriteStateName(s: SpriteState): string
  {
    match s
    case Climb => "climb"
    case Fall => "fall"
    case Idle => "idle"
    case Run => "run"
    case Sit => "sit"
    case WallGrab => "wallgrab"
  }

  /** `StateToSpriteMap`: running for both horizontal moves, climbing for both
      vertical moves, idle and fall for themselves; sitting and wall-grabbing
      are never chosen. */
  function StateToSprite(s: State): (r: SpriteState)
    ensures r == SpriteState.Run <==> s == MoveLeft || s == MoveRight
    ensures r == SpriteState.Climb <==> s == MoveUp || s == MoveDown
    ensures r == SpriteState.Idle <==> s == State.Idle
    ensures r == SpriteState.Fall <==> s == State.Fall
    ensures r != Sit && r != WallGrab
  {
    match s
    case Idle => SpriteState.Idle
    case Fall => SpriteState.Fall
    case MoveLeft => Run
    case MoveRight => Run
    case MoveUp => Climb
    case MoveDown => Climb
  }

  /** The state names are pairwise different, so the enum is a faithful
      encoding of the six string values. */
  lemma StateNamesDistinct(a: State, b: State)
    requires a != b
    ensures StateName(a) != StateName(b)
  {
  }
}
