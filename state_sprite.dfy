/** The table from entity states to sprite-name strings (State.ts). Its
    `State` enum has the same six members and string values as the one in
    state.ts, which this module reuses. */
module StateSprite {
  import opened StateMap

  /** `StateSprite`: 'run' for both horizontal moves, 'climb' for both
      vertical moves, 'idle' and 'fall' for themselves. */
  function StateSpriteName(s: State): (r: string)
    ensures r == "run" <==> s == MoveLeft || s == MoveRight
    ensures r == "climb" <==> s == MoveUp || s == MoveDown
    ensures r == "idle" <==> s == State.Idle
    ensures r == "fall" <==> s == State.Fall
  {
    match s
    case Idle => "idle"
    case Fall => "fall"
    case MoveLeft => "run"
    case MoveRight => "run"
    case MoveUp => "climb"
    case MoveDown => "climb"
  }

  /** The two tables agree: for every state, the string this table gives is
      the string value of the sprite state that `StateToSpriteMap` chooses. */
  lemma TablesAgree(s: State)
    ensures StateSpriteName(s) == SpriteStateName(StateToSprite(s))
  {
  }
}
