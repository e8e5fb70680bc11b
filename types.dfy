/** Shapes shared by the world drivers, the position resolver and the entity
    (the type declarations of the world modules). Coordinates are document
    coordinates and are modelled as exact reals. */
module WorldTypes {

  /** The abstract directional keys a world records as pressed. */
  datatype Key = Up | Down | Left | Right

  /** An axis-aligned box given by its four edges. */
  datatype Rect = Rect(left: real, right: real, top: real, bottom: real)

  /** The world box the entity is clamped to; its left and top are 0. */
  type WorldRect = Rect

  /** A measured element: its four edges plus its width and height. */
  datatype ElementRect = ElementRect(left: real, right: real, top: real, bottom: real,
                                     width: real, height: real)

  /** A top-left corner. */
  datatype Position = Position(left: real, top: real)

  datatype Option<T> = None | Some(value: T)

  /** The box an element of the given size occupies with its top-left corner at (left, top). */
  function BoxAt(left: real, top: real, width: real, height: real): (e: ElementRect)
    ensures e.right - e.left == e.width == width && e.bottom - e.top == e.height == height
    ensures e.left == left && e.top == top
  {
    ElementRect(left, left + width, top, top + height, width, height)
  }
}
