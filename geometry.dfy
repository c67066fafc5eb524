/** Screen coordinates and pointer input, as the widgets' mouse handlers receive them. */
module Geometry {

  /** A point in global screen coordinates (a `QPoint`). */
  datatype Point = Point(x: int, y: int) {
    function Plus(o: Point): Point { Point(x + o.x, y + o.y) }
    function Minus(o: Point): Point { Point(x - o.x, y - o.y) }
    /** `QPoint.isNull()`: both coordinates are zero. */
    predicate IsNull() { x == 0 && y == 0 }
  }

  const Origin := Point(0, 0)

  /** The mouse buttons the toolkit reports. */
  datatype MouseButton = LeftButton | RightButton | MiddleButton | BackButton | ForwardButton

  /**
   * A mouse event delivered to a window: a press or a release names the one button
   * that changed (`event.button()`), a move names the buttons held (`event.buttons()`).
   * Every event carries the pointer's global position (`event.globalPos()`).
   */
  datatype MouseEvent =
    | Pressed(button: MouseButton, global: Point)
    | Moved(held: set<MouseButton>, global: Point)
    | Released(button: MouseButton, global: Point)

  /** True when every event of `es` is a move. */
  predicate AllMoves(es: seq<MouseEvent>) {
    forall i :: 0 <= i < |es| ==> es[i].Moved?
  }
}
