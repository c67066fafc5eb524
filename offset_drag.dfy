/**
 * The offset-anchor drag controller of the clock and weather widgets.
 * A left press records the offset from the window's top-left corner to the pointer;
 * while the anchor is set and the move guard accepts the held buttons, every move
 * places the top-left corner at `pointer - offset`; a left release clears the anchor.
 * The two widgets differ only in their move guard.
 */
module OffsetDrag {
  import opened Geometry
  import opened Optional

  /**
   * The move guard: the clock demands that the held buttons are exactly Left
   * (`event.buttons() == Qt.LeftButton`), the weather widget only that Left is among
   * them (`event.buttons() & Qt.LeftButton`).
   */
  datatype MoveGuard = ExactlyLeft | LeftAmong

  /** Both guards demand Left, and both accept a drag with Left alone. */
  predicate Follows(guard: MoveGuard, held: set<MouseButton>)
    ensures Follows(guard, held) ==> LeftButton in held
    ensures held == {LeftButton} ==> Follows(guard, held)
  {
    match guard
    case ExactlyLeft => held == {LeftButton}
    case LeftAmong => LeftButton in held
  }

  /** The controller's state: the optional anchor offset and the window's top-left corner. */
  datatype Drag = Drag(anchor: Option<Point>, topLeft: Point)

  function Press(d: Drag, button: MouseButton, global: Point): (r: Drag)
    ensures r.topLeft == d.topLeft
    ensures button == LeftButton ==> r.anchor.Some? && d.topLeft.Plus(r.anchor.value) == global
    ensures button != LeftButton ==> r == d
  {
    if button == LeftButton then d.(anchor := Some(global.Minus(d.topLeft))) else d
  }

  function Move(guard: MoveGuard, d: Drag, held: set<MouseButton>, global: Point): (r: Drag)
    ensures r.anchor == d.anchor
    ensures d.anchor.Some? && Follows(guard, held) ==> r.topLeft.Plus(d.anchor.value) == global
    ensures !(d.anchor.Some? && Follows(guard, held)) ==> r == d
  {
    if d.anchor.Some? && Follows(guard, held) then d.(topLeft := global.Minus(d.anchor.value)) else d
  }

  function Release(d: Drag, button: MouseButton): (r: Drag)
    ensures r.topLeft == d.topLeft
    ensures button == LeftButton ==> r.anchor == None
    ensures button != LeftButton ==> r == d
  {
    if button == LeftButton then d.(anchor := None) else d
  }

  function Apply(guard: MoveGuard, d: Drag, e: MouseEvent): Drag {
    match e
    case Pressed(b, g) => Press(d, b, g)
    case Moved(h, g) => Move(guard, d, h, g)
    case Released(b, _) => Release(d, b)
  }

  /** The state after delivering the events of `es` in order. */
  function Replay(guard: MoveGuard, d: Drag, es: seq<MouseEvent>): Drag
    decreases |es|
  {
    if es == [] then d else Replay(guard, Apply(guard, d, es[0]), es[1..])
  }

  /** True when every event of `es` is a move whose held buttons the guard accepts. */
  predicate AcceptedMoves(guard: MoveGuard, es: seq<MouseEvent>) {
    forall i :: 0 <= i < |es| ==> es[i].Moved? && Follows(guard, es[i].held)
  }

  /** During a drag the anchor stays put and the window follows the last pointer position. */
  lemma {:induction false} MovesFollowPointer(guard: MoveGuard, d: Drag, es: seq<MouseEvent>)
    requires d.anchor.Some? && es != [] && AcceptedMoves(guard, es)
    ensures Replay(guard, d, es).anchor == d.anchor
    ensures Replay(guard, d, es).topLeft == es[|es| - 1].global.Minus(d.anchor.value)
    decreases |es|
  {
    var d1 := Apply(guard, d, es[0]);
    if |es| > 1 {
      assert AcceptedMoves(guard, es[1..]) by {
        forall i | 0 <= i < |es[1..]| ensures es[1..][i].Moved? && Follows(guard, es[1..][i].held) {
          assert es[1..][i] == es[i + 1];
        }
      }
      MovesFollowPointer(guard, d1, es[1..]);
      assert es[1..][|es[1..]| - 1] == es[|es| - 1];
    }
  }

  /**
   * A left press at `g0` followed by accepted moves ending at `gn` leaves the window
   * at its old top-left corner plus `gn - g0`: the drag is purely additive, with no
   * clamping to the screen.
   */
  lemma DragTranslatesByPointerTravel(guard: MoveGuard, d: Drag, g0: Point, es: seq<MouseEvent>)
    requires es != [] && AcceptedMoves(guard, es)
    ensures Replay(guard, d, [Pressed(LeftButton, g0)] + es).topLeft
         == d.topLeft.Plus(es[|es| - 1].global.Minus(g0))
  {
    var pressed := Press(d, LeftButton, g0);
    assert ([Pressed(LeftButton, g0)] + es)[1..] == es;
    MovesFollowPointer(guard, pressed, es);
  }

  /** Dragging back to the press point puts the window back where it was. */
  lemma DragBackRestores(guard: MoveGuard, d: Drag, g0: Point, es: seq<MouseEvent>)
    requires es != [] && AcceptedMoves(guard, es) && es[|es| - 1].global == g0
    ensures Replay(guard, d, [Pressed(LeftButton, g0)] + es).topLeft == d.topLeft
  {
    DragTranslatesByPointerTravel(guard, d, g0, es);
  }

  /** With no anchor (before any press, or after a left release) moves never move the window. */
  lemma {:induction false} UnanchoredMovesDoNothing(guard: MoveGuard, d: Drag, es: seq<MouseEvent>)
    requires d.anchor == None && AllMoves(es)
    ensures Replay(guard, d, es) == d
    decreases |es|
  {
    if es != [] {
      assert AllMoves(es[1..]) by {
        forall i | 0 <= i < |es[1..]| ensures es[1..][i].Moved? {
          assert es[1..][i] == es[i + 1];
        }
      }
      UnanchoredMovesDoNothing(guard, d, es[1..]);
    }
  }

  /** A left release ends the drag: no later move changes the state. */
  lemma ReleaseEndsDrag(guard: MoveGuard, d: Drag, g: Point, es: seq<MouseEvent>)
    requires AllMoves(es)
    ensures Replay(guard, d, [Released(LeftButton, g)] + es) == Release(d, LeftButton)
  {
    assert ([Released(LeftButton, g)] + es)[1..] == es;
    UnanchoredMovesDoNothing(guard, Release(d, LeftButton), es);
  }

  /**
   * Holding Left together with another button stops the clock's drag but not the
   * weather widget's, and whatever the clock's guard accepts the weather's accepts too.
   */
  lemma GuardsDifferOnChords(d: Drag, held: set<MouseButton>, g: Point)
    requires d.anchor.Some? && LeftButton in held && held != {LeftButton}
    ensures Move(ExactlyLeft, d, held, g) == d
    ensures Move(LeftAmong, d, held, g).topLeft == g.Minus(d.anchor.value)
    ensures forall h :: Follows(ExactlyLeft, h) ==> Follows(LeftAmong, h)
  {
  }
}
