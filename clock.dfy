/** The clock widget's window as far as dragging goes: the exact-Left offset-anchor variant. */
module Clock {
  import opened Geometry
  import opened Optional
  import OffsetDrag

  const Guard := OffsetDrag.ExactlyLeft

  class ClockWindow {
    /** `self.old_pos`: the pointer's offset from the top-left corner while dragging. */
    var anchor: Option<Point>
    /** The window's top-left corner (`pos()`, equal to `frameGeometry().topLeft()` when frameless). */
    var topLeft: Point

    function State(): OffsetDrag.Drag
      reads this
    {
      OffsetDrag.Drag(anchor, topLeft)
    }

    /** A new window placed at `initial`; the anchor starts unset. */
    constructor (initial: Point)
      ensures State() == OffsetDrag.Drag(None, initial)
    {
      anchor := None;
      topLeft := initial;
    }

    method MousePress(button: MouseButton, global: Point)
      modifies this
      ensures State() == OffsetDrag.Press(old(State()), button, global)
    {
      if button == LeftButton {
        anchor := Some(global.Minus(topLeft));
      }
    }

    method MouseMove(held: set<MouseButton>, global: Point)
      modifies this
      ensures State() == OffsetDrag.Move(Guard, old(State()), held, global)
    {
      if held == {LeftButton} && anchor != None {
        topLeft := global.Minus(anchor.value);
      }
    }

    method MouseRelease(button: MouseButton)
      modifies this
      ensures State() == OffsetDrag.Release(old(State()), button)
    {
      if button == LeftButton {
        anchor := None;
      }
    }
  }
}
