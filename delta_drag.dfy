/**
 * The music player's drag controller: the incremental-delta variant.
 * A left press stores the pointer position itself; each move shifts the window by the
 * pointer's travel since the stored position and stores the new position. There is no
 * release handler, so the stored position is never cleared.
 *
 * The move guard is Python truthiness of the stored value: `None` is false, and a
 * `QPoint` is false exactly when it is null, i.e. at the screen origin (0, 0).
 */
module DeltaDrag {
  import opened Geometry
  import opened Optional

  /** `self.old_pos` and the window position `pos()`. */
  datatype Drag = Drag(oldPos: Option<Point>, pos: Point)

  /** `bool(self.old_pos)`: unset is false, and a `QPoint` is false exactly at the screen origin. */
  predicate Truthy(p: Option<Point>)
    ensures Truthy(p) <==> p.Some? && p.value != Origin
  {
    p.Some? && !p.value.IsNull()
  }

  function Press(d: Drag, button: MouseButton, global: Point): (r: Drag)
    ensures r.pos == d.pos
    ensures button == LeftButton ==> r.oldPos == Some(global)
    ensures button != LeftButton ==> r == d
  {
    if button == LeftButton then d.(oldPos := Some(global)) else d
  }

  function Move(d: Drag, global: Point): (r: Drag)
    ensures Truthy(d.oldPos) ==> r.oldPos == Some(global) && r.pos.Minus(d.pos) == global.Minus(d.oldPos.value)
    ensures !Truthy(d.oldPos) ==> r == d
  {
    if Truthy(d.oldPos) then Drag(Some(global), d.pos.Plus(global.Minus(d.oldPos.value))) else d
  }

  /** Moves ignore which buttons are held; releases have no handler. */
  function Apply(d: Drag, e: MouseEvent): Drag {
    match e
    case Pressed(b, g) => Press(d, b, g)
    case Moved(_, g) => Move(d, g)
    case Released(_, _) => d
  }

  function Replay(d: Drag, es: seq<MouseEvent>): Drag
    decreases |es|
  {
    if es == [] then d else Replay(Apply(d, es[0]), es[1..])
  }

  /** No pointer position before the last one of `es` is the origin. */
  predicate AvoidsOriginBeforeLast(es: seq<MouseEvent>) {
    forall i :: 0 <= i < |es| - 1 ==> !es[i].global.IsNull()
  }

  /**
   * The per-move deltas telescope: from a truthy stored position `g0`, moves ending
   * at `gn` shift the window by `gn - g0` and leave `gn` stored, provided the pointer
   * does not pass through the origin on the way (a stored origin is falsy).
   */
  lemma {:induction false} DeltasTelescope(d: Drag, es: seq<MouseEvent>)
    requires Truthy(d.oldPos) && es != [] && AllMoves(es) && AvoidsOriginBeforeLast(es)
    ensures Replay(d, es).oldPos == Some(es[|es| - 1].global)
    ensures Replay(d, es).pos == d.pos.Plus(es[|es| - 1].global.Minus(d.oldPos.value))
    decreases |es|
  {
    var d1 := Apply(d, es[0]);
    if |es| > 1 {
      var rest := es[1..];
      assert AllMoves(rest) && AvoidsOriginBeforeLast(rest) by {
        forall i | 0 <= i < |rest| ensures rest[i] == es[i + 1] { }
      }
      assert !es[0].global.IsNull();
      DeltasTelescope(d1, rest);
      assert rest[|rest| - 1] == es[|es| - 1];
    }
  }

  /** A left press at a non-origin `g0` then moves ending at `gn` moves the window by `gn - g0`. */
  lemma DragTranslatesByPointerTravel(d: Drag, g0: Point, es: seq<MouseEvent>)
    requires !g0.IsNull() && es != [] && AllMoves(es) && AvoidsOriginBeforeLast(es)
    ensures Replay(d, [Pressed(LeftButton, g0)] + es).pos == d.pos.Plus(es[|es| - 1].global.Minus(g0))
  {
    assert ([Pressed(LeftButton, g0)] + es)[1..] == es;
    DeltasTelescope(Press(d, LeftButton, g0), es);
  }

  /** With the stored position unset or at the origin, no sequence of moves changes anything. */
  lemma {:induction false} FalsyAnchorFreezes(d: Drag, es: seq<MouseEvent>)
    requires !Truthy(d.oldPos) && AllMoves(es)
    ensures Replay(d, es) == d
    decreases |es|
  {
    if es != [] {
      var rest := es[1..];
      assert AllMoves(rest) by {
        forall i | 0 <= i < |rest| ensures rest[i] == es[i + 1] { }
      }
      FalsyAnchorFreezes(d, rest);
    }
  }

  /** Once a position is stored, no event sequence clears it: a release does nothing. */
  lemma {:induction false} AnchorNeverCleared(d: Drag, es: seq<MouseEvent>)
    requires d.oldPos.Some?
    ensures Replay(d, es).oldPos.Some?
    decreases |es|
  {
    if es != [] {
      AnchorNeverCleared(Apply(d, es[0]), es[1..]);
    }
  }
}
