/**
 * The tray presence shared by the launcher and the music player. The window is shown or
 * hidden, or the application has quit. A hide request hides the window and leaves the
 * application running; a `Trigger` activation or the menu's show action brings the window
 * back; the exit action quits for good. Other activation reasons change nothing.
 */
module Tray {

  datatype Visibility = Visible | Hidden | Exited

  /** Why the tray icon was activated (`QSystemTrayIcon.ActivationReason`). */
  datatype ActivationReason = Unknown | Context | DoubleClick | Trigger | MiddleClick

  datatype TrayEvent =
    | Activated(reason: ActivationReason)  // the tray icon was clicked
    | HideRequested                        // the window's close request or hide-to-tray button
    | ShowChosen                           // the tray menu's show action
    | ExitChosen                           // the tray menu's exit action

  /** A tray balloon message (`showMessage(title, message, ...)`). */
  datatype Notification = Notification(title: string, message: string)

  /** The events that bring a hidden window back. */
  predicate Restores(e: TrayEvent) {
    e == Activated(Trigger) || e == ShowChosen
  }

  function Step(v: Visibility, e: TrayEvent): (r: Visibility)
    ensures r == Exited <==> v == Exited || e == ExitChosen
    ensures v != Exited && Restores(e) ==> r == Visible
    ensures v != Exited && e == HideRequested ==> r == Hidden
    ensures r == Visible && v != Visible ==> Restores(e)
    ensures e.Activated? && e.reason != Trigger ==> r == v
  {
    if v == Exited then Exited
    else
      match e
      case Activated(reason) => if reason == Trigger then Visible else v
      case HideRequested => Hidden
      case ShowChosen => Visible
      case ExitChosen => Exited
  }

  function Run(v: Visibility, es: seq<TrayEvent>): Visibility
    decreases |es|
  {
    if es == [] then v else Run(Step(v, es[0]), es[1..])
  }

  /** Exit is terminal: nothing after it brings the window back. */
  lemma {:induction false} ExitIsTerminal(es: seq<TrayEvent>)
    ensures Run(Exited, es) == Exited
    decreases |es|
  {
    if es != [] {
      ExitIsTerminal(es[1..]);
    }
  }

  /** A hidden window comes back only through a `Trigger` activation or the show action. */
  lemma {:induction false} OnlyRestoringEventsShow(v: Visibility, es: seq<TrayEvent>)
    requires v != Visible
    requires Run(v, es) == Visible
    ensures exists i :: 0 <= i < |es| && Restores(es[i])
    decreases |es|
  {
    if es == [] {
      assert false;
    } else if !Restores(es[0]) {
      var v1 := Step(v, es[0]);
      OnlyRestoringEventsShow(v1, es[1..]);
      var i :| 0 <= i < |es[1..]| && Restores(es[1..][i]);
      assert es[i + 1] == es[1..][i];
    }
  }

  /** Activations other than `Trigger` (double click, context menu, middle click) are ignored. */
  lemma {:induction false} NonTriggerActivationsIgnored(v: Visibility, es: seq<TrayEvent>)
    requires forall i :: 0 <= i < |es| ==> es[i].Activated? && es[i].reason != Trigger
    ensures Run(v, es) == v
    decreases |es|
  {
    if es != [] {
      var rest := es[1..];
      assert forall i :: 0 <= i < |rest| ==> rest[i].Activated? && rest[i].reason != Trigger by {
        forall i | 0 <= i < |rest| ensures rest[i] == es[i + 1] { }
      }
      NonTriggerActivationsIgnored(Step(v, es[0]), rest);
    }
  }
}
