/**
 * The music player window: its display, its incremental drag controller and its tray
 * presence, as one object whose event handlers update its fields. The media backend
 * is not modelled; what the player asks of it is returned, and what it answers
 * (`is_playing`, `get_time`, `get_length`) is passed in.
 */
module MusicPlayer {
  import opened Geometry
  import opened Optional
  import opened Tray
  import opened PlaybackText
  import PosixPath
  import DeltaDrag
  import PlayerDisplay

  const HiddenNotice := Notification("Transparent Music Player",
                                     "The music player has been minimized to the system tray.")

  /** The requests the player makes of the media backend. */
  datatype BackendCall =
    | NoCall
    | LoadAndPrime(mrl: string)  // set the media, play, and pause again shortly after
    | Play
    | Pause
    | Halt

  class Player {
    var name: string
    var icon: PlayerDisplay.Icon
    var duration: string
    var progress: int
    var progressVisible: bool
    var timerRunning: bool
    var blinking: bool
    /** `self.old_pos`: the last pointer position the drag saw. */
    var oldPos: Option<Point>
    /** The window position. */
    var pos: Point
    var visibility: Visibility
    /** The tray notifications shown so far. */
    var notifications: seq<Notification>

    function View(): PlayerDisplay.Display
      reads this
    {
      PlayerDisplay.Display(name, icon, duration, progress, progressVisible, timerRunning, blinking)
    }

    function DragState(): DeltaDrag.Drag
      reads this
    {
      DeltaDrag.Drag(oldPos, pos)
    }

    ghost predicate Valid()
      reads this
    {
      PlayerDisplay.WellFormed(View())
    }

    /** The player as built and shown: nothing loaded, at (100, 100), visible. */
    constructor ()
      ensures Valid()
      ensures View() == PlayerDisplay.Initial()
      ensures DragState() == DeltaDrag.Drag(None, Point(100, 100))
      ensures visibility == Visible && notifications == []
    {
      name := PlayerDisplay.NoMusic;
      icon := PlayerDisplay.PlayIcon;
      duration := ZeroDuration;
      progress := -1;
      progressVisible := false;
      timerRunning := false;
      blinking := false;
      oldPos := None;
      pos := Point(100, 100);
      visibility := Visible;
      notifications := [];
    }

    method MousePress(button: MouseButton, global: Point)
      requires visibility != Exited
      modifies this
      ensures DragState() == DeltaDrag.Press(old(DragState()), button, global)
      ensures View() == old(View()) && visibility == old(visibility) && notifications == old(notifications)
    {
      if button == LeftButton {
        oldPos := Some(global);
      }
    }

    method MouseMove(global: Point)
      requires visibility != Exited
      modifies this
      ensures DragState() == DeltaDrag.Move(old(DragState()), global)
      ensures View() == old(View()) && visibility == old(visibility) && notifications == old(notifications)
    {
      if oldPos.Some? && !oldPos.value.IsNull() {
        var delta := global.Minus(oldPos.value);
        pos := pos.Plus(delta);
        oldPos := Some(global);
      }
    }

    /** `path` is what the file picker returned, `""` when it was cancelled. */
    method LoadMusic(path: string) returns (call: BackendCall)
      requires Valid() && visibility != Exited
      modifies this
      ensures Valid()
      ensures View() == PlayerDisplay.Load(old(View()), path)
      ensures call == if path == "" then NoCall else LoadAndPrime(path)
      ensures DragState() == old(DragState()) && visibility == old(visibility) && notifications == old(notifications)
    {
      call := NoCall;
      if path != "" {
        call := LoadAndPrime(path);
        name := PosixPath.Stem(path);
        icon := PlayerDisplay.PlayIcon;
        duration := ZeroDuration;
        progress := PlayerDisplay.SetBarValue(progress, 0);
        progressVisible := true;
      }
      assert View() == PlayerDisplay.Load(old(View()), path);
    }

    /** `playing` is the backend's answer to `is_playing()`. */
    method TogglePlayPause(playing: bool) returns (call: BackendCall)
      requires Valid() && visibility != Exited
      modifies this
      ensures Valid()
      ensures View() == PlayerDisplay.Toggle(old(View()), playing)
      ensures call == if playing then Pause else Play
      ensures DragState() == old(DragState()) && visibility == old(visibility) && notifications == old(notifications)
    {
      if playing {
        call := Pause;
        icon := PlayerDisplay.PlayIcon;
        blinking := true;
      } else {
        call := Play;
        icon := PlayerDisplay.PauseIcon;
        blinking := false;
        timerRunning := true;
      }
    }

    method StopMusic() returns (call: BackendCall)
      requires visibility != Exited
      modifies this
      ensures Valid()
      ensures View() == PlayerDisplay.Stop(old(View()))
      ensures call == Halt
      ensures DragState() == old(DragState()) && visibility == old(visibility) && notifications == old(notifications)
    {
      call := Halt;
      icon := PlayerDisplay.PlayIcon;
      name := PlayerDisplay.NoMusic;
      duration := ZeroDuration;
      progress := PlayerDisplay.SetBarValue(progress, 0);
      progressVisible := false;
      timerRunning := false;
      blinking := false;
    }

    /** The position timer's callback; `timeMs` and `lengthMs` are `get_time()` and `get_length()`. */
    method UpdatePosition(timeMs: int, lengthMs: int)
      requires Valid() && visibility != Exited
      modifies this
      ensures Valid()
      ensures View() == PlayerDisplay.Tick(old(View()), timeMs, lengthMs)
      ensures DragState() == old(DragState()) && visibility == old(visibility) && notifications == old(notifications)
    {
      var currentSec := Seconds(timeMs);
      var totalSec := Seconds(lengthMs);
      duration := ClockText(currentSec) + " / " + ClockText(totalSec);
      if totalSec > 0 {
        var value := Percent(currentSec, totalSec);
        progress := PlayerDisplay.SetBarValue(progress, value);
      }
    }

    method TrayIconActivated(reason: ActivationReason)
      requires visibility != Exited
      modifies this
      ensures visibility == Step(old(visibility), Activated(reason))
      ensures View() == old(View()) && DragState() == old(DragState()) && notifications == old(notifications)
    {
      if reason == Trigger {
        visibility := Visible;
      }
    }

    method HideToTray()
      requires visibility != Exited
      modifies this
      ensures visibility == Step(old(visibility), HideRequested)
      ensures notifications == old(notifications) + [HiddenNotice]
      ensures View() == old(View()) && DragState() == old(DragState())
    {
      visibility := Hidden;
      notifications := notifications + [HiddenNotice];
    }

    /** The tray menu's "Show" action. */
    method ShowAction()
      requires visibility != Exited
      modifies this
      ensures visibility == Step(old(visibility), ShowChosen)
      ensures View() == old(View()) && DragState() == old(DragState()) && notifications == old(notifications)
    {
      visibility := Visible;
    }

    /** The tray menu's "Exit" action quits the application; the tray icon is not hidden first. */
    method ExitAction()
      requires visibility != Exited
      modifies this
      ensures visibility == Step(old(visibility), ExitChosen)
      ensures View() == old(View()) && DragState() == old(DragState()) && notifications == old(notifications)
    {
      visibility := Exited;
    }
  }
}
