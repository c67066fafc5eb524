/**
 * The widget launcher: three buttons that each start one widget script as a detached
 * child process, and a tray presence whose close request hides instead of quitting.
 * The filesystem check and the process spawn are not performed: whether the script
 * exists is an input, and the processes started and the console lines printed are
 * recorded in the launcher's state.
 */
module Launcher {
  import opened Tray
  import PosixPath

  /** The launcher's three buttons. */
  datatype WidgetButton = WeatherButton | TimeButton | MusicButton

  /** The script each button starts. */
  function ScriptFor(b: WidgetButton): (script: string)
    ensures script in {"weather.py", "clock.py", "mplayer.py"}
  {
    match b
    case WeatherButton => "weather.py"
    case TimeButton => "clock.py"
    case MusicButton => "mplayer.py"
  }

  /** Different buttons start different scripts. */
  lemma ButtonsStartDistinctScripts(b1: WidgetButton, b2: WidgetButton)
    ensures ScriptFor(b1) == ScriptFor(b2) <==> b1 == b2
  {
  }

  const HiddenNotice := Notification("Widget Launcher", "Launcher minimized to system tray.")

  /** What `launch_widget` does: start `[interpreter, path]`, or print an error line. */
  datatype LaunchOutcome = Spawn(argv: seq<string>) | Report(message: string)

  /**
   * The script path is the script name joined onto the launcher's own directory; the
   * widget is started iff that path exists, and otherwise the error names the script.
   */
  function LaunchDecision(interpreter: string, scriptDir: string, name: string, found: bool): (o: LaunchOutcome)
    ensures o.Spawn? <==> found
    ensures o.Spawn? ==> o.argv == [interpreter, PosixPath.Join(scriptDir, name)]
    ensures o.Report? ==> o.message == "Error: " + name + " not found"
  {
    var path := PosixPath.Join(scriptDir, name);
    if found then Spawn([interpreter, path]) else Report("Error: " + name + " not found")
  }

  /** A button whose script exists starts `interpreter <dir>/<script>` and nothing else. */
  lemma ButtonStartsItsScript(interpreter: string, scriptDir: string, b: WidgetButton)
    requires scriptDir != [] && scriptDir[|scriptDir| - 1] != '/'
    ensures LaunchDecision(interpreter, scriptDir, ScriptFor(b), true)
         == Spawn([interpreter, scriptDir + "/" + ScriptFor(b)])
    ensures PosixPath.Basename(LaunchDecision(interpreter, scriptDir, ScriptFor(b), true).argv[1]) == ScriptFor(b)
  {
    PosixPath.JoinInsertsSeparator(scriptDir, ScriptFor(b));
  }

  class WidgetLauncher {
    /** `sys.executable`. */
    const interpreter: string
    /** The directory holding the launcher's own script. */
    const scriptDir: string
    var visibility: Visibility
    var trayIconShown: bool
    var notifications: seq<Notification>
    /** The command lines of the child processes started so far. */
    var spawned: seq<seq<string>>
    /** The lines printed to the console so far. */
    var console: seq<string>

    /** The launcher as built and shown, with its tray icon visible. */
    constructor (interpreter: string, scriptDir: string)
      ensures this.interpreter == interpreter && this.scriptDir == scriptDir
      ensures visibility == Visible && trayIconShown
      ensures notifications == [] && spawned == [] && console == []
    {
      this.interpreter := interpreter;
      this.scriptDir := scriptDir;
      visibility := Visible;
      trayIconShown := true;
      notifications := [];
      spawned := [];
      console := [];
    }

    /** `found` is whether the resolved script path exists. */
    method LaunchWidget(name: string, found: bool)
      requires visibility != Exited
      modifies this
      ensures match LaunchDecision(interpreter, scriptDir, name, found)
              case Spawn(argv) => spawned == old(spawned) + [argv] && console == old(console)
              case Report(line) => spawned == old(spawned) && console == old(console) + [line]
      ensures visibility == old(visibility) && trayIconShown == old(trayIconShown)
      ensures notifications == old(notifications)
    {
      var scriptPath := PosixPath.Join(scriptDir, name);
      if found {
        spawned := spawned + [[interpreter, scriptPath]];
      } else {
        console := console + ["Error: " + name + " not found"];
      }
    }

    /** A click on one of the three buttons. */
    method ButtonClicked(b: WidgetButton, found: bool)
      requires visibility != Exited
      modifies this
      ensures match LaunchDecision(interpreter, scriptDir, ScriptFor(b), found)
              case Spawn(argv) => spawned == old(spawned) + [argv] && console == old(console)
              case Report(line) => spawned == old(spawned) && console == old(console) + [line]
      ensures visibility == old(visibility) && trayIconShown == old(trayIconShown)
      ensures notifications == old(notifications)
    {
      LaunchWidget(ScriptFor(b), found);
    }

    /** A close request is refused: the window hides, a notification shows, the process runs on. */
    method CloseEvent() returns (accepted: bool)
      requires visibility != Exited
      modifies this
      ensures !accepted
      ensures visibility == Step(old(visibility), HideRequested)
      ensures notifications == old(notifications) + [HiddenNotice]
      ensures trayIconShown == old(trayIconShown) && spawned == old(spawned) && console == old(console)
    {
      accepted := false;
      visibility := Hidden;
      notifications := notifications + [HiddenNotice];
    }

    method TrayIconClicked(reason: ActivationReason)
      requires visibility != Exited
      modifies this
      ensures visibility == Step(old(visibility), Activated(reason))
      ensures trayIconShown == old(trayIconShown) && notifications == old(notifications)
      ensures spawned == old(spawned) && console == old(console)
    {
      if reason == Trigger {
        visibility := Visible;
      }
    }

    /** The tray menu's "Open Launcher" action. */
    method OpenLauncher()
      requires visibility != Exited
      modifies this
      ensures visibility == Step(old(visibility), ShowChosen)
      ensures trayIconShown == old(trayIconShown) && notifications == old(notifications)
      ensures spawned == old(spawned) && console == old(console)
    {
      visibility := Visible;
    }

    /** The tray menu's "Exit" action: hide the tray icon, then quit. */
    method ExitApplication()
      requires visibility != Exited
      modifies this
      ensures visibility == Step(old(visibility), ExitChosen)
      ensures !trayIconShown
      ensures notifications == old(notifications) && spawned == old(spawned) && console == old(console)
    {
      trayIconShown := false;
      visibility := Exited;
    }
  }
}
