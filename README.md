# Desktop widgets: a Dafny model of their logic

The desktop-widgets repository has four small PyQt5 programs:

- a widget launcher;
- a transparent music player built on VLC;
- a weather widget;
- a clock.

Under the window plumbing, each program holds a little state that its event handlers update. This project models that state and proves what the handlers do to it:

- **Drag to move.** The clock and the weather widget use an *offset anchor*. A left press stores `pointer - topLeft`. A move sets `topLeft := pointer - anchor`. A left release clears the anchor. The clock moves only when the held buttons are exactly Left; the weather widget moves whenever Left is among them. The music player uses an *incremental delta*. A left press stores the pointer. Each move shifts the window by the pointer's travel and stores the new pointer. Nothing ever clears the stored position (modules `OffsetDrag`, `DeltaDrag`, `Clock`, and the drag handlers of `Weather` and `MusicPlayer`).
- **The music player's display.** This covers the track name, the play/pause icon, the `mm:ss / mm:ss` readout, the progress bar, the position timer and the blink animation, and how load, play/pause, stop and the periodic position update change them (modules `PlaybackText`, `PosixPath`, `PlayerDisplay`, `MusicPlayer`).
- **The weather widget's fetch logic.** It falls back to London when geolocation fails. It builds the request URL once. A reply either becomes the condition and temperature labels, or collapses to "Error fetching weather" (module `Weather`).
- **The tray presence** shared by the launcher and the player. A window is Visible, Hidden or Exited. Only a `Trigger` activation or the "show" menu action brings it back. Exit is terminal (module `Tray`).
- **The launcher.** Its three buttons map to `weather.py`, `clock.py` and `mplayer.py`. It starts a script as a child process if the script is found beside the launcher, and otherwise prints an error. A close request hides the launcher instead of quitting (module `Launcher`).

Each program's window is a `class` whose fields are the state its handlers update. Each handler method states its new state as a function of the old one (`State() == Move(old(State()), ...)`). The lemmas about those functions carry the properties.

Modelling decisions:

- **QPoint truthiness.** The player's move guard is `if self.old_pos:`. A PyQt `QPoint` is false exactly when it is null, that is at (0, 0). The model takes this literally: a stored position at the screen origin freezes the drag (`DeltaDrag.Truthy`). The telescoping lemma therefore asks that the pointer avoid the origin before its last move.
- **The progress bar.** A `QProgressBar` starts with value -1 and ignores `setValue` outside its range 0..100 (`PlayerDisplay.SetBarValue`). So a reading past the end of the track leaves the bar where it was.
- **Integer arithmetic.** `int(ms / 1000)` truncates toward zero (`PlaybackText.TruncDiv`). Python's `//` and `%` by 60 agree with Dafny's Euclidean operators, because the divisor is positive.
- **Window position.** The windows are frameless, so `frameGeometry().topLeft()` and `pos()` are one point, `topLeft`.
- **Quitting.** Once the application has quit, the event loop delivers nothing more. The handler methods of the player and the launcher therefore require `visibility != Exited`.
- **Paths.** Paths are POSIX: `os.path.basename` splits at the last `/`, and `os.path.splitext` leaves a leading-dot name such as `.bashrc` without an extension.
- **Inputs.** The outside world comes in as parameters:
  - the media backend's answers (`is_playing`, `get_time`, `get_length`);
  - the file picker's path;
  - HTTP outcomes (`GeoReply`, `WeatherReply`);
  - the API key read from the environment;
  - whether a script exists.

  What the programs ask of the outside world is returned or recorded: the backend call (`BackendCall`), the spawned command lines, the printed lines and the tray notifications.

## Model

| member | source | states |
|---|---|---|
| OffsetDrag.Follows | clock.py:62 | both move guards demand Left, and both accept a drag with Left alone |
| OffsetDrag.Press | clock.py:56-59 | a left press records the anchor so that `topLeft + anchor == pointer`; any other button changes nothing |
| OffsetDrag.Move | weather.py:90-93 | with an anchor and a guard that accepts the held buttons, the new corner plus the anchor is the pointer; otherwise nothing changes; the anchor is kept |
| OffsetDrag.Release | weather.py:95-98 | a left release clears the anchor and keeps the corner; other buttons change nothing |
| OffsetDrag.MovesFollowPointer | clock.py:61-65 | during a drag, any run of accepted moves keeps the anchor and leaves the corner at the last pointer minus the anchor |
| OffsetDrag.DragTranslatesByPointerTravel | weather.py:85-93 | a left press at g0 and then accepted moves ending at gn move the window by exactly gn - g0, with no clamping |
| OffsetDrag.DragBackRestores | clock.py:56-65 | dragging back to the press point puts the window where it was |
| OffsetDrag.UnanchoredMovesDoNothing | clock.py:49-65 | with no anchor (at start or after a release), no sequence of moves changes the state |
| OffsetDrag.ReleaseEndsDrag | clock.py:67-69 | after a left release, later moves leave the state as the release left it |
| OffsetDrag.GuardsDifferOnChords | clock.py:62 | Left held with another button moves the weather widget but not the clock; whatever the clock's guard accepts, the weather's accepts too |
| Clock.ClockWindow.constructor | clock.py:48-49 | the clock starts at its initial corner with no anchor |
| Clock.ClockWindow.MousePress | clock.py:56-59 | the press handler updates anchor and corner exactly as `OffsetDrag.Press` |
| Clock.ClockWindow.MouseMove | clock.py:61-65 | the move handler updates the state exactly as `OffsetDrag.Move` with the exact-Left guard |
| Clock.ClockWindow.MouseRelease | clock.py:67-69 | the release handler updates the state exactly as `OffsetDrag.Release` |
| DeltaDrag.Truthy | mplayer.py:171 | the stored position counts as true exactly when it is set and not the screen origin |
| DeltaDrag.Press | mplayer.py:166-168 | a left press stores the pointer position and keeps the window position; other buttons change nothing |
| DeltaDrag.Move | mplayer.py:170-174 | with a truthy stored position, the window moves by the pointer's travel since it and the new pointer is stored; otherwise nothing changes |
| DeltaDrag.DeltasTelescope | mplayer.py:170-174 | moves from a truthy stored position g0 that end at gn shift the window by gn - g0 and store gn, provided the pointer avoids the origin before its last move |
| DeltaDrag.DragTranslatesByPointerTravel | mplayer.py:166-174 | a left press at a non-origin g0 and then moves ending at gn move the window by gn - g0, with no clamping |
| DeltaDrag.FalsyAnchorFreezes | mplayer.py:170-171 | with the stored position unset or at the origin, no sequence of moves changes anything |
| DeltaDrag.AnchorNeverCleared | mplayer.py:164-174 | once a position is stored, no event sequence clears it, because a release has no handler |
| Tray.Step | launcher.py:90-106 | the state is Exited iff it was already Exited or the event is the exit action; from a live state, a restoring event shows the window and a hide request hides it; only a restoring event makes a window visible; non-Trigger activations change nothing |
| Tray.ExitIsTerminal | launcher.py:104-106 | no event sequence after exit brings the window back |
| Tray.OnlyRestoringEventsShow | mplayer.py:227-229 | a window that is not visible becomes visible only if some event was a Trigger activation or the show action |
| Tray.NonTriggerActivationsIgnored | launcher.py:100-102 | any sequence of non-Trigger activations leaves the visibility as it was |
| PosixPath.LastIndexOf | mplayer.py:181 | returns -1 iff the character is absent; otherwise an index holding the character with none after it |
| PosixPath.Basename | mplayer.py:181 | the base name is a `/`-free suffix of the path, preceded by a `/` when it is shorter than the path |
| PosixPath.BasenameAfterSlash | mplayer.py:181 | a `/`-free name after a `/` is the base name, whatever the directory |
| PosixPath.SplitExtRoot | mplayer.py:181 | the root is a prefix of the name, and either the whole name or the name cut at a dot after which no dot follows; it is the whole name exactly when every dot has only dots before it (`..mp3`, `.bashrc`, no dot at all) |
| PosixPath.SplitAtLastDot | mplayer.py:181 | `base.ext`, with no dot in `ext` and a non-dot in `base`, has root `base` |
| PosixPath.Stem | mplayer.py:181 | the name the player shows is a prefix of the base name and holds no `/` |
| PosixPath.StemDropsExtension | mplayer.py:181 | for `dir/base.ext` with `base` not all dots and `ext` free of dots, the stem is `base` |
| PosixPath.StemKeepsLeadingDots | mplayer.py:181 | a file whose dots all lead its name (`/m/..mp3`) keeps its whole name as stem |
| PosixPath.StemKeepsDotfile | mplayer.py:181 | for `dir/.rest` with no dot in `rest`, the stem is `.rest` (a leading dot starts no extension) |
| PosixPath.Join | launcher.py:67 | an absolute second part replaces the first; otherwise the result starts with the first part and ends with the second, and is their plain concatenation when the first is empty or ends in `/` (a launcher in `/` starts `/clock.py`) |
| PosixPath.JoinInsertsSeparator | launcher.py:67 | joining a relative name onto a directory that does not end in `/` puts exactly one `/` between them, and a `/`-free name is the result's base name |
| PlaybackText.TruncDiv | mplayer.py:215-216 | the quotient truncated toward zero: in [0, a/b] for a >= 0, and in [a/b, 0] for a < 0 |
| PlaybackText.Seconds | mplayer.py:215-216 | whole seconds truncated toward zero: `s*1000 <= ms < s*1000+1000` for non-negative readings, and symmetrically for negative ones |
| PlaybackText.TwoDigits | mplayer.py:218-221 | two decimal digits whose value is the number, zero padded |
| PlaybackText.ClockText | mplayer.py:218-221 | five characters with a colon in the middle |
| PlaybackText.ParseClock | mplayer.py:218-221 | the inverse reading of an `mm:ss` text yields seconds below one hour |
| PlaybackText.HourSplit | mplayer.py:218 | the minutes `(s // 60) % 60` and seconds `s % 60` shown are those of `s mod 3600` |
| PlaybackText.ClockTextReadsBack | mplayer.py:218-221 | the `mm:ss` text of s reads back as s mod 3600: minutes wrap at 60 |
| PlaybackText.ClockTextSameIff | mplayer.py:218-221 | two readings show the same text iff they agree modulo one hour |
| PlaybackText.ClockTextWrapsHour | mplayer.py:218-221 | a reading of an hour more shows the same text, so 3600 s shows as `00:00` |
| PlaybackText.SubSecondReadingsShowZero | mplayer.py:215-218 | a reading between -999 and 999 ms is 0 s and shows `00:00` |
| PlaybackText.DurationText | mplayer.py:221 | thirteen characters: the elapsed `mm:ss`, then ` / `, then the total `mm:ss` |
| PlaybackText.DurationTextReadsBack | mplayer.py:218-221 | the duration label reads back as elapsed and total seconds modulo one hour |
| PlaybackText.ZeroDurationIsZeroReading | mplayer.py:183 | the reset text `00:00 / 00:00` is the label of a zero reading |
| PlaybackText.Percent | mplayer.py:223-225 | the percentage truncated toward zero: `p*total <= 100*cur < p*total+total` for non-negative elapsed time and the mirrored bound for negative, within 0..100 when 0 <= cur <= total, and 100 at the end |
| PlayerDisplay.SetBarValue | mplayer.py:225 | a value in 0..100 is taken and any other value leaves the bar as it was |
| PlayerDisplay.Initial | mplayer.py:57-82 | the start-up display: "No Music Loaded", zero readout, play icon, a hidden bar at value -1, no timer, no blinking; it satisfies the display invariant |
| PlayerDisplay.Load | mplayer.py:176-189 | an empty path changes nothing; otherwise it shows the stem, the play icon, the zero readout and a visible bar at 0, leaves timer and blinking alone, and keeps the invariant |
| PlayerDisplay.Toggle | mplayer.py:191-201 | while playing: play icon and blinking on, timer untouched; otherwise pause icon, blinking off and timer running; nothing else changes; keeps the invariant |
| PlayerDisplay.Stop | mplayer.py:203-212 | whatever came before: "No Music Loaded", play icon, zero readout, bar at 0 and hidden, timer stopped, blinking off |
| PlayerDisplay.Tick | mplayer.py:214-225 | the label shows both readings; the bar is untouched when the total is under one second, else it is set to the percentage if in range; it lies in 0..100 when 0 <= elapsed <= total; nothing else changes; keeps the invariant |
| PlayerDisplay.StopForgetsHistory | mplayer.py:203-212 | stop gives the same display from any display, and stopping twice is stopping once |
| PlayerDisplay.StopUndoesLoad | mplayer.py:176-212 | a stop after a load is a stop alone |
| PlayerDisplay.TicksTouchOnlyReadout | mplayer.py:214-225 | any number of ticks rewrite only the label and the bar, and keep the invariant |
| PlayerDisplay.ShortMediaKeepsProgress | mplayer.py:223 | while the backend reports a length under one second, ticks never move the bar |
| PlayerDisplay.EmptyMediaKeepsBarAtZero | mplayer.py:184-223 | after loading a file whose length reads under one second, the bar stays at 0 however often the timer fires |
| PlayerDisplay.TickShowsReadings | mplayer.py:215-221 | after a tick the label reads back as the truncated elapsed and total seconds modulo one hour |
| MusicPlayer.Player.constructor | mplayer.py:16 | the player starts with the initial display at (100, 100), no stored drag position, visible and with no notifications |
| MusicPlayer.Player.MousePress | mplayer.py:166-168 | the drag state changes exactly as `DeltaDrag.Press`; nothing else changes |
| MusicPlayer.Player.MouseMove | mplayer.py:170-174 | the drag state changes exactly as `DeltaDrag.Move`; nothing else changes |
| MusicPlayer.Player.LoadMusic | mplayer.py:176-189 | the display changes as `PlayerDisplay.Load`; a non-empty path is sent to the backend to load and prime, an empty one sends nothing; the invariant is kept |
| MusicPlayer.Player.TogglePlayPause | mplayer.py:191-201 | the display changes as `PlayerDisplay.Toggle`; the backend is told to pause iff it was playing, else to play |
| MusicPlayer.Player.StopMusic | mplayer.py:203-212 | the display changes as `PlayerDisplay.Stop`; the backend is told to stop |
| MusicPlayer.Player.UpdatePosition | mplayer.py:214-225 | the display changes as `PlayerDisplay.Tick` on the two readings; drag and tray state are untouched |
| MusicPlayer.Player.TrayIconActivated | mplayer.py:227-230 | visibility follows `Tray.Step` for the activation: only `Trigger` shows the window |
| MusicPlayer.Player.HideToTray | mplayer.py:232-239 | the window hides and exactly one notification with the player's title and message is added |
| MusicPlayer.Player.ShowAction | mplayer.py:157-158 | the tray menu's Show action makes the window visible |
| MusicPlayer.Player.ExitAction | mplayer.py:159-160 | the tray menu's Exit action quits |
| Weather.UserCity | weather.py:13-23 | the reported city on status 200 when the field is present, `None` when it is present as null; London on a missing field, a non-200 status or an exception |
| Weather.KeyText | weather.py:30 | a set key renders as itself and an unset one as `None` |
| Weather.ApiUrl | weather.py:29-30 | the URL starts with the weather endpoint and contains `q=<city>`, `appid=<key>` (`None` when unset) and `units=metric` |
| Weather.NullCityQueriesNone | weather.py:18-30 | a geolocation answer whose city is null puts `q=None` into the request URL |
| Weather.UrlOnCarriesQuery | weather.py:30 | the query parts occur in the URL built on any endpoint |
| Weather.TemperatureText | weather.py:82 | the rendered temperature followed by `°C` |
| Weather.Fetch | weather.py:66-83 | a complete reply sets the temperature to `<temp>°C` and the description to the condition text, to an empty text for a JSON null, or to the error text when the label refuses the value; every earlier failure sets the error text and leaves the temperature |
| Weather.FetchIdempotent | weather.py:66-83 | polling again with the same reply changes nothing more |
| Weather.TemperatureOfLastCompleteReply | weather.py:61-83 | after any sequence of polls, the temperature shown is that of the last complete reply, or the old text if there was none |
| Weather.WeatherWidget.constructor | weather.py:27-34 | the city is looked up once and the URL fixed from it; the labels are those of "Loading..." after the first poll; no anchor |
| Weather.WeatherWidget.GetWeather | weather.py:66-79 | one poll requests the fixed URL and changes the labels as `Fetch`; the drag state is untouched |
| Weather.WeatherWidget.UpdateUi | weather.py:81-83 | sets the temperature text, then the description: the text itself, an empty text for a null, or unchanged and reported as refused for any other value |
| Weather.WeatherWidget.MousePress | weather.py:85-88 | the drag state changes exactly as `OffsetDrag.Press`; the labels are untouched |
| Weather.WeatherWidget.MouseMove | weather.py:90-93 | the drag state changes exactly as `OffsetDrag.Move` with the Left-among guard |
| Weather.WeatherWidget.MouseRelease | weather.py:95-98 | the drag state changes exactly as `OffsetDrag.Release` |
| Launcher.ScriptFor | launcher.py:35-37 | each button starts one of `weather.py`, `clock.py`, `mplayer.py` |
| Launcher.ButtonsStartDistinctScripts | launcher.py:35-37 | two buttons start the same script iff they are the same button |
| Launcher.LaunchDecision | launcher.py:66-71 | a process is started iff the script was found, with the interpreter and the joined path; otherwise the error names the script |
| Launcher.ButtonStartsItsScript | launcher.py:63-69 | a found script is started as `interpreter <dir>/<script>`, and the started path's base name is the script |
| Launcher.WidgetLauncher.constructor | launcher.py:12-18 | the launcher starts visible with its tray icon shown, and has started nothing and printed nothing |
| Launcher.WidgetLauncher.LaunchWidget | launcher.py:66-71 | per `LaunchDecision`, exactly one command line is appended to the started processes, or exactly one line to the console |
| Launcher.WidgetLauncher.ButtonClicked | launcher.py:63 | a button click launches that button's script |
| Launcher.WidgetLauncher.CloseEvent | launcher.py:90-98 | a close request is refused; the window hides and one notification is added; the process runs on |
| Launcher.WidgetLauncher.TrayIconClicked | launcher.py:100-102 | visibility follows `Tray.Step`: only `Trigger` shows the window |
| Launcher.WidgetLauncher.OpenLauncher | launcher.py:78-79 | the "Open Launcher" action shows the window from either live state |
| Launcher.WidgetLauncher.ExitApplication | launcher.py:104-106 | the tray icon is hidden and the application quits |

## Left out

- Widget construction, layouts, stylesheets, fonts, icons, window flags and opacity are toolkit configuration with no logic.
- `clock.py`'s `update_time` formats the current date through `QDateTime`, and the clock's own tray menu has no handler logic. Neither is modelled. `tests/possible_solution.py` is an unreferenced snippet and is not part of this model.
- The VLC backend is not modelled. Loading is a request to load, play and pause again. The 100 ms single-shot pause is asynchronous timing, so the model treats a loaded file as paused.
- The blink animation's opacity values (0.3 to 1.0 over time) are left out. Blinking is a boolean, and `setOpacity(1.0)` is not recorded.
- PlaybackText.Percent: computes `trunc(cur * 100 / total)` exactly. The source computes `int((cur / total) * 100)` in floating point, which can land one lower: for 29 of 100 seconds it gives 28.
- The temperature is taken as its already rendered text. Python's float `repr` is not modelled.
- Python's `print` of error details (geolocation, weather API, network) is left out. Only the launcher's "not found" line is recorded, because that line is the launcher's whole error report.
- Weather.UserCity: a `city` value that is neither text nor null (a number, a list) is taken as its already rendered text. How Python renders it is not modelled.
- Weather.Fetch: a condition that is neither text nor null (a number, a boolean, a list) is one `NotText` case, and a non-dictionary body is `Malformed`. Which exception is raised is not distinguished, because all of them end in the same error text. A JSON null is its own case: PyQt5 takes `None` as an empty text, so the label is emptied and nothing is raised.
- HTTP requests, `.env` loading, `subprocess.Popen`, `os.path.exists`, `os.path.abspath` and the file dialog are I/O. Their results are inputs, and the launcher's directory is a constant of the object.
- Windows path separators are not modelled. Paths are POSIX.
- The timer periods (1000 ms, 600000 ms), the timers themselves and the event loop are left out. A timer firing is a call of `UpdatePosition` or `GetWeather`, and the player records only whether its timer runs.
- `activateWindow()` gives focus and does not change visibility, so it is left out. `event.accept()` only stops propagation to the parent, so it is left out too.
- The `total_duration` field set on load is never read, so it is left out.
- Qt's 32-bit integer coordinates and the 64-bit VLC millisecond readings are unbounded integers here, so overflow is not modelled.
- The player's window has no close handler of its own. A close there follows Qt's default behaviour, which is not modelled.
