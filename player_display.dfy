/**
 * What the music player shows: the track-name label, the play button's icon, the
 * duration label, the progress bar, the position timer and the blink animation, and
 * how loading, play/pause, stop and the periodic position update change them.
 * The media backend's answers (`is_playing`, `get_time`, `get_length`) are inputs.
 */
module PlayerDisplay {
  import opened Optional
  import opened PlaybackText
  import PosixPath

  /** The play button shows a play icon or a pause icon. */
  datatype Icon = PlayIcon | PauseIcon

  datatype Display = Display(
    name: string,           // the track-name label
    icon: Icon,             // the play button's icon
    duration: string,       // the `mm:ss / mm:ss` label
    progress: int,          // the progress bar's value
    progressVisible: bool,  // whether the progress bar is shown
    timerRunning: bool,     // whether the position timer fires
    blinking: bool)         // whether the track-name blink animation runs

  const NoMusic := "No Music Loaded"

  /**
   * The display as the player starts: nothing loaded, the zero readout, the play icon, a
   * hidden bar whose value is -1 ("no progress", a progress bar's initial value), no
   * timer and no blinking. It satisfies the display invariant.
   */
  function Initial(): (d: Display)
    ensures WellFormed(d)
    ensures d.name == NoMusic && d.duration == ZeroDuration && d.icon == PlayIcon
    ensures d.progress == -1 && !d.progressVisible && !d.timerRunning && !d.blinking
  {
    Display(NoMusic, PlayIcon, ZeroDuration, -1, false, false, false)
  }

  /** A progress bar ignores a value outside its range 0..100. */
  function SetBarValue(current: int, v: int): (r: int)
    ensures 0 <= v <= 100 ==> r == v
    ensures !(0 <= v <= 100) ==> r == current
  {
    if 0 <= v <= 100 then v else current
  }

  /**
   * The display invariant every operation keeps: the bar's value is in its range (or the
   * initial -1), a blinking name goes with the play icon, and the pause icon only shows
   * while the position timer runs.
   */
  predicate WellFormed(d: Display) {
    && -1 <= d.progress <= 100
    && (d.blinking ==> d.icon == PlayIcon)
    && (d.icon == PauseIcon ==> d.timerRunning)
  }

  /**
   * Loading the file the picker returned; an empty path (the picker was cancelled)
   * changes nothing. Loading shows the file's stem, resets the readout, shows an empty
   * progress bar and leaves the timer and the blink animation alone.
   */
  function Load(d: Display, path: string): (r: Display)
    ensures path == "" ==> r == d
    ensures path != "" ==> && r.name == PosixPath.Stem(path) && r.icon == PlayIcon
                           && r.duration == ZeroDuration && r.progress == 0 && r.progressVisible
    ensures r.timerRunning == d.timerRunning && r.blinking == d.blinking
    ensures WellFormed(d) ==> WellFormed(r)
  {
    if path == "" then d
    else d.(name := PosixPath.Stem(path), icon := PlayIcon, duration := ZeroDuration,
            progress := SetBarValue(d.progress, 0), progressVisible := true)
  }

  /**
   * The play/pause button. While the backend plays, it pauses: play icon, blinking on.
   * Otherwise it plays: pause icon, blinking off, position timer (re)started.
   */
  function Toggle(d: Display, playing: bool): (r: Display)
    ensures playing ==> r.icon == PlayIcon && r.blinking && r.timerRunning == d.timerRunning
    ensures !playing ==> r.icon == PauseIcon && !r.blinking && r.timerRunning
    ensures r.name == d.name && r.duration == d.duration
    ensures r.progress == d.progress && r.progressVisible == d.progressVisible
    ensures WellFormed(d) ==> WellFormed(r)
  {
    if playing then d.(icon := PlayIcon, blinking := true)
    else d.(icon := PauseIcon, blinking := false, timerRunning := true)
  }

  /** The stop button: whatever came before, the display is reset and the bar hidden. */
  function Stop(d: Display): (r: Display)
    ensures && r.name == NoMusic && r.icon == PlayIcon && r.duration == ZeroDuration
            && r.progress == 0 && !r.progressVisible && !r.timerRunning && !r.blinking
    ensures WellFormed(r)
  {
    d.(icon := PlayIcon, name := NoMusic, duration := ZeroDuration,
       progress := SetBarValue(d.progress, 0), progressVisible := false,
       timerRunning := false, blinking := false)
  }

  /**
   * The periodic position update from the backend's elapsed and total milliseconds.
   * The label always shows both readings; the bar is only touched when the total is at
   * least one second, so a zero-length or unreadable file never divides by zero.
   */
  function Tick(d: Display, timeMs: int, lengthMs: int): (r: Display)
    ensures r.duration == DurationText(Seconds(timeMs), Seconds(lengthMs))
    ensures Seconds(lengthMs) <= 0 ==> r.progress == d.progress
    ensures 0 < Seconds(lengthMs) ==> r.progress == SetBarValue(d.progress, Percent(Seconds(timeMs), Seconds(lengthMs)))
    ensures 0 <= Seconds(timeMs) <= Seconds(lengthMs) && 0 < Seconds(lengthMs) ==>
              r.progress == Percent(Seconds(timeMs), Seconds(lengthMs)) && 0 <= r.progress <= 100
    ensures r == d.(duration := r.duration, progress := r.progress)
    ensures WellFormed(d) ==> WellFormed(r)
  {
    var cur := Seconds(timeMs);
    var total := Seconds(lengthMs);
    d.(duration := DurationText(cur, total),
       progress := if total > 0 then SetBarValue(d.progress, Percent(cur, total)) else d.progress)
  }

  /** Stopping does not depend on the prior display, and stopping twice is stopping once. */
  lemma StopForgetsHistory(d1: Display, d2: Display)
    ensures Stop(d1) == Stop(d2)
    ensures Stop(Stop(d1)) == Stop(d1)
  {
  }

  /** A stop after a load is the same as a stop alone. */
  lemma StopUndoesLoad(d: Display, path: string)
    ensures Stop(Load(d, path)) == Stop(d)
  {
  }

  /** One reading of the backend per timer tick. */
  datatype Reading = Reading(timeMs: int, lengthMs: int)

  function TickAll(d: Display, rs: seq<Reading>): Display
    decreases |rs|
  {
    if rs == [] then d else TickAll(Tick(d, rs[0].timeMs, rs[0].lengthMs), rs[1..])
  }

  /** Ticks only rewrite the duration label and the bar: the rest of the display stays. */
  lemma {:induction false} TicksTouchOnlyReadout(d: Display, rs: seq<Reading>)
    ensures TickAll(d, rs) == d.(duration := TickAll(d, rs).duration, progress := TickAll(d, rs).progress)
    ensures WellFormed(d) ==> WellFormed(TickAll(d, rs))
    decreases |rs|
  {
    if rs != [] {
      TicksTouchOnlyReadout(Tick(d, rs[0].timeMs, rs[0].lengthMs), rs[1..]);
    }
  }

  /** While the backend reports a length under one second, ticks never move the bar. */
  lemma {:induction false} ShortMediaKeepsProgress(d: Display, rs: seq<Reading>)
    requires forall i :: 0 <= i < |rs| ==> rs[i].lengthMs < 1000
    ensures TickAll(d, rs).progress == d.progress
    decreases |rs|
  {
    if rs != [] {
      var rest := rs[1..];
      assert forall i :: 0 <= i < |rest| ==> rest[i].lengthMs < 1000 by {
        forall i | 0 <= i < |rest| ensures rest[i] == rs[i + 1] { }
      }
      assert Seconds(rs[0].lengthMs) <= 0;
      ShortMediaKeepsProgress(Tick(d, rs[0].timeMs, rs[0].lengthMs), rest);
    }
  }

  /** Loading a zero-length or unreadable file keeps the bar at 0 however often the timer fires. */
  lemma EmptyMediaKeepsBarAtZero(d: Display, path: string, rs: seq<Reading>)
    requires path != ""
    requires forall i :: 0 <= i < |rs| ==> rs[i].lengthMs < 1000
    ensures TickAll(Load(d, path), rs).progress == 0
  {
    ShortMediaKeepsProgress(Load(d, path), rs);
  }

  /** After a tick the label reads back as the elapsed and total seconds modulo one hour. */
  lemma TickShowsReadings(d: Display, timeMs: int, lengthMs: int)
    ensures ParseDuration(Tick(d, timeMs, lengthMs).duration)
         == Some((Seconds(timeMs) % 3600, Seconds(lengthMs) % 3600))
  {
    DurationTextReadsBack(Seconds(timeMs), Seconds(lengthMs));
  }
}
