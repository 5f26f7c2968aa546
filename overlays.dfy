/**
 * The state of one black rest window (`RestWindow` in eye_protect.py) as a
 * value, and each of its operations as a function on that value.  The class
 * `RestWindows.RestWindow` is proved to behave as these functions say.
 */
module Overlays {
  import opened Wrappers
  import opened Timers
  import opened TimeText

  /** A screen's geometry rectangle, passed in by the caller. */
  datatype Geometry = Geometry(x: int, y: int, width: int, height: int)

  /** Created by the constructor, shown over one screen, then closed for good. */
  datatype Stage = Created | Showing(bounds: Geometry) | Closed

  /**
   * `timer` is the window's own countdown timer; only the primary window
   * has one.  `shown` is the count the time label was last rendered from
   * (`None` while it still holds its initial empty text).
   */
  datatype Overlay = Overlay(isPrimary: bool, remaining: int, timer: Option<Timer>,
                             shown: Option<int>, stage: Stage)

  /** The text of the time label. */
  function LabelText(o: Overlay): string {
    if o.shown.Some? then FormatTime(o.shown.value) else ""
  }

  /** Period of the primary window's countdown timer. */
  const CountdownMs := 1000

  predicate WellFormed(o: Overlay) {
    o.timer.Some? <==> o.isPrimary
  }

  /** The window's own timer exists and is running. */
  predicate Armed(o: Overlay) {
    o.timer.Some? && o.timer.value.active
  }

  /** `RestWindow.__init__`. */
  function Fresh(isPrimary: bool): (o: Overlay)
    ensures o.isPrimary == isPrimary && WellFormed(o) && !Armed(o)
    ensures o.remaining == 0 && LabelText(o) == "" && o.stage == Created
  {
    Overlay(isPrimary, 0, if isPrimary then Some(Unstarted) else None, None, Created)
  }

  /** `update_display`: the time label shows the remaining seconds. */
  function Refresh(o: Overlay): (r: Overlay)
    ensures LabelText(r) == FormatTime(o.remaining)
    ensures r.(shown := o.shown) == o
  {
    o.(shown := Some(o.remaining))
  }

  /**
   * `start_rest`: take the rest length, cover the given screen, show the
   * time and, on the primary window only, start the one-second timer.
   */
  function StartRest(o: Overlay, totalSeconds: int, bounds: Geometry): (r: Overlay)
    ensures r.isPrimary == o.isPrimary && r.remaining == totalSeconds
    ensures r.shown == Some(totalSeconds) && r.stage == Showing(bounds)
    ensures o.isPrimary ==> r.timer == Some(Started(CountdownMs))
    ensures !o.isPrimary ==> r.timer == o.timer
    ensures WellFormed(o) ==> WellFormed(r)
  {
    var shown := Refresh(o.(remaining := totalSeconds, stage := Showing(bounds)));
    if o.isPrimary then shown.(timer := Some(Started(CountdownMs))) else shown
  }

  /**
   * `update_countdown`, the primary window's timeout: one second less; once
   * the count is 0 or below the timer stops and `finished` is signalled.
   * Only a window that has a timer is connected to it.
   */
  function Countdown(o: Overlay): (r: (Overlay, bool))
    requires o.timer.Some?
    ensures r.0.remaining == o.remaining - 1
    ensures r.1 <==> r.0.remaining <= 0
    ensures r.1 ==> r.0.timer == Some(o.timer.value.Stop())
    ensures !r.1 ==> r.0.timer == o.timer
    ensures r.0.shown == Some(r.0.remaining)
    ensures r.0.isPrimary == o.isPrimary && r.0.stage == o.stage
  {
    var o1 := o.(remaining := o.remaining - 1);
    var finished := o1.remaining <= 0;
    var o2 := if finished then o1.(timer := Some(o1.timer.value.Stop())) else o1;
    (Refresh(o2), finished)
  }

  /** `set_display_time`: overwrite the count and the text, leave the timer alone. */
  function SetDisplayTime(o: Overlay, seconds: int): (r: Overlay)
    ensures r.remaining == seconds && r.shown == Some(seconds)
    ensures r.timer == o.timer && r.isPrimary == o.isPrimary && r.stage == o.stage
  {
    Refresh(o.(remaining := seconds))
  }

  /**
   * `closeEvent`: a close request that comes from the window system
   * (spontaneous, e.g. Alt+F4) is ignored; one made by the program closes.
   */
  function CloseRequest(o: Overlay, spontaneous: bool): (r: (Overlay, bool))
    ensures r.1 <==> !spontaneous
    ensures r.1 ==> r.0 == o.(stage := Closed)
    ensures !r.1 ==> r.0 == o
  {
    if spontaneous then (o, false) else (o.(stage := Closed), true)
  }

  /**
   * `close_window`: the primary's running timer is stopped, then the
   * program's own `close()` goes through `closeEvent` and is accepted.
   */
  function CloseWindow(o: Overlay): (r: Overlay)
    ensures r.stage == Closed && (WellFormed(o) ==> !Armed(r))
    ensures r.remaining == o.remaining && r.shown == o.shown && r.isPrimary == o.isPrimary
    ensures o.timer.None? <==> r.timer.None?
    ensures o.timer.Some? ==> r.timer.value.intervalMs == o.timer.value.intervalMs
    ensures !Armed(o) ==> r.timer == o.timer
  {
    var stopped := if o.isPrimary && Armed(o) then o.(timer := Some(o.timer.value.Stop())) else o;
    CloseRequest(stopped, false).0
  }
}
