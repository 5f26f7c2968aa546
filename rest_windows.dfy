/**
 * `RestWindow` of eye_protect.py as a class whose fields the callbacks
 * update in place.  `View()` reads the fields as an `Overlay`; every method
 * is proved to move that view as the function of the same name in module
 * `Overlays` does.
 */
module RestWindows {
  import opened Wrappers
  import opened Timers
  import opened Overlays

  class RestWindow {
    const isPrimary: bool
    var remainingSeconds: int
    /** The countdown `QTimer`; the constructor creates one only for the primary window. */
    var timer: Option<Timer>
    /** The count the time label was last rendered from. */
    var shownSeconds: Option<int>
    var stage: Stage

    function View(): Overlay
      reads this
    {
      Overlay(isPrimary, remainingSeconds, timer, shownSeconds, stage)
    }

    constructor (isPrimary: bool)
      ensures View() == Fresh(isPrimary)
    {
      this.isPrimary := isPrimary;
      remainingSeconds := 0;
      shownSeconds := None;
      stage := Created;
      timer := if isPrimary then Some(Unstarted) else None;
    }

    method UpdateDisplay()
      modifies this
      ensures View() == Refresh(old(View()))
    {
      shownSeconds := Some(remainingSeconds);
    }

    method StartRest(totalSeconds: int, screenGeometry: Geometry)
      modifies this
      ensures View() == Overlays.StartRest(old(View()), totalSeconds, screenGeometry)
    {
      remainingSeconds := totalSeconds;
      stage := Showing(screenGeometry);
      UpdateDisplay();
      if isPrimary {
        timer := Some(Started(CountdownMs));
      }
    }

    /** The countdown timer's timeout; `finished` is the `rest_finished` signal. */
    method UpdateCountdown() returns (finished: bool)
      requires timer.Some?
      modifies this
      ensures (View(), finished) == Countdown(old(View()))
    {
      remainingSeconds := remainingSeconds - 1;
      finished := remainingSeconds <= 0;
      if finished {
        timer := Some(timer.value.Stop());
      }
      ghost var counted := View();
      UpdateDisplay();
      assert View() == Refresh(counted);
    }

    method SetDisplayTime(seconds: int)
      modifies this
      ensures View() == Overlays.SetDisplayTime(old(View()), seconds)
    {
      remainingSeconds := seconds;
      UpdateDisplay();
    }

    /** A close request; `spontaneous` when it comes from the window system. */
    method CloseEvent(spontaneous: bool) returns (accepted: bool)
      modifies this
      ensures (View(), accepted) == CloseRequest(old(View()), spontaneous)
    {
      accepted := !spontaneous;
      if accepted {
        stage := Closed;
      }
    }

    method CloseWindow()
      modifies this
      ensures View() == Overlays.CloseWindow(old(View()))
    {
      if isPrimary && timer.Some? && timer.value.active {
        timer := Some(timer.value.Stop());
      }
      var _ := CloseEvent(false);
    }
  }
}
