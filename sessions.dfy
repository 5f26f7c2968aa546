/**
 * The work/rest scheduler of `MainWindow` as a value: its flags, its two
 * timers, the shared rest counter and the rest windows it lists (each one
 * as an `Overlay`).  Each callback is a function from the old state to the
 * new one; `Controllers.Controller` is proved to behave the same way.
 */
module Sessions {
  import opened Wrappers
  import opened Timers
  import opened Overlays

  /** What the status label says. */
  datatype Status = Waiting | Working(minutes: int) | Resting | Stopped | ZeroRestRejected

  datatype Session = Session(isRunning: bool, workTimer: Timer, syncTimer: Timer,
                             currentRest: int, windows: seq<Overlay>, status: Status)

  /** Period of the controller's sync timer. */
  const SyncMs := 1000

  /** The ranges the spin boxes keep their values in. */
  predicate WorkMinutesOk(workMinutes: int) {
    1 <= workMinutes <= 240
  }

  predicate RestFieldsOk(restMinutes: int, restSeconds: int) {
    0 <= restMinutes <= 60 && 0 <= restSeconds <= 59
  }

  function RestTotal(restMinutes: int, restSeconds: int): int {
    restMinutes * 60 + restSeconds
  }

  /** The work timer's period for a work length in minutes. */
  function WorkIntervalMs(workMinutes: int): int {
    workMinutes * 60 * 1000
  }

  /** The listed primary window's countdown timer is running. */
  predicate PrimaryArmed(s: Session) {
    |s.windows| > 0 && Armed(s.windows[0])
  }

  predicate OverlayOk(o: Overlay, i: int) {
    && (o.isPrimary <==> i == 0)
    && WellFormed(o)
    && o.shown == Some(o.remaining)
    && o.stage.Showing?
  }

  /**
   * The invariant the scheduler keeps: only window 0 is primary and every
   * listed window is on screen showing its own count; the counter never
   * drops below -1, since the sync timer stops once it goes below 0; while
   * a rest is in progress the primary's timer runs; while the sync timer runs, the
   * counter is not negative, every secondary window shows it and the
   * primary is never behind it; once the sync timer has stopped the primary
   * is on its last second.
   */
  predicate Coherent(s: Session) {
    && (forall i :: 0 <= i < |s.windows| ==> OverlayOk(s.windows[i], i))
    && (|s.windows| > 0 ==> Armed(s.windows[0]) && s.windows[0].remaining >= 0)
    && s.currentRest >= -1
    && (s.syncTimer.active ==> s.currentRest >= 0)
    && (s.syncTimer.active ==> forall i :: 1 <= i < |s.windows| ==> s.windows[i].remaining == s.currentRest)
    && (s.syncTimer.active && |s.windows| > 0 ==> s.windows[0].remaining <= s.currentRest)
    && (!s.syncTimer.active && |s.windows| > 0 ==> s.windows[0].remaining <= 0)
  }

  /** `MainWindow.__init__`. */
  function Initial(): (s: Session)
    ensures !s.isRunning && !s.workTimer.active && !s.syncTimer.active
    ensures s.windows == [] && s.currentRest == 0 && s.status == Waiting
    ensures Coherent(s)
  {
    Session(false, Unstarted, Unstarted, 0, [], Waiting)
  }

  /**
   * `toggle_timer`, the start/stop button.  Starting is refused when the
   * rest length is 0; stopping cancels only the work timer, so a rest in
   * progress runs to its end.
   */
  function Toggle(s: Session, workMinutes: int, restMinutes: int, restSeconds: int): (t: Session)
    requires WorkMinutesOk(workMinutes) && RestFieldsOk(restMinutes, restSeconds)
    ensures !s.isRunning && RestTotal(restMinutes, restSeconds) <= 0 ==>
              t == s.(status := ZeroRestRejected)
    ensures !s.isRunning && RestTotal(restMinutes, restSeconds) > 0 ==>
              t == s.(isRunning := true, workTimer := Started(WorkIntervalMs(workMinutes)),
                      status := Working(workMinutes))
    ensures s.isRunning ==>
              !t.isRunning && !t.workTimer.active && t.status == Stopped &&
              t.windows == s.windows && t.syncTimer == s.syncTimer && t.currentRest == s.currentRest
  {
    if !s.isRunning then
      if RestTotal(restMinutes, restSeconds) <= 0 then
        s.(status := ZeroRestRejected)
      else
        s.(workTimer := Started(WorkIntervalMs(workMinutes)), isRunning := true,
           status := Working(workMinutes))
    else
      s.(workTimer := s.workTimer.Stop(), isRunning := false, status := Stopped)
  }

  /** The window `on_work_finished` builds for the screen at `index`. */
  function RestWindowFor(index: int, totalSeconds: int, bounds: Geometry): Overlay {
    StartRest(Fresh(index == 0), totalSeconds, bounds)
  }

  /**
   * `on_work_finished`: stop the work timer, read the rest length, replace
   * the window list by one started window per screen (the first one
   * primary) and start the sync timer.  Windows listed before are dropped
   * from the list, not closed.
   */
  function WorkFinished(s: Session, screens: seq<Geometry>, restMinutes: int, restSeconds: int): (t: Session)
    requires RestFieldsOk(restMinutes, restSeconds)
    ensures !t.workTimer.active && t.workTimer.intervalMs == s.workTimer.intervalMs
    ensures t.currentRest == RestTotal(restMinutes, restSeconds)
    ensures |t.windows| == |screens|
    ensures forall i :: 0 <= i < |screens| ==>
              (t.windows[i].isPrimary <==> i == 0) &&
              t.windows[i].remaining == t.currentRest &&
              t.windows[i].shown == Some(t.currentRest) &&
              t.windows[i].stage == Showing(screens[i])
    ensures |screens| > 0 ==> t.windows[0].timer == Some(Started(CountdownMs))
    ensures forall i :: 1 <= i < |screens| ==> t.windows[i].timer.None?
    ensures t.syncTimer == Started(SyncMs)
    ensures t.isRunning == s.isRunning && t.status == Resting
  {
    var total := RestTotal(restMinutes, restSeconds);
    s.(workTimer := s.workTimer.Stop(), status := Resting, currentRest := total,
       windows := seq(|screens|, i requires 0 <= i < |screens| => RestWindowFor(i, total, screens[i])),
       syncTimer := Started(SyncMs))
  }

  /**
   * `sync_screens`, the sync timer's timeout: one second less on the shared
   * counter; below 0 the sync timer stops and no window is touched,
   * otherwise every listed window is set to the new count.
   */
  function SyncScreens(s: Session): (t: Session)
    ensures t.currentRest == s.currentRest - 1
    ensures t.currentRest < 0 ==> t == s.(currentRest := t.currentRest, syncTimer := s.syncTimer.Stop())
    ensures t.currentRest >= 0 ==>
              t.syncTimer == s.syncTimer && |t.windows| == |s.windows| &&
              forall i :: 0 <= i < |s.windows| ==>
                t.windows[i] == s.windows[i].(remaining := t.currentRest, shown := Some(t.currentRest))
    ensures t.isRunning == s.isRunning && t.workTimer == s.workTimer && t.status == s.status
  {
    var c := s.currentRest - 1;
    if c < 0 then
      s.(currentRest := c, syncTimer := s.syncTimer.Stop())
    else
      s.(currentRest := c,
         windows := seq(|s.windows|, i requires 0 <= i < |s.windows| => SetDisplayTime(s.windows[i], c)))
  }

  /** A timeout of the running sync timer keeps the invariant. */
  lemma SyncKeepsCoherent(s: Session)
    requires Coherent(s) && s.syncTimer.active
    ensures Coherent(SyncScreens(s))
  {
    var t := SyncScreens(s);
    if t.currentRest >= 0 {
      forall i | 0 <= i < |t.windows| ensures OverlayOk(t.windows[i], i) {
        assert OverlayOk(s.windows[i], i);
      }
    }
  }

  /**
   * `on_rest_finished`: stop the sync timer, close and forget every listed
   * window, and restart the work timer only if the session still runs.
   */
  function RestFinished(s: Session, workMinutes: int): (t: Session)
    requires WorkMinutesOk(workMinutes)
    ensures !t.syncTimer.active && t.windows == []
    ensures t.isRunning == s.isRunning && t.currentRest == s.currentRest
    ensures s.isRunning ==> t.workTimer == Started(WorkIntervalMs(workMinutes)) && t.status == Working(workMinutes)
    ensures !s.isRunning ==> t.workTimer == s.workTimer && t.status == s.status
  {
    var closed := s.(syncTimer := s.syncTimer.Stop(), windows := []);
    if s.isRunning then
      closed.(workTimer := Started(WorkIntervalMs(workMinutes)), status := Working(workMinutes))
    else
      closed
  }

  /**
   * A timeout of the listed primary window's timer: `update_countdown`, and,
   * when it signals `rest_finished`, `on_rest_finished`.
   */
  function PrimaryTimeout(s: Session, workMinutes: int): (t: Session)
    requires PrimaryArmed(s) && WorkMinutesOk(workMinutes)
    ensures s.windows[0].remaining - 1 <= 0 ==> t == RestFinished(s, workMinutes)
    ensures s.windows[0].remaining - 1 > 0 ==>
              t == s.(windows := s.windows[0 := s.windows[0].(remaining := s.windows[0].remaining - 1,
                                                               shown := Some(s.windows[0].remaining - 1))])
  {
    var (o, finished) := Countdown(s.windows[0]);
    var s1 := s.(windows := s.windows[0 := o]);
    if finished then RestFinished(s1, workMinutes) else s1
  }

  // ---- The invariant is kept by every callback ----

  lemma InitialCoherent()
    ensures Coherent(Initial())
  {
  }

  lemma ToggleKeepsCoherent(s: Session, workMinutes: int, restMinutes: int, restSeconds: int)
    requires Coherent(s) && WorkMinutesOk(workMinutes) && RestFieldsOk(restMinutes, restSeconds)
    ensures Coherent(Toggle(s, workMinutes, restMinutes, restSeconds))
  {
  }

  /** Whatever came before, a new rest starts in a coherent state. */
  lemma WorkFinishedCoherent(s: Session, screens: seq<Geometry>, restMinutes: int, restSeconds: int)
    requires RestFieldsOk(restMinutes, restSeconds)
    ensures Coherent(WorkFinished(s, screens, restMinutes, restSeconds))
  {
  }

  lemma RestFinishedCoherent(s: Session, workMinutes: int)
    requires WorkMinutesOk(workMinutes) && s.currentRest >= -1
    ensures Coherent(RestFinished(s, workMinutes))
  {
  }

  /** A timeout of the listed primary's running timer keeps the invariant. */
  lemma PrimaryTimeoutKeepsCoherent(s: Session, workMinutes: int)
    requires Coherent(s) && PrimaryArmed(s) && WorkMinutesOk(workMinutes)
    ensures Coherent(PrimaryTimeout(s, workMinutes))
  {
    var t := PrimaryTimeout(s, workMinutes);
    if s.windows[0].remaining - 1 > 0 {
      assert s.syncTimer.active;
      forall i | 0 <= i < |t.windows| ensures OverlayOk(t.windows[i], i) {
        assert OverlayOk(s.windows[i], i);
      }
    } else {
      RestFinishedCoherent(s.(windows := s.windows[0 := Countdown(s.windows[0]).0]), workMinutes);
    }
  }
}
