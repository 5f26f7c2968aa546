/**
 * A `QTimer` as the scheduler sees it: running or not, and its period.
 * Firing is left to the environment, which calls the timeout handler only
 * while the timer is active.
 */
module Timers {
  datatype Timer = Timer(active: bool, intervalMs: int) {
    /** `QTimer.stop()`: no more timeouts; the interval is kept. */
    function Stop(): Timer {
      this.(active := false)
    }
  }

  /** A timer that was never started (Qt's default interval is 0). */
  const Unstarted: Timer := Timer(false, 0)

  /** `QTimer.start(ms)`: (re)starts with period `ms`, whatever the timer was. */
  function Started(ms: int): Timer {
    Timer(true, ms)
  }
}
