/**
 * Properties of the scheduler that span several callbacks: a rest phase
 * ends whatever order the two one-second timers fire in, how long it lasts
 * for each order, and what happens without any screen.
 */
module SessionProperties {
  import opened Timers
  import opened Overlays
  import opened Sessions

  /** A timeout of the sync timer, delivered only while it runs. */
  function FireSync(s: Session): Session {
    if s.syncTimer.active then SyncScreens(s) else s
  }

  /** A timeout of the listed primary window's timer, delivered only while it runs. */
  function FirePrimary(s: Session, workMinutes: int): Session
    requires WorkMinutesOk(workMinutes)
  {
    if PrimaryArmed(s) then PrimaryTimeout(s, workMinutes) else s
  }

  /** One second of a rest: both timers fire, in the given order. */
  function Second(s: Session, workMinutes: int, primaryFirst: bool): Session
    requires WorkMinutesOk(workMinutes)
  {
    if primaryFirst then FireSync(FirePrimary(s, workMinutes))
    else FirePrimary(FireSync(s), workMinutes)
  }

  /** `k` such seconds, each with the same order. */
  function Seconds(s: Session, workMinutes: int, primaryFirst: bool, k: nat): Session
    requires WorkMinutesOk(workMinutes)
    decreases k
  {
    if k == 0 then s else Seconds(Second(s, workMinutes, primaryFirst), workMinutes, primaryFirst, k - 1)
  }

  // ---- Every interleaving ends ----

  function SyncCount(s: Session): nat {
    if s.syncTimer.active && s.currentRest >= 0 then s.currentRest + 1 else 0
  }

  function PrimaryCount(s: Session): nat {
    if PrimaryArmed(s) && s.windows[0].remaining >= 0 then s.windows[0].remaining + 1 else 0
  }

  /**
   * An upper bound on the timeouts a rest can still take.  Between two
   * sync ticks the primary may tick up to the counter's value, so the bound
   * is quadratic in the counter.
   */
  function RestBudget(s: Session): nat {
    SyncCount(s) * SyncCount(s) + SyncCount(s) + PrimaryCount(s)
  }

  lemma SquareStep(n: nat)
    requires n >= 1
    ensures (n - 1) * (n - 1) + (n - 1) + (n - 1) < n * n + n
  {
    assert (n - 1) * (n - 1) == n * n - 2 * n + 1;
  }

  /** A sync timeout spends budget and keeps the invariant. */
  lemma SyncSpendsBudget(s: Session)
    requires Coherent(s) && s.syncTimer.active
    ensures Coherent(SyncScreens(s))
    ensures RestBudget(SyncScreens(s)) < RestBudget(s)
  {
    SyncKeepsCoherent(s);
    var t := SyncScreens(s);
    var n := SyncCount(s);
    assert n == s.currentRest + 1;
    if t.currentRest >= 0 {
      assert SyncCount(t) == n - 1;
      assert PrimaryCount(t) <= n - 1;
      SquareStep(n);
    } else {
      assert SyncCount(t) == 0 && n == 1;
      assert PrimaryCount(t) == PrimaryCount(s);
    }
  }

  /** A primary timeout spends budget and keeps the invariant. */
  lemma PrimarySpendsBudget(s: Session, workMinutes: int)
    requires Coherent(s) && PrimaryArmed(s) && WorkMinutesOk(workMinutes)
    ensures Coherent(PrimaryTimeout(s, workMinutes))
    ensures RestBudget(PrimaryTimeout(s, workMinutes)) < RestBudget(s)
  {
    PrimaryTimeoutKeepsCoherent(s, workMinutes);
    var t := PrimaryTimeout(s, workMinutes);
    if s.windows[0].remaining - 1 > 0 {
      assert s.syncTimer.active;
      assert SyncCount(t) == SyncCount(s);
      assert PrimaryCount(t) == PrimaryCount(s) - 1;
    } else {
      assert RestBudget(t) == 0;
    }
  }

  /** No budget left means no rest timer runs and no window is listed. */
  lemma NoBudgetNoRest(s: Session)
    requires Coherent(s)
    ensures RestBudget(s) == 0 <==> !s.syncTimer.active && s.windows == []
  {
    if |s.windows| > 0 {
      assert PrimaryCount(s) > 0;
    }
  }

  // ---- How long a rest lasts ----

  /** A rest in progress: a window is listed and the sync timer runs. */
  predicate Ticking(s: Session) {
    Coherent(s) && |s.windows| > 0 && s.syncTimer.active
  }

  /** The user's settings and the work timer are as in `s`. */
  predicate SameWork(t: Session, s: Session) {
    t.isRunning == s.isRunning && t.workTimer == s.workTimer
  }

  /**
   * The rest that began in `s` is over in `t`: no window listed, the sync
   * timer stopped, and the work timer restarted exactly when the session
   * still runs (otherwise left as it was).
   */
  predicate EndedFrom(t: Session, s: Session, workMinutes: int) {
    && t.windows == []
    && !t.syncTimer.active
    && t.isRunning == s.isRunning
    && t.workTimer == (if s.isRunning then Started(WorkIntervalMs(workMinutes)) else s.workTimer)
  }

  lemma PrimaryFirstSecond(s: Session, workMinutes: int, c: int)
    requires WorkMinutesOk(workMinutes) && Ticking(s) && s.currentRest == c && s.windows[0].remaining == c
    ensures var t := Second(s, workMinutes, true);
      if c <= 1 then EndedFrom(t, s, workMinutes)
      else Ticking(t) && t.currentRest == c - 1 && t.windows[0].remaining == c - 1 && SameWork(t, s)
  {
    assert PrimaryArmed(s);
    PrimarySpendsBudget(s, workMinutes);
    var s1 := PrimaryTimeout(s, workMinutes);
    if c > 1 {
      assert s1.syncTimer.active && s1.currentRest == c && s1.windows[0].remaining == c - 1 && SameWork(s1, s);
      SyncSpendsBudget(s1);
      var t := SyncScreens(s1);
      assert t.currentRest == c - 1 && t.windows[0].remaining == c - 1 && t.syncTimer.active;
    }
  }

  /**
   * When the primary's timer fires before the sync timer every second, a
   * rest of `c` seconds is still in progress after each of its first
   * `c - 1` seconds, the primary in step with the counter ...
   */
  lemma {:induction false} PrimaryFirstCountsDown(s: Session, workMinutes: int, c: int, k: nat)
    requires WorkMinutesOk(workMinutes) && Ticking(s) && s.currentRest == c && s.windows[0].remaining == c && k < c
    ensures var t := Seconds(s, workMinutes, true, k);
      Ticking(t) && t.currentRest == c - k && t.windows[0].remaining == c - k && SameWork(t, s)
    decreases k
  {
    if k > 0 {
      var next := Second(s, workMinutes, true);
      PrimaryFirstSecond(s, workMinutes, c);
      PrimaryFirstCountsDown(next, workMinutes, c - 1, k - 1);
    }
  }

  /** ... and is over after exactly `c` seconds. */
  lemma {:induction false} PrimaryFirstEnds(s: Session, workMinutes: int, c: int)
    requires WorkMinutesOk(workMinutes) && Ticking(s) && s.currentRest == c && s.windows[0].remaining == c && c >= 1
    ensures EndedFrom(Seconds(s, workMinutes, true, c), s, workMinutes)
    decreases c
  {
    PrimaryFirstSecond(s, workMinutes, c);
    if c > 1 {
      PrimaryFirstEnds(Second(s, workMinutes, true), workMinutes, c - 1);
    }
  }

  lemma SyncFirstSecond(s: Session, workMinutes: int, c: int)
    requires WorkMinutesOk(workMinutes) && Ticking(s) && s.currentRest == c && c >= 1
    ensures var t := Second(s, workMinutes, false);
      if c <= 2 then EndedFrom(t, s, workMinutes)
      else Ticking(t) && t.currentRest == c - 1 && t.windows[0].remaining == c - 2 && SameWork(t, s)
  {
    SyncSpendsBudget(s);
    var s1 := SyncScreens(s);
    assert PrimaryArmed(s1) && s1.windows[0].remaining == c - 1;
    PrimarySpendsBudget(s1, workMinutes);
  }

  /**
   * When the sync timer fires first every second, the sync overwrite
   * hands the primary the counter and the primary then takes one more
   * second off: a rest of `c >= 2` seconds is still in progress after each
   * of its first `c - 2` seconds ...
   */
  lemma {:induction false} SyncFirstCountsDown(s: Session, workMinutes: int, c: int, k: nat)
    requires WorkMinutesOk(workMinutes) && Ticking(s) && s.currentRest == c && 0 < k && k + 1 < c
    ensures var t := Seconds(s, workMinutes, false, k);
      Ticking(t) && t.currentRest == c - k && t.windows[0].remaining == c - k - 1 && SameWork(t, s)
    decreases k
  {
    var next := Second(s, workMinutes, false);
    SyncFirstSecond(s, workMinutes, c);
    if k > 1 {
      SyncFirstCountsDown(next, workMinutes, c - 1, k - 1);
    }
  }

  /** ... and is over after `c - 1` seconds, one second short. */
  lemma {:induction false} SyncFirstEnds(s: Session, workMinutes: int, c: int)
    requires WorkMinutesOk(workMinutes) && Ticking(s) && s.currentRest == c && c >= 2
    ensures EndedFrom(Seconds(s, workMinutes, false, c - 1), s, workMinutes)
    decreases c
  {
    SyncFirstSecond(s, workMinutes, c);
    if c > 2 {
      SyncFirstEnds(Second(s, workMinutes, false), workMinutes, c - 1);
    }
  }

  // ---- Without screens ----

  /**
   * With no window listed there is no primary to signal the end of the
   * rest: however many seconds pass, the work timer is not restarted.
   */
  lemma {:induction false} NoScreensNoResume(s: Session, workMinutes: int, primaryFirst: bool, k: nat)
    requires WorkMinutesOk(workMinutes) && s.windows == [] && !s.workTimer.active
    ensures Seconds(s, workMinutes, primaryFirst, k).windows == []
    ensures !Seconds(s, workMinutes, primaryFirst, k).workTimer.active
    decreases k
  {
    if k > 0 {
      NoScreensNoResume(Second(s, workMinutes, primaryFirst), workMinutes, primaryFirst, k - 1);
    }
  }

  // ---- Whole cycles ----

  /** Starting and stopping again before the work timer fires: idle, no window created. */
  lemma StartThenStop(s: Session, workMinutes: int, restMinutes: int, restSeconds: int)
    requires WorkMinutesOk(workMinutes) && RestFieldsOk(restMinutes, restSeconds)
    requires !s.isRunning && RestTotal(restMinutes, restSeconds) > 0
    ensures var t := Toggle(Toggle(s, workMinutes, restMinutes, restSeconds), workMinutes, restMinutes, restSeconds);
      !t.isRunning && !t.workTimer.active && t.windows == s.windows && t.status == Stopped
  {
  }

  /**
   * One work minute, a five-second rest, two screens: two windows appear,
   * the first primary; five seconds later (primary timer first) both are
   * gone and a one-minute work timer runs again; with the sync timer
   * first it is over after four.
   */
  lemma TwoScreenCycle(left: Geometry, right: Geometry)
    ensures var working := Toggle(Initial(), 1, 0, 5);
      var resting := WorkFinished(working, [left, right], 0, 5);
      && working.isRunning && working.workTimer == Started(60000)
      && |resting.windows| == 2 && resting.windows[0].isPrimary && !resting.windows[1].isPrimary
      && resting.windows[0].stage == Showing(left) && resting.windows[1].stage == Showing(right)
      && Ticking(Seconds(resting, 1, true, 4)) && Seconds(resting, 1, true, 4).currentRest == 1 && Seconds(resting, 1, true, 4).windows[0].remaining == 1
      && EndedFrom(Seconds(resting, 1, true, 5), resting, 1)
      && Seconds(resting, 1, true, 5).workTimer == Started(60000)
      && EndedFrom(Seconds(resting, 1, false, 4), resting, 1)
  {
    var working := Toggle(Initial(), 1, 0, 5);
    var resting := WorkFinished(working, [left, right], 0, 5);
    PrimaryFirstCountsDown(resting, 1, 5, 4);
    PrimaryFirstEnds(resting, 1, 5);
    SyncFirstEnds(resting, 1, 5);
  }
}
