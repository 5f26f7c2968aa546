/**
 * The scheduler part of `MainWindow` as a class.  Its list holds
 * `RestWindow` objects; `View()` reads the controller and every listed
 * window as a `Session`, and each callback is proved to move that view as
 * the function of the same name in module `Sessions` does, keeping
 * `Coherent` and the fact that no window is listed twice.
 */
module Controllers {
  import opened Timers
  import opened Overlays
  import opened Sessions
  import opened RestWindows

  function Views(ws: seq<RestWindow>): seq<Overlay>
    reads ws
  {
    seq(|ws|, i reads ws requires 0 <= i < |ws| => ws[i].View())
  }

  /** Views agree with `vs` window by window, hence as sequences. */
  lemma ViewsPointwise(ws: seq<RestWindow>, vs: seq<Overlay>)
    requires |ws| == |vs|
    requires forall i :: 0 <= i < |ws| ==> ws[i].View() == vs[i]
    ensures Views(ws) == vs
  {
  }

  predicate Distinct(ws: seq<RestWindow>) {
    forall i, j :: 0 <= i < j < |ws| ==> ws[i] != ws[j]
  }

  /**
   * The window-creating loop of `on_work_finished`: one fresh window per
   * screen, in screen order, the first one primary.
   */
  method OpenRestWindows(screens: seq<Geometry>, total: int) returns (ws: seq<RestWindow>)
    ensures |ws| == |screens| && Distinct(ws)
    ensures forall i :: 0 <= i < |ws| ==> fresh(ws[i])
    ensures forall i :: 0 <= i < |ws| ==> ws[i].View() == RestWindowFor(i, total, screens[i])
  {
    ws := [];
    for index := 0 to |screens|
      invariant |ws| == index
      invariant Distinct(ws)
      invariant forall i :: 0 <= i < index ==> fresh(ws[i])
      invariant forall i :: 0 <= i < index ==> ws[i].View() == RestWindowFor(i, total, screens[i])
    {
      var rw := new RestWindow(index == 0);
      rw.StartRest(total, screens[index]);
      ws := ws + [rw];
    }
  }

  /** The loop of `sync_screens`: every listed window is set to `seconds`. */
  method SetDisplayTimes(ws: seq<RestWindow>, seconds: int)
    requires Distinct(ws)
    modifies ws
    ensures forall i :: 0 <= i < |ws| ==> ws[i].View() == Overlays.SetDisplayTime(old(ws[i].View()), seconds)
  {
    for k := 0 to |ws|
      invariant forall i :: 0 <= i < k ==> ws[i].View() == Overlays.SetDisplayTime(old(ws[i].View()), seconds)
      invariant forall i :: k <= i < |ws| ==> ws[i].View() == old(ws[i].View())
    {
      ws[k].SetDisplayTime(seconds);
    }
  }

  class Controller {
    var isRunning: bool
    var workTimer: Timer
    var syncTimer: Timer
    var currentRestSeconds: int
    var restWindowList: seq<RestWindow>
    var status: Status

    function View(): Session
      reads this, restWindowList
    {
      Session(isRunning, workTimer, syncTimer, currentRestSeconds, Views(restWindowList), status)
    }

    ghost predicate Valid()
      reads this, restWindowList
    {
      Distinct(restWindowList) && Coherent(View())
    }

    constructor ()
      ensures Valid() && View() == Initial()
    {
      isRunning := false;
      workTimer := Unstarted;
      syncTimer := Unstarted;
      currentRestSeconds := 0;
      restWindowList := [];
      status := Waiting;
      InitialCoherent();
    }

    /** The start/stop button, with the spin boxes' current values. */
    method ToggleTimer(workMinutes: int, restMinutes: int, restSeconds: int)
      requires Valid() && WorkMinutesOk(workMinutes) && RestFieldsOk(restMinutes, restSeconds)
      modifies this
      ensures Valid() && restWindowList == old(restWindowList)
      ensures View() == Toggle(old(View()), workMinutes, restMinutes, restSeconds)
    {
      ToggleKeepsCoherent(View(), workMinutes, restMinutes, restSeconds);
      if !isRunning {
        var restTotal := restMinutes * 60 + restSeconds;
        if restTotal <= 0 {
          status := ZeroRestRejected;
          return;
        }
        workTimer := Started(WorkIntervalMs(workMinutes));
        isRunning := true;
        status := Working(workMinutes);
      } else {
        workTimer := workTimer.Stop();
        isRunning := false;
        status := Stopped;
      }
    }

    /**
     * The work timer's timeout.  `screens` is the screen list in the
     * order the system reports it; the new windows are fresh objects and
     * the windows listed before are left as they were.
     */
    method OnWorkFinished(screens: seq<Geometry>, restMinutes: int, restSeconds: int)
      requires Valid() && RestFieldsOk(restMinutes, restSeconds)
      modifies this
      ensures Valid()
      ensures View() == WorkFinished(old(View()), screens, restMinutes, restSeconds)
      ensures forall i :: 0 <= i < |restWindowList| ==> fresh(restWindowList[i])
    {
      workTimer := workTimer.Stop();
      status := Resting;
      var total := restMinutes * 60 + restSeconds;
      currentRestSeconds := total;
      var ws := OpenRestWindows(screens, total);
      restWindowList := ws;
      syncTimer := Started(SyncMs);
      ghost var goal := WorkFinished(old(View()), screens, restMinutes, restSeconds);
      WorkFinishedCoherent(old(View()), screens, restMinutes, restSeconds);
      ViewsPointwise(ws, goal.windows);
      assert View() == goal;
    }

    /** The sync timer's timeout. */
    method SyncScreens()
      requires Valid() && syncTimer.active
      modifies this, restWindowList
      ensures Valid() && restWindowList == old(restWindowList)
      ensures View() == Sessions.SyncScreens(old(View()))
    {
      ghost var goal := Sessions.SyncScreens(View());
      SyncKeepsCoherent(View());
      currentRestSeconds := currentRestSeconds - 1;
      if currentRestSeconds < 0 {
        syncTimer := syncTimer.Stop();
        assert View() == goal;
        return;
      }
      var ws := restWindowList;
      SetDisplayTimes(ws, currentRestSeconds);
      ViewsPointwise(ws, goal.windows);
      assert View() == goal;
    }

    /** Handles `rest_finished`: every listed window is closed, then the list is emptied. */
    method OnRestFinished(workMinutes: int)
      requires Distinct(restWindowList) && WorkMinutesOk(workMinutes) && currentRestSeconds >= -1
      modifies this, restWindowList
      ensures Valid()
      ensures View() == RestFinished(old(View()), workMinutes)
      ensures forall i :: 0 <= i < |old(restWindowList)| ==>
                old(restWindowList)[i].View() == CloseWindow(old(restWindowList[i].View()))
    {
      syncTimer := syncTimer.Stop();
      var ws := restWindowList;
      for k := 0 to |ws|
        modifies ws
        invariant forall i :: 0 <= i < k ==> ws[i].View() == CloseWindow(old(ws[i].View()))
        invariant forall i :: k <= i < |ws| ==> ws[i].View() == old(ws[i].View())
      {
        ws[k].CloseWindow();
      }
      restWindowList := [];
      if isRunning {
        workTimer := Started(WorkIntervalMs(workMinutes));
        status := Working(workMinutes);
      }
      RestFinishedCoherent(old(View()), workMinutes);
    }

    /**
     * A timeout of the running countdown timer of the primary window `w`:
     * `update_countdown`, and `on_rest_finished` when it signals.  `w` is
     * normally the listed primary.  The contract also covers a primary that
     * a later rest dropped from the list; this over-approximates the
     * program, where the dropped window is most likely destroyed together
     * with its timer once the list no longer refers to it.
     */
    method PrimaryTimeout(w: RestWindow, workMinutes: int) returns (finished: bool)
      requires Valid() && WorkMinutesOk(workMinutes)
      requires w.isPrimary && Armed(w.View())
      modifies this, w, restWindowList
      ensures Valid()
      ensures w in old(restWindowList) ==> View() == Sessions.PrimaryTimeout(old(View()), workMinutes)
      ensures w !in old(restWindowList) ==>
                (w.View(), finished) == Countdown(old(w.View())) &&
                View() == if finished then RestFinished(old(View()), workMinutes) else old(View())
      ensures w in old(restWindowList) ==> (finished <==> old(w.remainingSeconds) - 1 <= 0)
      ensures !finished ==> restWindowList == old(restWindowList) && w.View() == Countdown(old(w.View())).0
      ensures finished && w in old(restWindowList) ==> w.View() == CloseWindow(Countdown(old(w.View())).0)
      ensures finished ==> forall i :: 0 <= i < |old(restWindowList)| && old(restWindowList)[i] != w ==>
                old(restWindowList)[i].View() == CloseWindow(old(restWindowList[i].View()))
      ensures finished ==> forall i :: 0 <= i < |old(restWindowList)| ==>
                old(restWindowList)[i].View().stage == Closed && !Armed(old(restWindowList)[i].View())
    {
      ghost var before := View();
      ghost var listed := w in restWindowList;
      if listed {
        assert w == restWindowList[0] by {
          var i :| 0 <= i < |restWindowList| && restWindowList[i] == w;
          assert OverlayOk(View().windows[i], i);
        }
        PrimaryTimeoutKeepsCoherent(before, workMinutes);
      }
      finished := w.UpdateCountdown();
      if listed {
        ghost var counted := before.(windows := before.windows[0 := w.View()]);
        ViewsPointwise(restWindowList, counted.windows);
        assert View() == counted;
      } else {
        assert View() == before;
      }
      if finished {
        ghost var closing := restWindowList;
        ghost var counted := Views(closing);
        OnRestFinished(workMinutes);
        forall i | 0 <= i < |closing|
          ensures closing[i].View() == CloseWindow(counted[i])
          ensures closing[i].View().stage == Closed && !Armed(closing[i].View())
        {
          assert OverlayOk(before.windows[i], i);
        }
      }
    }
  }
}
