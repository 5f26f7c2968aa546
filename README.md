# Eye-protection scheduler, modelled in Dafny

`eye_protect.py` is a PyQt5 desktop tool that alternates work and rest. A
main window holds three spin boxes and a start/stop button:
- the work length in minutes;
- the rest length in minutes plus seconds.

While the tool runs, a work timer fires once the work length has passed.
The controller then opens one black full-screen `RestWindow` per screen and
starts a one-second sync timer. The sync timer pushes a shared counter to
every window.

Only the window on screen 0 is *primary*. It owns a one-second countdown
timer of its own, and when that countdown reaches 0 it signals
`rest_finished`. The controller then closes every window and restarts the
work timer if the tool is still running.

This project models that scheduler. It has two layers.

- **Values.** Transitions are functions on values.
  - `Overlays` holds one rest window, as an `Overlay`.
  - `Sessions` holds the whole controller state, as a `Session`.
  - `SessionProperties` proves properties that span several callbacks.
- **Objects.** Classes mirror the Python objects.
  - `RestWindows.RestWindow` and `Controllers.Controller` update their
    fields in place.
  - Each class reads its fields back as the value through `View()`.
  - Every method is proved to move `View()` exactly as a function of the
    value layer does. Most share the name: `ToggleTimer` follows
    `Sessions.Toggle`. `Controller.PrimaryTimeout` follows
    `Sessions.PrimaryTimeout` for the listed primary, and
    `Overlays.Countdown` plus `Sessions.RestFinished` for a primary that is
    not listed.
  - The controller keeps the invariant `Sessions.Coherent` and never lists a
    window twice.
- **Shared pieces.**
  - `Timers` models a `QTimer` as an `active` flag plus an interval in
    milliseconds.
  - `TimeText` models the `MM:SS` label text: `divmod` by 60, with each
    field formatted as `{:02d}`.

A timeout is an explicit call that the environment may make while its timer
is active. The two one-second timers fire in no fixed order: the primary's
own countdown and the sync timer's overwrite are both applied to the
primary window. The following is proved about any interleaving:
- A rest always ends. Every timeout spends a quadratic budget.
- If every second the primary's timer fires first, a rest of `c >= 1`
  seconds lasts exactly `c` seconds.
- If the sync timer fires first, a rest of `c >= 2` seconds lasts only
  `c - 1` seconds. A rest of 1 second still lasts 1 second.
- With no screen at all, no primary window exists. The work timer is then
  never restarted.

## Model

| member | source | states |
|---|---|---|
| TimeText.DigitChar | eye_protect.py:102 | the character written for a digit 0..9 is a decimal digit whose value is that digit |
| TimeText.Decimal | eye_protect.py:102 | the decimal text of a natural number is all digits, non-empty, a single digit exactly for n < 10, without a leading zero otherwise |
| TimeText.ParseDecimalOfDecimal | eye_protect.py:102 | reading back the decimal text of n gives n |
| TimeText.Pad2 | eye_protect.py:102 | `{:02d}`: at least two characters, exactly two digits for 0..99, all digits for n >= 0, no leading zero from 10 on, a leading '-' for a negative value |
| TimeText.Pad2Value | eye_protect.py:102 | the padded text of a non-negative value reads back as that value |
| TimeText.FormatTime | eye_protect.py:100-102 | the label text is a minutes field, ':' and a two-digit seconds field below 60; for a count below 6000 the text is exactly five characters; a negative count starts with '-' |
| TimeText.FormatTimeRoundTrip | eye_protect.py:100-102 | every non-negative count reads back from its label text |
| TimeText.FormatTimeNegative | eye_protect.py:100-102 | the label of a negative count is not an `MM:SS` text |
| TimeText.FormatTimeInjective | eye_protect.py:100-102 | two non-negative counts have the same label exactly when they are equal |
| TimeText.FormatTimeExamples | eye_protect.py:100-102 | 125 shows as "02:05", 59 as "00:59", 0 as "00:00", 3659 as "60:59" |
| Overlays.Fresh | eye_protect.py:14-23 | a new window has count 0 and an empty label, and is not yet shown; it has a stopped timer if it is primary and no timer otherwise |
| Overlays.Refresh | eye_protect.py:100-102 | `update_display`: the label becomes the formatted current count; nothing else changes |
| Overlays.StartRest | eye_protect.py:52-72 | the count becomes the total and the label shows it; the window is shown on the given screen; a primary's timer runs at 1000 ms; a secondary stays without a timer; well-formedness is kept |
| Overlays.Countdown | eye_protect.py:74-93 | the count drops by exactly 1; `finished` holds exactly when the new count is 0 or less, and then the timer stops; otherwise the timer is untouched; the label shows the new count |
| Overlays.SetDisplayTime | eye_protect.py:95-98 | the count and the label become the given value; the timer, the primary flag and the screen stay as they were |
| Overlays.CloseRequest | eye_protect.py:115-123 | a close request is accepted exactly when it does not come from the window system; an accepted one closes the window; an ignored one changes nothing |
| Overlays.CloseWindow | eye_protect.py:104-109 | the window ends closed; a well-formed window's timer is no longer running; a timer that was not running is left as it was, and the interval is kept; the count and the label are kept |
| Sessions.Initial | eye_protect.py:126-141 | the controller starts not running, with both timers stopped, no window listed and the counter at 0 |
| Sessions.Toggle | eye_protect.py:187-212 | when idle with a rest total of 0 or less, only the status changes; when idle with a positive total, running starts with the work timer at work minutes × 60000 ms; when running, the work timer stops and running ends, while the windows, the sync timer and the counter are untouched |
| Sessions.WorkFinished | eye_protect.py:214-245 | the work timer stops; the counter becomes mins·60+secs; one window per screen, in screen order; window i is primary iff i = 0; every window is on its screen with count and label equal to the counter; only the primary has a timer, and it runs; the sync timer runs at 1000 ms |
| Sessions.SyncScreens | eye_protect.py:247-257 | the counter drops by exactly 1; below 0, only the sync timer stops and no window changes; otherwise every window's count and label become the counter, and no timer changes |
| Sessions.RestFinished | eye_protect.py:259-272 | the sync timer is stopped and no window is listed; the work timer restarts at work minutes × 60000 ms exactly when running; otherwise the work timer and the status are left alone |
| Sessions.PrimaryTimeout | eye_protect.py:74-93 | a timeout of the listed primary: above 0 only the primary's count and label drop by 1; at 0 or below it is `on_rest_finished` |
| Sessions.InitialCoherent | eye_protect.py:126-141 | the initial state satisfies the invariant |
| Sessions.ToggleKeepsCoherent | eye_protect.py:187-212 | start/stop keeps the invariant |
| Sessions.WorkFinishedCoherent | eye_protect.py:214-245 | whatever the state before, a new rest starts coherent |
| Sessions.SyncKeepsCoherent | eye_protect.py:247-257 | a sync timeout keeps the invariant |
| Sessions.RestFinishedCoherent | eye_protect.py:259-272 | the end of a rest leaves a coherent state, whenever the counter has not dropped below -1 |
| Sessions.PrimaryTimeoutKeepsCoherent | eye_protect.py:74-93 | a timeout of the listed primary keeps the invariant |
| SessionProperties.SyncSpendsBudget | eye_protect.py:247-257 | a sync timeout keeps the invariant and strictly lowers the rest budget |
| SessionProperties.PrimarySpendsBudget | eye_protect.py:74-93 | a primary timeout keeps the invariant and strictly lowers the rest budget |
| SessionProperties.NoBudgetNoRest | eye_protect.py:247-272 | in a coherent state the budget is 0 exactly when the sync timer is stopped and no window is listed, so no timeout can come |
| SessionProperties.PrimaryFirstSecond | eye_protect.py:74-93 | with the primary first, one second takes both counts from c to c-1, or ends the rest when c <= 1 |
| SessionProperties.PrimaryFirstCountsDown | eye_protect.py:247-257 | with the primary first, a rest of c seconds is still in progress after k < c seconds, both counts at c-k, and the work timer is untouched |
| SessionProperties.PrimaryFirstEnds | eye_protect.py:259-272 | with the primary first, a rest of c >= 1 seconds is over after exactly c seconds: no window, sync stopped, work timer restarted iff running |
| SessionProperties.SyncFirstSecond | eye_protect.py:247-257 | with the sync timer first, one second takes the counter to c-1 and the primary to c-2, or ends the rest when c <= 2 |
| SessionProperties.SyncFirstCountsDown | eye_protect.py:247-257 | with sync first, after k seconds (0 < k < c-1) the counter is c-k and the primary c-k-1 |
| SessionProperties.SyncFirstEnds | eye_protect.py:74-93 | with sync first, a rest of c >= 2 seconds is over after c-1 seconds |
| SessionProperties.NoScreensNoResume | eye_protect.py:227-245 | with no window listed and the work timer stopped, no number of seconds ever restarts the work timer or lists a window |
| SessionProperties.StartThenStop | eye_protect.py:187-212 | starting, then stopping before the work timer fires, leaves the tool stopped with no window created |
| SessionProperties.TwoScreenCycle | eye_protect.py:214-245 | one work minute, a five-second rest and two screens: two windows (the first primary) on their screens; with the primary first the rest ends after 5 seconds and a 60000 ms work timer runs; with sync first it ends after 4 |
| RestWindows.RestWindow.constructor | eye_protect.py:14-23 | the new object reads as `Overlays.Fresh` |
| RestWindows.RestWindow.UpdateDisplay | eye_protect.py:100-102 | the object moves as `Overlays.Refresh` |
| RestWindows.RestWindow.StartRest | eye_protect.py:52-72 | the object moves as `Overlays.StartRest` |
| RestWindows.RestWindow.UpdateCountdown | eye_protect.py:74-93 | the object and the returned `rest_finished` signal follow `Overlays.Countdown` |
| RestWindows.RestWindow.SetDisplayTime | eye_protect.py:95-98 | the object moves as `Overlays.SetDisplayTime` |
| RestWindows.RestWindow.CloseEvent | eye_protect.py:115-123 | the object and the accept/ignore answer follow `Overlays.CloseRequest` |
| RestWindows.RestWindow.CloseWindow | eye_protect.py:104-109 | the object moves as `Overlays.CloseWindow` |
| Controllers.OpenRestWindows | eye_protect.py:227-241 | the window-creating loop: one fresh, distinct window per screen, each as `Sessions.RestWindowFor` its index and screen |
| Controllers.SetDisplayTimes | eye_protect.py:255-257 | the overwrite loop: every listed window moves as `Overlays.SetDisplayTime` with the new counter |
| Controllers.Controller.constructor | eye_protect.py:126-141 | the new controller reads as `Sessions.Initial` and is valid |
| Controllers.Controller.ToggleTimer | eye_protect.py:187-212 | the controller moves as `Sessions.Toggle` and stays valid |
| Controllers.Controller.OnWorkFinished | eye_protect.py:214-245 | the controller moves as `Sessions.WorkFinished` and stays valid; the listed windows are fresh objects |
| Controllers.Controller.SyncScreens | eye_protect.py:247-257 | the controller and its windows move as `Sessions.SyncScreens`; the list itself is kept; validity is kept |
| Controllers.Controller.OnRestFinished | eye_protect.py:259-272 | the controller moves as `Sessions.RestFinished` and ends valid; each previously listed window moves as `Overlays.CloseWindow` |
| Controllers.Controller.PrimaryTimeout | eye_protect.py:74-93 | a countdown timeout of a primary window, plus the `on_rest_finished` it triggers. For the listed primary the controller moves as `Sessions.PrimaryTimeout`, and `finished` holds exactly when the old count minus 1 is 0 or less. When not `finished`, the list is kept and `w` follows `Overlays.Countdown`. For a primary that is not listed, the window follows `Overlays.Countdown` and the controller follows `Sessions.RestFinished` on its signal. When `finished`, every previously listed window other than `w` moves as `Overlays.CloseWindow`, a listed `w` is closed after its countdown, and every previously listed window ends closed with its timer not running. Validity is kept |

## Left out

- Widgets, layouts, palettes, style sheets, fonts and window flags are left out. Showing the window (`move`, `resize`, `showFullScreen`, `showNormal`) is reduced to a `Stage` value: created, shown on a screen geometry, or closed. None of this carries checkable logic.
- The Qt event loop and real time are left out. A timer is a flag and an interval, and each timeout is a method call the environment may make while the flag is active.
- `QApplication.screens()` is a call into Qt. Its result is the `screens` parameter, and each screen's geometry is an opaque `Geometry` value.
- `pyqtSignal` and `connect` are left out. The primary's `rest_finished` signal is the value `UpdateCountdown` returns, and `Controller.PrimaryTimeout` calls `OnRestFinished` when it is true. Only primary windows get the signal connection, and only they are passed to `PrimaryTimeout`.
- `keyPressEvent` is left out because it does nothing. The Qt event object in `closeEvent` is reduced to its `spontaneous` flag.
- Spin-box enabling and disabling, and the spin boxes' range clamping, are widget behaviour. The spin values are method parameters, with their ranges (work 1..240, rest minutes 0..60, rest seconds 0..59) as preconditions.
- Status and button texts are reduced to the `Status` enumeration. The text of the secondary info label is left out.
- The time label is kept as the count it was last rendered from. `Overlays.LabelText` gives the text (`TimeText.FormatTime` of that count), so every claim about the label is a claim about that text.
- Qt and Python destroying windows is left out.
- Controller.PrimaryTimeout over-approximates the program for a primary window that a later rest dropped from the list. `on_work_finished` clears the list without closing the old windows. The model keeps such a window alive and lets its countdown still reach the controller. The program most likely destroys that window, and its timer with it, as soon as the list no longer refers to it, so that timeout never arrives.
