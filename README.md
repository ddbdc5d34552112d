# NX Activity Log: navigation state of the application object

This project models the navigation state kept by `Main::Application`, the
application object of NX Activity Log, a Nintendo Switch homebrew that shows
play-time history. That state decides what the statistics screens show:

- **The viewed date and period.** The object keeps a date (`tm`, a C `struct tm`:
  `tm_year` counts years since 1900 and `tm_mon` runs 0..11). It also keeps a view
  period: Day, Month or Year. At start-up the date is snapped to the first instant
  of the configured period. The previous/next buttons step the date by one period,
  but never before 1 January 2000 or after 31 December 2060. The period picker
  re-anchors the date when the period changes. It moves onto today when today
  lies in the viewed period.
- **The change snapshot.** `timeChanged` reports whether the date or the period
  changed since its last call. It then takes a new snapshot.
- **The current screen and the screen stack.** `setScreen`, `pushScreen` and
  `popScreen` change them. A pop on an empty stack does nothing.
- **The deferred screen rebuild.** `reinitScreens` starts a two-step countdown.
  The main loop recreates the screens on the second iteration after the request.
  The same screen is shown again after the rebuild.

Files:

- `view_state.dfy` (module `ViewState`): the date, the periods, the clamped steps
  `StepBack` and `StepForward`, the picker's `Select`, and lemmas about them.
- `screens.dfy` (module `Screens`): the screen ids, the screen-stack semantics
  (`Apply`, `Replay`), the rebuild countdown (`ReinitStep`, `AfterIterations`),
  and lemmas about them.
- `application.dfy` (module `App`): the class `Application`. Its fields are the
  ones the source updates in place. Its methods mirror the source's code and are
  proved against the functions above.

Calls from `Application.cpp` into code outside it are parameters:

- `Utils::Time::increaseTm` and `decreaseTm` are function-valued parameters of
  type `(Tm, char) -> Tm`. The period's unit letter `'D'`, `'M'` or `'Y'` is
  passed to them.
- `Utils::Time::areDifferentDates` is a parameter of type `(Tm, Tm) -> bool`.
- `Utils::Time::getTmForCurrentTime` becomes a `now: Tm` argument.
- The configured view (`config->lView()`), the configured screen
  (`config->lScreen()`) and whether the program was started from a user's page
  are constructor arguments.
- `display->loop()` becomes the number of main-loop iterations given to `Run`; the screen handlers that run inside it are not interleaved with the countdown (see "## Left out").

## Model

| member | source | states |
|---|---|---|
| `App.Application.constructor` | Application/source/Application.cpp:48-101 | The time of day is 00:00:00. The date is the first day of the configured period that contains `now`: Year also resets the month (it falls through into Month), Month resets the day, Day keeps both. The snapshot equals the date and period. The countdown is idle and the create reason is Normal. The stack is empty. The screen is the configured one on a user page, UserSelect otherwise. |
| `ViewState.PeriodStartUnique` | Application/source/Application.cpp:48-65 | Two period starts that lie in the same period as `now` are equal, so the constructor's contract fixes the start-up date completely. |
| `App.Application.ReinitScreens` | Application/source/Application.cpp:112-115 | Records the reason and sets the countdown to Wait. |
| `App.Application.CreateScreens` | Application/source/Application.cpp:117-131 | The Settings screen receives the pending reason, and the reason then reverts to Normal. |
| `App.Application.SetScreen` | Application/source/Application.cpp:154-191 | The current screen becomes `s` and the stack is unchanged. This is the `SetTo` step of `Apply`. |
| `App.Application.PushScreen` | Application/source/Application.cpp:193-201 | The current screen is appended to the stack and the screen is unchanged. This is the `Push` step of `Apply`. |
| `App.Application.PopScreen` | Application/source/Application.cpp:203-214 | On a non-empty stack, the screen becomes the top entry, which is removed. On an empty stack, screen and stack are unchanged. This is the `Pop` step of `Apply`. |
| `Screens.PushPopRestores` | Application/source/Application.cpp:193-214 | A push followed by a pop restores both the screen and the stack. |
| `Screens.ReplayKeepsBase` | Application/source/Application.cpp:193-214 | Take any sequence of set/push/pop calls in which no prefix pops more than it pushed. It leaves the starting stack untouched as a prefix, and adds pushes-minus-pops entries. |
| `Screens.VisitRestores` | Application/source/Application.cpp:193-214 | Push, then any balanced navigation, then pop: the screen and the stack are exactly as before. |
| `App.Application.DecreaseDate` | Application/source/Application.cpp:216-243 | The date does not change at the first period of the window: 1 Jan 2000 (Day), Jan 2000 (Month), 2000 (Year). Otherwise it becomes `decreaseTm(tm, letter)` with the period's letter. The period is not modified. |
| `App.Application.IncreaseDate` | Application/source/Application.cpp:245-272 | The date does not change at the last period of the window: 31 Dec 2060 (Day), Dec 2060 (Month), 2060 (Year). Otherwise it becomes `increaseTm(tm, letter)`. The period is not modified. |
| `ViewState.StepForwardUndoesStepBack` | Application/source/Application.cpp:216-272 | Stepping back and then forward returns the original date, provided neither step was at a bound and the calendar helpers undo each other on that date. |
| `ViewState.StepBackUndoesStepForward` | Application/source/Application.cpp:216-272 | Stepping forward and then back returns the original date, under the mirrored conditions. |
| `ViewState.StepBackUndoneInWindow` | Application/source/Application.cpp:216-272 | Month and Year views: inside the window, from any period but the first, stepping back and then forward returns the original date. The helpers must move exactly one period and undo each other on it. The clamp never blocks the undo; this is proved, not assumed. |
| `ViewState.StepForwardUndoneInWindow` | Application/source/Application.cpp:216-272 | The mirror image: from any period but the last, stepping forward and then back returns the original date. |
| `ViewState.StepBackStaysInWindow` | Application/source/Application.cpp:216-243 | Month and Year views, with a `decreaseTm` that moves exactly one period back: the bound test on the fields is equivalent to "this is the window's first period". Stepping back lowers the period number by one except there, and never leaves 2000..2060. |
| `ViewState.StepForwardStaysInWindow` | Application/source/Application.cpp:245-272 | The same for stepping forward: it stops exactly at the last period of the window and never passes 2060. |
| `ViewState.PeriodEntries` | Application/source/Application.cpp:303-337 | The picker lists Day, Month and Year in that order. An entry is ticked exactly when it is the period in use. |
| `App.Application.CreatePeriodPicker` | Application/source/Application.cpp:303-337 | Returns those three entries, with the period in use ticked. |
| `ViewState.Select` | Application/source/Application.cpp:305-335 | The new period is the chosen one. The year and the time of day never change. Choosing the period in use changes nothing. Choosing another period leaves the date aligned to it: Month gives day 1, Year gives January 1. |
| `ViewState.SelectZooms` | Application/source/Application.cpp:305-335 | Zooming out moves to the start of the enclosing period. Zooming in moves to today's part of the viewed period if today lies in it. Otherwise it moves to the viewed date's own part. |
| `ViewState.SelectKeepsToday` | Application/source/Application.cpp:307-322 | After switching period, the view contains today exactly when the coarser of the old and new periods contained today before (both directions). |
| `App.Application.PickDay` | Application/source/Application.cpp:305-316 | The view becomes `Select(view, Day, now)`. |
| `App.Application.PickMonth` | Application/source/Application.cpp:317-328 | The view becomes `Select(view, Month, now)`. |
| `App.Application.PickYear` | Application/source/Application.cpp:329-335 | The view becomes `Select(view, Year, now)`, whatever `now` is. |
| `App.Application.Time` | Application/source/Application.cpp:374-376 | Returns the viewed date. |
| `App.Application.Period` | Application/source/Application.cpp:378-380 | Returns the view period. |
| `App.Application.TimeChanged` | Application/source/Application.cpp:382-391 | Returns `areDifferentDates(tm, snapshot) or period != snapshot period`, then sets the snapshot to the current date and period. The date and period are unchanged. |
| `App.Application.LoopIteration` | Application/source/Application.cpp:419-430 | Wait becomes True without a rebuild. True becomes False with a rebuild: Settings gets the recorded reason and the reason reverts to Normal. False stays False. The screen id is the same afterwards. |
| `App.Application.Run` | Application/source/Application.cpp:417-432 | After `frames` iterations in which no handler calls back into the application, the countdown state and the number of rebuilds are those of `AfterIterations`. Each rebuild hands the Settings screen the reason recorded before the loop (there is at most one). Without a rebuild the reason keeps its old value; after one it is Normal. |
| `Screens.IdleStaysIdle` | Application/source/Application.cpp:419-431 | With no request pending, the loop never rebuilds, however long it runs. |
| `Screens.CountdownSettles` | Application/source/Application.cpp:419-431 | From any state, two or more iterations leave the countdown idle. A pending request (Wait or True) has then been served by exactly one rebuild. |
| `Screens.RequestServedOnSecondIteration` | Application/source/Application.cpp:112-115 | After a request (Wait), the rebuild happens on the second iteration and not before. The state runs Wait, True, then False from then on. |

## Left out

- `include/PlayData.hpp` is a declaration-only header. Play-event loading, session reconstruction, recent statistics and the list of logged title ids have no code to model, so they are not part of this model.
- Calendar arithmetic (`increaseTm`, `decreaseTm`, `areDifferentDates`, `getTmForCurrentTime`) lives in utilities that are not part of this model. These are parameters, so nothing is assumed about them except in the lemmas that state their hypotheses explicitly.
- ViewState.StepBackStaysInWindow: covers the Month and Year views only. For the Day view, the same statement needs the number of days in each month, which is calendar arithmetic.
- ViewState.StepForwardStaysInWindow: covers the Month and Year views only, for the same reason.
- ViewState.StepBackUndoneInWindow: covers the Month and Year views only, for the same reason. For the Day view, the general `StepForwardUndoesStepBack` states the round trip with the bound condition as a hypothesis.
- ViewState.StepForwardUndoneInWindow: covers the Month and Year views only, for the same reason.
- App.Application.Run: `display->loop()` is modelled as a plain count of iterations. In the source, every screen handler runs inside that call (the screens hold `this`, lines 118-127). So `setScreen`, `pushScreen`, `popScreen`, `reinitScreens`, the date steps and the picker callbacks can all happen between iterations. `Run`'s contract, including that the screen id is unchanged, holds only for frames in which no handler calls back into the application. Interleaving those calls with the countdown is not modelled.
- `Tm` keeps only year, month, day, hour, minute and second. `tm_wday`, `tm_yday` and `tm_isdst` are not read or written by the modelled code.
- `ViewPeriod` has the three values Day, Month and Year. The `default:` branches of `decreaseDate`, `increaseDate` and `createDatePicker` cannot be reached with these values, so they are not modelled. The enum's own declaration is not part of this model.
- `ScreenCreate`: only `Normal` is named in this file. The other reasons are opaque tags (`Requested(code)`).
- All Aether display calls are left out: screen construction and deletion, `dropScreen`, `display->setScreen`/`pushScreen`/`popScreen`, the `onPush`/`onPop` notifications of the recent-activity screen, overlays, the date picker, fades, theme and background image, and localised strings. `LoopIteration` reports a rebuild as a returned value instead.
- Services, Curl, the update check on an `std::async` thread, update installation, `appletRequestExitToSelf` and the destructor's `delete` loops: these are I/O, concurrency and memory management.
- Configuration reading and the user and title vectors, including `activeUser`, `activeTitle`, `setActiveUser`, `setActiveTitle` and `titleVector`. These are system objects. The source indexes them without bounds checks, and no bounds contract is invented for them.
- The language-setup failure path in the constructor and `exit()` are left out. The failure path calls `this->display->exit()` at line 30, before `display` is assigned at line 78, so it goes through a pointer that is not yet set.
