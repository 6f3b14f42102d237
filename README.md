# ZenTimer countdown core, modelled in Dafny

ZenTimer is a single-screen Android focus timer. Its logic is the countdown
state machine in `TimerViewModel`: one immutable `TimerUiState` record that
every operation replaces by an updated copy, plus a handle to the coroutine
that counts down once per second. The main screen adds pure arithmetic on
durations: `getHMSFromMillis` and the `HH : MM : SS` display of `formatTime`.
The settings sheet adds a six-digit custom-time editor with a guard that
only submits non-zero durations.

The model has five modules:

- `ViewModel` (`view_model.dfy`). It holds the state record, the timer job
  as the flag `timerJobActive`, and each operation as a pure transition
  function on `Machine` (record plus job flag). Each function states the
  invariant it keeps and what it leaves unchanged. The class
  `TimerViewModel` holds the same state as mutable fields. Its methods
  (`ToggleTimer`, `StartTimer`, `PauseTimer`, `ResetTimer`, `SetTime`,
  `SetCustomTime`, `UpdateFont`, `ToggleTheme`, `ShowSettings`, `Tick`) are
  proved to move the state exactly as the transition functions do.
- `TimerLemmas` (`timer_lemmas.dfy`). It proves properties that span several
  operations: the countdown run to zero, toggle twice, reset idempotence, the
  invariant over any sequence of operations, and two end-to-end sessions.
- `Format` (`time_format.dfy`). It models `getHMSFromMillis` and
  `formatTime`, together with a parser `ParseTime` for the display text. The
  parser reads the display back, which shows what the renderer promises.
- `Settings` (`settings_sheet.dfy`). It models the digit selectors, the
  tens/ones split and join, and the `SettingsSheet` digit state with its
  "Set Custom Time" guard.
- `Screen` (`main_screen.dfy`). It models the start-hint condition and the
  sheet callbacks that call the view-model.

**How the coroutine is modelled.** `viewModelScope` dispatches immediately
on the main thread. So `launch` runs the loop body synchronously up to its
first `delay(1000)`. Starting the timer therefore runs the loop-head check
at once: with no time left it stops at 0. Each later resumption (`Tick`,
`Advance`) subtracts 1000 ms and runs the check again before it suspends.
Cancelling the job means the coroutine never resumes, so a tick without an
active job changes nothing. This is why `setCustomTime(0, 0, 5)`, a toggle
and five ticks leave the timer stopped at 0 with no sixth tick.

**The invariant.** `Inv` says:

- 0 ≤ remaining ≤ initial;
- both values are whole seconds;
- `isRunning` equals "a countdown job exists" (so there is at most one job);
- a running timer has time left.

Every operation keeps `Inv` (`TimerLemmas.RunKeepsInv`), so the remaining
time is never negative.

**Two behaviours of the code worth knowing.**

- `formatTime` always prints three zero-padded fields joined by `" : "`,
  even when the hours are zero (MainActivity.kt:430-438; `Format.FormatTimeShape`).
- `toggleTimer` starts a stopped timer even when 0 ms are left
  (TimerViewModel.kt:63). The loop's first check then stops it at once
  (TimerViewModel.kt:70-77), so the state is left unchanged
  (`ViewModel.Toggle`, `ViewModel.Start`).

## Model

| member | source | states |
|---|---|---|
| ViewModel.DefaultUiState | app/src/main/java/com/example/zenfocus/viewmodel/TimerViewModel.kt:26-34 | the default record: 1,500,000 ms remaining and initial, not running, font MODERN, empty clock string, sheet hidden, dark theme on |
| ViewModel.Initial | app/src/main/java/com/example/zenfocus/viewmodel/TimerViewModel.kt:38-42 | a new view-model holds the default record with no countdown job, which satisfies the invariant |
| ViewModel.LoopCheck | app/src/main/java/com/example/zenfocus/viewmodel/TimerViewModel.kt:72-77 | with remaining ≤ 0 the timer ends stopped at exactly 0 and the job ends; otherwise nothing changes; initial and presentation untouched |
| ViewModel.Start | app/src/main/java/com/example/zenfocus/viewmodel/TimerViewModel.kt:67-82 | ignored while a job is active (at most one loop); otherwise, with time left, running with the job active and remaining unchanged; with no time left, the loop's first check leaves it stopped at 0 with no job; keeps the invariant |
| ViewModel.Pause | app/src/main/java/com/example/zenfocus/viewmodel/TimerViewModel.kt:84-87 | not running, no job, remaining, initial and presentation unchanged; keeps the invariant |
| ViewModel.Toggle | app/src/main/java/com/example/zenfocus/viewmodel/TimerViewModel.kt:59-65 | running: pauses with remaining unchanged; stopped with time left: runs with the job started; stopped at 0: no change; keeps the invariant |
| ViewModel.Reset | app/src/main/java/com/example/zenfocus/viewmodel/TimerViewModel.kt:89-94 | not running, no job, remaining = initial = the old initial, presentation unchanged; keeps the invariant |
| ViewModel.WithTime | app/src/main/java/com/example/zenfocus/viewmodel/TimerViewModel.kt:96-106 | initial = remaining = minutes·60,000, not running, job cancelled, presentation unchanged; the result satisfies the invariant |
| ViewModel.WithCustomTime | app/src/main/java/com/example/zenfocus/viewmodel/TimerViewModel.kt:121-131 | initial = remaining = (h·3600 + m·60 + s)·1000, not running, job cancelled, presentation unchanged; the result satisfies the invariant |
| ViewModel.WithFont | app/src/main/java/com/example/zenfocus/viewmodel/TimerViewModel.kt:108-110 | only the selected font changes |
| ViewModel.WithTheme | app/src/main/java/com/example/zenfocus/viewmodel/TimerViewModel.kt:112-114 | only the theme flag changes |
| ViewModel.WithSettingsShown | app/src/main/java/com/example/zenfocus/viewmodel/TimerViewModel.kt:116-118 | only the sheet-visibility flag changes |
| ViewModel.Advance | app/src/main/java/com/example/zenfocus/viewmodel/TimerViewModel.kt:72-80 | one tick without a job changes nothing; with one, remaining becomes max(0, remaining − 1000) and the timer and its job keep running exactly while time is left; initial and presentation untouched; keeps the invariant |
| ViewModel.TimerViewModel.constructor | app/src/main/java/com/example/zenfocus/viewmodel/TimerViewModel.kt:36-46 | a new view-model holds the default record, no countdown job, and satisfies the invariant |
| ViewModel.TimerViewModel.ToggleTimer | app/src/main/java/com/example/zenfocus/viewmodel/TimerViewModel.kt:59-65 | the new state is Toggle of the old; invariant kept |
| ViewModel.TimerViewModel.StartTimer | app/src/main/java/com/example/zenfocus/viewmodel/TimerViewModel.kt:67-82 | the new state is Start of the old; invariant kept |
| ViewModel.TimerViewModel.RunLoopCheck | app/src/main/java/com/example/zenfocus/viewmodel/TimerViewModel.kt:72-77 | the new state is LoopCheck of the old |
| ViewModel.TimerViewModel.Tick | app/src/main/java/com/example/zenfocus/viewmodel/TimerViewModel.kt:78-80 | the new state is Advance of the old; invariant kept |
| ViewModel.TimerViewModel.RunCountdown | app/src/main/java/com/example/zenfocus/viewmodel/TimerViewModel.kt:71-81 | the loop left undisturbed ends with no job, not running, at 0 if it was active, after exactly remaining/1000 ticks |
| ViewModel.TimerViewModel.PauseTimer | app/src/main/java/com/example/zenfocus/viewmodel/TimerViewModel.kt:84-87 | the new state is Pause of the old; invariant kept |
| ViewModel.TimerViewModel.ResetTimer | app/src/main/java/com/example/zenfocus/viewmodel/TimerViewModel.kt:89-94 | the new state is Reset of the old; invariant kept |
| ViewModel.TimerViewModel.SetTime | app/src/main/java/com/example/zenfocus/viewmodel/TimerViewModel.kt:96-106 | the new state is WithTime of the old; invariant kept |
| ViewModel.TimerViewModel.SetCustomTime | app/src/main/java/com/example/zenfocus/viewmodel/TimerViewModel.kt:121-131 | the new state is WithCustomTime of the old; invariant kept |
| ViewModel.TimerViewModel.UpdateFont | app/src/main/java/com/example/zenfocus/viewmodel/TimerViewModel.kt:108-110 | the new state is WithFont of the old; invariant kept |
| ViewModel.TimerViewModel.ToggleTheme | app/src/main/java/com/example/zenfocus/viewmodel/TimerViewModel.kt:112-114 | the new state is WithTheme of the old; invariant kept |
| ViewModel.TimerViewModel.ShowSettings | app/src/main/java/com/example/zenfocus/viewmodel/TimerViewModel.kt:116-118 | the new state is WithSettingsShown of the old; invariant kept |
| TimerLemmas.TicksKeepInv | app/src/main/java/com/example/zenfocus/viewmodel/TimerViewModel.kt:72-80 | any number of ticks keeps the invariant, so remaining never goes negative and never grows; initial and presentation untouched |
| TimerLemmas.CountdownBeforeZero | app/src/main/java/com/example/zenfocus/viewmodel/TimerViewModel.kt:72-80 | from n whole seconds, after k < n ticks the timer still runs with (n − k)·1000 ms left |
| TimerLemmas.CountdownReachesZero | app/src/main/java/com/example/zenfocus/viewmodel/TimerViewModel.kt:72-80 | from n whole seconds, exactly n ticks leave the timer stopped at 0 with the job ended |
| TimerLemmas.CountdownStaysAtZero | app/src/main/java/com/example/zenfocus/viewmodel/TimerViewModel.kt:74-76 | after the countdown ends, further ticks change nothing |
| TimerLemmas.ToggleTwiceRestores | app/src/main/java/com/example/zenfocus/viewmodel/TimerViewModel.kt:59-87 | from a stopped timer, two toggles with no tick between give back the same state |
| TimerLemmas.ToggleFlips | app/src/main/java/com/example/zenfocus/viewmodel/TimerViewModel.kt:59-70 | with time left a toggle flips the running flag and keeps the remaining time |
| TimerLemmas.ResetIdempotent | app/src/main/java/com/example/zenfocus/viewmodel/TimerViewModel.kt:89-94 | reset twice equals reset once |
| TimerLemmas.RunKeepsInv | app/src/main/java/com/example/zenfocus/viewmodel/TimerViewModel.kt:59-131 | any sequence of operations and ticks keeps the invariant |
| TimerLemmas.InitialChangesOnlyByConfiguration | app/src/main/java/com/example/zenfocus/viewmodel/TimerViewModel.kt:96-131 | a sequence without setTime/setCustomTime never changes the configured duration |
| TimerLemmas.DefaultSessionScenario | app/src/main/java/com/example/zenfocus/viewmodel/TimerViewModel.kt:26-94 | default, toggle, 3 ticks: 1,497,000 ms and running; toggle: paused at 1,497,000; reset: 1,500,000 |
| TimerLemmas.FiveSecondScenario | app/src/main/java/com/example/zenfocus/viewmodel/TimerViewModel.kt:59-131 | setCustomTime(0,0,5), toggle, 5 ticks: stopped at 0; a sixth tick changes nothing |
| Format.GetHMSFromMillis | app/src/main/java/com/example/zenfocus/MainActivity.kt:185-191 | the split is normal: minutes and seconds below 60 |
| Format.GetHMSFromMillisSplits | app/src/main/java/com/example/zenfocus/MainActivity.kt:185-191 | minutes < 60, seconds < 60, h·3600 + m·60 + s = millis / 1000 |
| Format.HMSRoundTrip | app/src/main/java/com/example/zenfocus/MainActivity.kt:185-191 | the split is unique: a normal (h, m, s) is what (h·3600 + m·60 + s)·1000 splits into |
| Format.ZeroPad2RoundTrip | app/src/main/java/com/example/zenfocus/MainActivity.kt:437 | `%02d` gives at least two digits, exactly two below 100, that read back as the number |
| Format.FormatTime | app/src/main/java/com/example/zenfocus/MainActivity.kt:430-438 | the display is at least 12 characters, exactly 12 when the hours are below 100 |
| Format.FormatTimeRoundTrip | app/src/main/java/com/example/zenfocus/MainActivity.kt:430-438 | parsing the display gives back exactly the hours, minutes and seconds of the duration |
| Format.FormatTimeShape | app/src/main/java/com/example/zenfocus/MainActivity.kt:430-438 | the display is always three digit fields joined by " : ", hours at least two digits, minutes and seconds exactly two |
| Format.FormatTimeWholeSeconds | app/src/main/java/com/example/zenfocus/MainActivity.kt:431 | formatTime(x) = formatTime((x/1000)·1000): the sub-second part never shows |
| Format.FormatTimeSameSeconds | app/src/main/java/com/example/zenfocus/MainActivity.kt:430-434 | two durations display the same exactly when their whole seconds are equal |
| Format.FormatTimeExamples | app/src/main/java/com/example/zenfocus/MainActivity.kt:430-438 | 0 → "00 : 00 : 00", 61000 → "00 : 01 : 01", 3661000 → "01 : 01 : 01", 1500000 → "00 : 25 : 00" |
| Settings.MaxDigit | app/src/main/java/com/example/zenfocus/MainActivity.kt:331-340 | M1 and S1 (tens of minutes and of seconds) stop at 5; the other four selectors go up to 9 |
| Settings.SelectorDigits | app/src/main/java/com/example/zenfocus/MainActivity.kt:387 | a selector lists maxDigit + 1 entries, the i-th being i |
| Settings.SelectorOffers | app/src/main/java/com/example/zenfocus/MainActivity.kt:380-387 | a selector offers a digit exactly when it is at most its maximum |
| Settings.Tens | app/src/main/java/com/example/zenfocus/MainActivity.kt:214-219 | the tens digit t of v satisfies 10·t ≤ v < 10·t + 10 |
| Settings.Ones | app/src/main/java/com/example/zenfocus/MainActivity.kt:214-219 | the ones digit of v is at most 9 and differs from v by a multiple of 10 |
| Settings.SplitJoin | app/src/main/java/com/example/zenfocus/MainActivity.kt:214-219 | (v/10)·10 + v%10 = v; the ones digit is ≤ 9; the tens digit is ≤ 9 exactly when v < 100 and ≤ 5 when v < 60 |
| Settings.Join | app/src/main/java/com/example/zenfocus/MainActivity.kt:234-236 | joining a tens digit and a ones digit ≤ 9, then splitting, gives the digits back |
| Settings.SelectedFieldBelow60 | app/src/main/java/com/example/zenfocus/MainActivity.kt:335-340 | a minutes or seconds field picked with a 0..5 tens selector and a 0..9 ones selector is at most 59 |
| Settings.SettingsSheet.constructor | app/src/main/java/com/example/zenfocus/MainActivity.kt:209-219 | the opened sheet shows the split of the configured duration and so its whole seconds; every digit fits its selector below 100 hours |
| Settings.SettingsSheet.SelectDigit | app/src/main/java/com/example/zenfocus/MainActivity.kt:331-340 | a picked digit replaces its slot only, and the digit ranges stay valid |
| Settings.SettingsSheet.OnSetCustomTime | app/src/main/java/com/example/zenfocus/MainActivity.kt:233-240 | the callback fires exactly when the shown duration is positive, with the shown fields; with valid digits hours ≤ 99, minutes and seconds ≤ 59 |
| Screen.HintVisible | app/src/main/java/com/example/zenfocus/MainActivity.kt:147 | the start hint shows exactly while stopped with the full configured duration left; its contract is stated by the lemmas below |
| Screen.HintInitially | app/src/main/java/com/example/zenfocus/MainActivity.kt:147 | the start hint shows on a fresh view-model |
| Screen.HintAfterReset | app/src/main/java/com/example/zenfocus/MainActivity.kt:147 | the start hint shows after reset |
| Screen.HintAfterSetTime | app/src/main/java/com/example/zenfocus/MainActivity.kt:147 | the start hint shows after setTime |
| Screen.HintAfterSetCustomTime | app/src/main/java/com/example/zenfocus/MainActivity.kt:147 | the start hint shows after setCustomTime |
| Screen.HintHidden | app/src/main/java/com/example/zenfocus/MainActivity.kt:147 | starting with time left hides the hint, and every tick of an active countdown keeps it hidden, including the one that reaches 0 |
| Screen.PresetsValid | app/src/main/java/com/example/zenfocus/MainActivity.kt:305 | every preset (10, 25, 45, 60 minutes) is positive and within the setTime bound |
| Screen.OnTimeSet | app/src/main/java/com/example/zenfocus/MainActivity.kt:169-172 | a preset sets a positive duration, stops the timer and closes the sheet |
| Screen.OnReset | app/src/main/java/com/example/zenfocus/MainActivity.kt:164-167 | reset then close the sheet; the hint shows |
| Screen.OnCustomTimeSet | app/src/main/java/com/example/zenfocus/MainActivity.kt:173-176 | an all-zero sheet changes nothing; otherwise the view-model gets the shown duration, which is positive, and the sheet closes |

## Left out

- `startClock` and `currentTimeString` updates: the clock reads the wall clock (`LocalTime.now()`) and formats through `DateTimeFormatter`, whose behaviour is not part of this model; the field is kept and every modelled operation leaves it unchanged.
- Real time and concurrency: `delay(1000)`, drift, `MutableStateFlow` publication and cooperative-cancellation timing are not modelled; a tick is an explicit step and the job is a flag.
- `Locale.getDefault()` digit rendering in `String.format`: digits are ASCII.
- ViewModel.WithTime: does not model 32-bit wrap-around of `minutes * 60`; callers must keep it within `Int` and pass a non-negative count, as the preset buttons (10, 25, 45, 60) do.
- ViewModel.WithCustomTime: does not model 32-bit wrap-around of `hours * 3600 + minutes * 60 + seconds`; callers must keep it within `Int` with non-negative fields, as the sheet (at most 99:59:59) does.
- Format.GetHMSFromMillisSplits: does not model the `.toInt()` truncation of hours, which only matters from 2^31 hours on; durations are non-negative.
- All Compose UI: layout, dropdown expansion, the tap and long-press gestures that call `toggleTimer` and `showSettings(true)`, the dismiss callback, the breathing alpha animation (floating point) and the window flags in `onCreate`.
- Theme.kt, Type.kt and Color.kt: colour and font constants and a dark/light switch calling Material APIs, with no logic to verify; `TimerFont`'s font families and labels are left out with them.
