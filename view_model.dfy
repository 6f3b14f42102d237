/**
 * The countdown state machine of the focus timer's view-model.
 *
 * The observable state is one immutable record (`TimerUiState`) that every
 * operation replaces by a modified copy; the view-model also holds a handle to
 * the countdown coroutine, modelled here as the flag `timerJobActive`.
 *
 * The coroutine scope dispatches immediately on the main thread, so launching
 * the countdown runs its body synchronously up to the first `delay(1000)`:
 * starting the timer performs the loop-head check at once, and every later
 * resumption of the coroutine (a `Tick`) subtracts one second and then runs
 * the loop-head check again before suspending.
 */
module ViewModel {

  /** The three display fonts; the font families and labels are presentation only. */
  datatype TimerFont = MODERN | DIGITAL | CLASSIC

  /** The shared state record, field for field. Durations are milliseconds. */
  datatype TimerUiState = TimerUiState(
    timeRemainingMillis: int,
    isRunning: bool,
    selectedFont: TimerFont,
    currentTimeString: string,
    showSettingsSheet: bool,
    initialTimeMillis: int,
    isDarkTheme: bool
  )

  /** The record together with the countdown job handle: the whole state of the view-model. */
  datatype Machine = Machine(ui: TimerUiState, timerJobActive: bool)

  /** 25 minutes, the default duration. */
  const DefaultMillis: int := 25 * 60 * 1000

  /** The largest value of a 32-bit Kotlin `Int`. */
  const IntMax: int := 0x7FFF_FFFF

  /** The largest value of a 64-bit Kotlin `Long`. */
  const LongMax: int := 0x7FFF_FFFF_FFFF_FFFF

  /** One second, the amount each tick subtracts. */
  const TickMillis: int := 1000

  /** The record built with every default argument of the data class. */
  function DefaultUiState(): (s: TimerUiState)
    ensures s.timeRemainingMillis == s.initialTimeMillis == 1_500_000
    ensures !s.isRunning && s.selectedFont == MODERN && s.isDarkTheme
    ensures !s.showSettingsSheet && s.currentTimeString == ""
  {
    TimerUiState(DefaultMillis, false, MODERN, "", false, DefaultMillis, true)
  }

  /** A freshly created view-model: default record and no countdown job. */
  function Initial(): (m: Machine)
    ensures Inv(m) && !m.timerJobActive && m.ui == DefaultUiState()
  {
    Machine(DefaultUiState(), false)
  }

  /**
   * The invariant every operation keeps: the remaining time lies between 0 and
   * the configured duration, both are whole seconds, the job exists exactly
   * while the timer is marked running, and a running timer has time left.
   */
  ghost predicate Inv(m: Machine)
  {
    && 0 <= m.ui.timeRemainingMillis <= m.ui.initialTimeMillis <= LongMax
    && m.ui.timeRemainingMillis % TickMillis == 0
    && m.ui.initialTimeMillis % TickMillis == 0
    && m.ui.isRunning == m.timerJobActive
    && (m.ui.isRunning ==> m.ui.timeRemainingMillis > 0)
  }

  /** The presentation fields (font, theme, sheet, clock string) agree. */
  predicate SamePresentation(a: TimerUiState, b: TimerUiState)
  {
    && a.selectedFont == b.selectedFont
    && a.isDarkTheme == b.isDarkTheme
    && a.showSettingsSheet == b.showSettingsSheet
    && a.currentTimeString == b.currentTimeString
  }

  /** The countdown fields (remaining, initial, running) and the job agree. */
  predicate SameCountdown(a: Machine, b: Machine)
  {
    && a.ui.timeRemainingMillis == b.ui.timeRemainingMillis
    && a.ui.initialTimeMillis == b.ui.initialTimeMillis
    && a.ui.isRunning == b.ui.isRunning
    && a.timerJobActive == b.timerJobActive
  }

  /**
   * The head of the countdown loop: with no time left it marks the timer
   * stopped at exactly 0 and the coroutine ends; otherwise nothing changes.
   */
  function LoopCheck(m: Machine): (r: Machine)
    ensures m.ui.timeRemainingMillis <= 0 ==>
      && r.ui.timeRemainingMillis == 0 && !r.ui.isRunning && !r.timerJobActive
    ensures m.ui.timeRemainingMillis > 0 ==> r == m
    ensures r.ui.initialTimeMillis == m.ui.initialTimeMillis && SamePresentation(r.ui, m.ui)
  {
    if m.ui.timeRemainingMillis <= 0 then
      Machine(m.ui.(isRunning := false, timeRemainingMillis := 0), false)
    else
      m
  }

  /**
   * startTimer: ignored while a countdown job is active (so at most one loop
   * exists); otherwise marks the timer running and launches the loop, whose
   * first check runs at once.
   */
  function Start(m: Machine): (r: Machine)
    ensures m.timerJobActive ==> r == m
    ensures Inv(m) ==> Inv(r)
    ensures !m.timerJobActive && m.ui.timeRemainingMillis > 0 ==>
      && r.ui.isRunning && r.timerJobActive
      && r.ui.timeRemainingMillis == m.ui.timeRemainingMillis
    ensures !m.timerJobActive && m.ui.timeRemainingMillis <= 0 ==>
      && r.ui.timeRemainingMillis == 0 && !r.ui.isRunning && !r.timerJobActive
    ensures r.ui.initialTimeMillis == m.ui.initialTimeMillis && SamePresentation(r.ui, m.ui)
  {
    if m.timerJobActive then m
    else LoopCheck(Machine(m.ui.(isRunning := true), true))
  }

  /** pauseTimer: cancels the job and clears the running flag; the remaining time stays. */
  function Pause(m: Machine): (r: Machine)
    ensures !r.ui.isRunning && !r.timerJobActive
    ensures r.ui.timeRemainingMillis == m.ui.timeRemainingMillis
    ensures r.ui.initialTimeMillis == m.ui.initialTimeMillis && SamePresentation(r.ui, m.ui)
    ensures Inv(m) ==> Inv(r)
  {
    Machine(m.ui.(isRunning := false), false)
  }

  /** toggleTimer: pause when the record says running, start otherwise. */
  function Toggle(m: Machine): (r: Machine)
    ensures Inv(m) ==> Inv(r)
    ensures Inv(m) && m.ui.isRunning ==>
      !r.ui.isRunning && !r.timerJobActive && r.ui.timeRemainingMillis == m.ui.timeRemainingMillis
    ensures Inv(m) && !m.ui.isRunning && m.ui.timeRemainingMillis > 0 ==>
      r.ui.isRunning && r.timerJobActive && r.ui.timeRemainingMillis == m.ui.timeRemainingMillis
    ensures Inv(m) && !m.ui.isRunning && m.ui.timeRemainingMillis == 0 ==> r == m
    ensures r.ui.initialTimeMillis == m.ui.initialTimeMillis && SamePresentation(r.ui, m.ui)
  {
    if m.ui.isRunning then Pause(m) else Start(m)
  }

  /** resetTimer: pause, then restore the remaining time to the configured duration. */
  function Reset(m: Machine): (r: Machine)
    ensures !r.ui.isRunning && !r.timerJobActive
    ensures r.ui.timeRemainingMillis == r.ui.initialTimeMillis == m.ui.initialTimeMillis
    ensures SamePresentation(r.ui, m.ui)
    ensures Inv(m) ==> Inv(r)
  {
    var p := Pause(m);
    Machine(p.ui.(timeRemainingMillis := p.ui.initialTimeMillis), p.timerJobActive)
  }

  /** What `setTime` and `setCustomTime` share: configure a duration, stop, cancel the job. */
  function Configure(m: Machine, millis: int): (r: Machine)
    ensures r.ui.initialTimeMillis == r.ui.timeRemainingMillis == millis
    ensures !r.ui.isRunning && !r.timerJobActive
    ensures SamePresentation(r.ui, m.ui)
    ensures 0 <= millis <= LongMax && millis % TickMillis == 0 ==> Inv(r)
  {
    Machine(m.ui.(initialTimeMillis := millis, timeRemainingMillis := millis, isRunning := false), false)
  }

  /** The callers' bound for `setTime`: `minutes * 60` must not overflow a Kotlin `Int`. */
  predicate ValidMinutes(minutes: int)
  {
    0 <= minutes && minutes * 60 <= IntMax
  }

  /** The callers' bound for `setCustomTime`: the total seconds must not overflow a Kotlin `Int`. */
  predicate ValidCustomTime(hours: int, minutes: int, seconds: int)
  {
    0 <= hours && 0 <= minutes && 0 <= seconds && hours * 3600 + minutes * 60 + seconds <= IntMax
  }

  /** setTime(minutes): the duration becomes `minutes` whole minutes. */
  function WithTime(m: Machine, minutes: int): (r: Machine)
    requires ValidMinutes(minutes)
    ensures r.ui.initialTimeMillis == r.ui.timeRemainingMillis == minutes * 60_000
    ensures !r.ui.isRunning && !r.timerJobActive
    ensures SamePresentation(r.ui, m.ui)
    ensures Inv(r)
  {
    Configure(m, minutes * 60 * 1000)
  }

  /** setCustomTime(hours, minutes, seconds): the duration becomes the given clock time. */
  function WithCustomTime(m: Machine, hours: int, minutes: int, seconds: int): (r: Machine)
    requires ValidCustomTime(hours, minutes, seconds)
    ensures r.ui.initialTimeMillis == r.ui.timeRemainingMillis
    ensures r.ui.timeRemainingMillis == (hours * 3600 + minutes * 60 + seconds) * 1000
    ensures !r.ui.isRunning && !r.timerJobActive
    ensures SamePresentation(r.ui, m.ui)
    ensures Inv(r)
  {
    Configure(m, (hours * 3600 + minutes * 60 + seconds) * 1000)
  }

  /** updateFont: replaces the selected font and nothing else. */
  function WithFont(m: Machine, font: TimerFont): (r: Machine)
    ensures r.ui.selectedFont == font
    ensures SameCountdown(r, m)
    ensures r.ui.isDarkTheme == m.ui.isDarkTheme && r.ui.showSettingsSheet == m.ui.showSettingsSheet
    ensures r.ui.currentTimeString == m.ui.currentTimeString
    ensures Inv(m) ==> Inv(r)
  {
    Machine(m.ui.(selectedFont := font), m.timerJobActive)
  }

  /** toggleTheme(isDark): replaces the theme flag and nothing else. */
  function WithTheme(m: Machine, isDark: bool): (r: Machine)
    ensures r.ui.isDarkTheme == isDark
    ensures SameCountdown(r, m)
    ensures r.ui.selectedFont == m.ui.selectedFont && r.ui.showSettingsSheet == m.ui.showSettingsSheet
    ensures r.ui.currentTimeString == m.ui.currentTimeString
    ensures Inv(m) ==> Inv(r)
  {
    Machine(m.ui.(isDarkTheme := isDark), m.timerJobActive)
  }

  /** showSettings(show): replaces the sheet-visibility flag and nothing else. */
  function WithSettingsShown(m: Machine, show: bool): (r: Machine)
    ensures r.ui.showSettingsSheet == show
    ensures SameCountdown(r, m)
    ensures r.ui.selectedFont == m.ui.selectedFont && r.ui.isDarkTheme == m.ui.isDarkTheme
    ensures r.ui.currentTimeString == m.ui.currentTimeString
    ensures Inv(m) ==> Inv(r)
  {
    Machine(m.ui.(showSettingsSheet := show), m.timerJobActive)
  }

  function Max(a: int, b: int): int
  {
    if a < b then b else a
  }

  /**
   * One resumption of the countdown coroutine after its one-second delay:
   * subtract 1000 ms, then run the loop-head check. A cancelled or finished
   * job never resumes, so without an active job nothing happens.
   */
  function Advance(m: Machine): (r: Machine)
    ensures !m.timerJobActive ==> r == m
    ensures Inv(m) ==> Inv(r)
    ensures Inv(m) && m.timerJobActive ==>
      && r.ui.timeRemainingMillis == Max(0, m.ui.timeRemainingMillis - TickMillis)
      && (r.ui.isRunning <==> r.ui.timeRemainingMillis > 0)
      && (r.timerJobActive <==> r.ui.timeRemainingMillis > 0)
    ensures r.ui.initialTimeMillis == m.ui.initialTimeMillis && SamePresentation(r.ui, m.ui)
  {
    if !m.timerJobActive then m
    else LoopCheck(Machine(m.ui.(timeRemainingMillis := m.ui.timeRemainingMillis - TickMillis), true))
  }

  /** `n` consecutive ticks with no other operation in between. */
  function Ticks(m: Machine, n: nat): Machine
    decreases n
  {
    if n == 0 then m else Ticks(Advance(m), n - 1)
  }

  /** Ticking once more after `n` ticks is the same as `n + 1` ticks. */
  lemma {:induction false} TicksStep(m: Machine, n: nat)
    ensures Ticks(m, n + 1) == Advance(Ticks(m, n))
    decreases n
  {
    if n > 0 {
      TicksStep(Advance(m), n - 1);
    }
  }

  /** Without an active job, ticks change nothing. */
  lemma {:induction false} TicksIdle(m: Machine, n: nat)
    requires !m.timerJobActive
    ensures Ticks(m, n) == m
    decreases n
  {
    if n > 0 {
      TicksIdle(Advance(m), n - 1);
    }
  }

  /** The view-model object: the state record it publishes and its countdown job. */
  class TimerViewModel {
    var uiState: TimerUiState
    var timerJobActive: bool

    function Snapshot(): Machine
      reads this
    {
      Machine(uiState, timerJobActive)
    }

    ghost predicate Valid()
      reads this
    {
      Inv(Snapshot())
    }

    /** The clock ticker that the constructor also starts is not part of this model. */
    constructor ()
      ensures Valid() && Snapshot() == Initial()
    {
      uiState := DefaultUiState();
      timerJobActive := false;
    }

    method ToggleTimer()
      requires Valid()
      modifies this
      ensures Valid() && Snapshot() == Toggle(old(Snapshot()))
    {
      if uiState.isRunning {
        PauseTimer();
      } else {
        StartTimer();
      }
    }

    method StartTimer()
      requires Valid()
      modifies this
      ensures Valid() && Snapshot() == Start(old(Snapshot()))
    {
      if timerJobActive {
        return;
      }
      uiState := uiState.(isRunning := true);
      timerJobActive := true;
      RunLoopCheck();
    }

    /** The loop head `while (isActive)` followed by the zero check. */
    method RunLoopCheck()
      modifies this
      ensures Snapshot() == LoopCheck(old(Snapshot()))
    {
      if uiState.timeRemainingMillis <= 0 {
        uiState := uiState.(isRunning := false, timeRemainingMillis := 0);
        timerJobActive := false;
      }
    }

    /** The coroutine resuming after `delay(1000)`. */
    method Tick()
      requires Valid()
      modifies this
      ensures Valid() && Snapshot() == Advance(old(Snapshot()))
    {
      if !timerJobActive {
        return;
      }
      uiState := uiState.(timeRemainingMillis := uiState.timeRemainingMillis - TickMillis);
      RunLoopCheck();
    }

    /**
     * The countdown coroutine left to run undisturbed until it ends by itself:
     * the `while (isActive)` loop, one tick per iteration.
     */
    method RunCountdown()
      requires Valid()
      modifies this
      ensures Valid() && !timerJobActive && !uiState.isRunning
      ensures old(timerJobActive) ==> uiState.timeRemainingMillis == 0
      ensures Snapshot() == Ticks(old(Snapshot()), old(uiState.timeRemainingMillis) / TickMillis)
    {
      ghost var start := Snapshot();
      ghost var n: nat := 0;
      if !timerJobActive {
        TicksIdle(start, start.ui.timeRemainingMillis / TickMillis);
        return;
      }
      while timerJobActive
        invariant Valid()
        invariant Snapshot() == Ticks(start, n)
        invariant timerJobActive ==> uiState.timeRemainingMillis == start.ui.timeRemainingMillis - n * TickMillis
        invariant !timerJobActive ==> uiState.timeRemainingMillis == 0 && n == start.ui.timeRemainingMillis / TickMillis
        decreases uiState.timeRemainingMillis
      {
        TicksStep(start, n);
        Tick();
        n := n + 1;
      }
    }

    method PauseTimer()
      requires Valid()
      modifies this
      ensures Valid() && Snapshot() == Pause(old(Snapshot()))
    {
      timerJobActive := false;
      uiState := uiState.(isRunning := false);
    }

    method ResetTimer()
      requires Valid()
      modifies this
      ensures Valid() && Snapshot() == Reset(old(Snapshot()))
    {
      PauseTimer();
      uiState := uiState.(timeRemainingMillis := uiState.initialTimeMillis);
    }

    method SetTime(minutes: int)
      requires Valid() && ValidMinutes(minutes)
      modifies this
      ensures Valid() && Snapshot() == WithTime(old(Snapshot()), minutes)
    {
      var newTime := minutes * 60 * 1000;
      uiState := uiState.(initialTimeMillis := newTime, timeRemainingMillis := newTime, isRunning := false);
      timerJobActive := false;
    }

    method UpdateFont(font: TimerFont)
      requires Valid()
      modifies this
      ensures Valid() && Snapshot() == WithFont(old(Snapshot()), font)
    {
      uiState := uiState.(selectedFont := font);
    }

    method ToggleTheme(isDark: bool)
      requires Valid()
      modifies this
      ensures Valid() && Snapshot() == WithTheme(old(Snapshot()), isDark)
    {
      uiState := uiState.(isDarkTheme := isDark);
    }

    method ShowSettings(show: bool)
      requires Valid()
      modifies this
      ensures Valid() && Snapshot() == WithSettingsShown(old(Snapshot()), show)
    {
      uiState := uiState.(showSettingsSheet := show);
    }

    method SetCustomTime(hours: int, minutes: int, seconds: int)
      requires Valid() && ValidCustomTime(hours, minutes, seconds)
      modifies this
      ensures Valid() && Snapshot() == WithCustomTime(old(Snapshot()), hours, minutes, seconds)
    {
      var totalMillis := (hours * 3600 + minutes * 60 + seconds) * 1000;
      uiState := uiState.(initialTimeMillis := totalMillis, timeRemainingMillis := totalMillis, isRunning := false);
      timerJobActive := false;
    }
  }
}
