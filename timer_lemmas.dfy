/**
 * Properties of the countdown state machine that span several operations:
 * the countdown's run to zero, the toggle flip, reset idempotence, and the
 * invariant over any sequence of user operations and ticks.
 */
module TimerLemmas {
  import opened ViewModel

  /** Any number of ticks keeps the invariant, so the remaining time never goes negative. */
  lemma {:induction false} TicksKeepInv(m: Machine, n: nat)
    requires Inv(m)
    ensures Inv(Ticks(m, n))
    ensures 0 <= Ticks(m, n).ui.timeRemainingMillis <= m.ui.timeRemainingMillis
    ensures Ticks(m, n).ui.initialTimeMillis == m.ui.initialTimeMillis
    ensures SamePresentation(Ticks(m, n).ui, m.ui)
    decreases n
  {
    if n > 0 {
      TicksKeepInv(Advance(m), n - 1);
    }
  }

  /**
   * While fewer ticks than whole seconds remain have passed, the countdown is
   * still running and has lost exactly one second per tick.
   */
  lemma {:induction false} CountdownBeforeZero(m: Machine, n: nat, k: nat)
    requires Inv(m) && m.timerJobActive && m.ui.timeRemainingMillis == n * TickMillis
    requires k < n
    ensures Ticks(m, k).ui.timeRemainingMillis == (n - k) * TickMillis
    ensures Ticks(m, k).ui.isRunning && Ticks(m, k).timerJobActive
    decreases k
  {
    if k > 0 {
      CountdownBeforeZero(Advance(m), n - 1, k - 1);
    }
  }

  /**
   * Starting from `n` whole seconds with the job active, exactly `n` ticks
   * leave the timer stopped at 0 with the job ended; the configured duration
   * and the presentation fields are untouched.
   */
  lemma {:induction false} CountdownReachesZero(m: Machine, n: nat)
    requires Inv(m) && m.timerJobActive && m.ui.timeRemainingMillis == n * TickMillis
    ensures var r := Ticks(m, n);
      && r.ui.timeRemainingMillis == 0 && !r.ui.isRunning && !r.timerJobActive
      && r.ui.initialTimeMillis == m.ui.initialTimeMillis && SamePresentation(r.ui, m.ui)
    decreases n
  {
    if n == 1 {
      assert Ticks(m, 1) == Ticks(Advance(m), 0);
    } else {
      CountdownReachesZero(Advance(m), n - 1);
    }
  }

  /** Once the countdown has ended, further ticks change nothing. */
  lemma CountdownStaysAtZero(m: Machine, n: nat, extra: nat)
    requires Inv(m) && m.timerJobActive && m.ui.timeRemainingMillis == n * TickMillis
    ensures Ticks(m, n + extra) == Ticks(m, n)
  {
    CountdownReachesZero(m, n);
    TicksSplit(m, n, extra);
    TicksIdle(Ticks(m, n), extra);
  }

  /** `a + b` ticks are `a` ticks followed by `b` ticks. */
  lemma {:induction false} TicksSplit(m: Machine, a: nat, b: nat)
    ensures Ticks(m, a + b) == Ticks(Ticks(m, a), b)
    decreases a
  {
    if a > 0 {
      TicksSplit(Advance(m), a - 1, b);
    }
  }

  /** From a stopped timer, two toggles with no tick in between give back the same state. */
  lemma ToggleTwiceRestores(m: Machine)
    requires Inv(m) && !m.ui.isRunning
    ensures Toggle(Toggle(m)) == m
  {
  }

  /** With time left, toggling always flips the running flag. */
  lemma ToggleFlips(m: Machine)
    requires Inv(m) && m.ui.timeRemainingMillis > 0
    ensures Toggle(m).ui.isRunning == !m.ui.isRunning
    ensures Toggle(m).ui.timeRemainingMillis == m.ui.timeRemainingMillis
  {
  }

  /** Resetting twice is the same as resetting once. */
  lemma ResetIdempotent(m: Machine)
    ensures Reset(Reset(m)) == Reset(m)
  {
  }

  /** A user operation on the view-model, or one tick of the countdown coroutine. */
  datatype Op =
    | ToggleOp
    | ResetOp
    | SetTimeOp(minutes: int)
    | SetCustomTimeOp(hours: int, minutes: int, seconds: int)
    | UpdateFontOp(font: TimerFont)
    | ToggleThemeOp(isDark: bool)
    | ShowSettingsOp(show: bool)
    | TickOp

  /** An operation whose arguments meet the callers' bounds. */
  predicate Allowed(op: Op)
  {
    match op
    case SetTimeOp(minutes) => ValidMinutes(minutes)
    case SetCustomTimeOp(h, mi, s) => ValidCustomTime(h, mi, s)
    case _ => true
  }

  predicate IsConfiguration(op: Op)
  {
    op.SetTimeOp? || op.SetCustomTimeOp?
  }

  function Apply(m: Machine, op: Op): Machine
    requires Allowed(op)
  {
    match op
    case ToggleOp => Toggle(m)
    case ResetOp => Reset(m)
    case SetTimeOp(minutes) => WithTime(m, minutes)
    case SetCustomTimeOp(h, mi, s) => WithCustomTime(m, h, mi, s)
    case UpdateFontOp(font) => WithFont(m, font)
    case ToggleThemeOp(isDark) => WithTheme(m, isDark)
    case ShowSettingsOp(show) => WithSettingsShown(m, show)
    case TickOp => Advance(m)
  }

  /** Applies the operations in order. */
  function Run(m: Machine, ops: seq<Op>): Machine
    requires forall i :: 0 <= i < |ops| ==> Allowed(ops[i])
    decreases |ops|
  {
    if ops == [] then m else Run(Apply(m, ops[0]), ops[1..])
  }

  /**
   * Every state reachable from the initial one keeps the invariant: the
   * remaining time is a whole number of seconds between 0 and the configured
   * duration, and the timer runs exactly while its one countdown job exists.
   */
  lemma {:induction false} RunKeepsInv(m: Machine, ops: seq<Op>)
    requires Inv(m)
    requires forall i :: 0 <= i < |ops| ==> Allowed(ops[i])
    ensures Inv(Run(m, ops))
    decreases |ops|
  {
    if ops != [] {
      RunKeepsInv(Apply(m, ops[0]), ops[1..]);
    }
  }

  /** Only `setTime` and `setCustomTime` change the configured duration. */
  lemma {:induction false} InitialChangesOnlyByConfiguration(m: Machine, ops: seq<Op>)
    requires forall i :: 0 <= i < |ops| ==> Allowed(ops[i]) && !IsConfiguration(ops[i])
    ensures Run(m, ops).ui.initialTimeMillis == m.ui.initialTimeMillis
    decreases |ops|
  {
    if ops != [] {
      InitialChangesOnlyByConfiguration(Apply(m, ops[0]), ops[1..]);
    }
  }

  /**
   * Default state, toggle, three ticks: 1,497,000 ms left and running; toggle
   * again: paused with the same time; reset: back to 1,500,000 ms.
   */
  lemma DefaultSessionScenario()
    ensures var started := Toggle(Initial());
      var ticked := Ticks(started, 3);
      var paused := Toggle(ticked);
      var reset := Reset(paused);
      && ticked.ui.timeRemainingMillis == 1_497_000 && ticked.ui.isRunning
      && paused.ui.timeRemainingMillis == 1_497_000 && !paused.ui.isRunning
      && reset.ui.timeRemainingMillis == 1_500_000 && !reset.ui.isRunning
  {
    var started := Toggle(Initial());
    CountdownBeforeZero(started, 1500, 3);
  }

  /**
   * setCustomTime(0, 0, 5), toggle, five ticks: stopped at 0 without a sixth
   * tick, and a sixth tick would change nothing.
   */
  lemma FiveSecondScenario()
    ensures var started := Toggle(WithCustomTime(Initial(), 0, 0, 5));
      && Ticks(started, 5).ui.timeRemainingMillis == 0
      && !Ticks(started, 5).ui.isRunning
      && Ticks(started, 6) == Ticks(started, 5)
  {
    var started := Toggle(WithCustomTime(Initial(), 0, 0, 5));
    CountdownReachesZero(started, 5);
    CountdownStaysAtZero(started, 5, 1);
  }
}
