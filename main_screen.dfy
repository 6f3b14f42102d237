/**
 * What the main screen derives from the view-model's state, and the settings
 * sheet's callbacks that drive the view-model: the start hint, the preset
 * buttons, reset, and the custom-time button.
 */
module Screen {
  import opened ViewModel
  import Format
  import Settings

  /** The "Tap to Start" hint: shown while stopped with the full duration left. */
  predicate HintVisible(s: TimerUiState)
  {
    !s.isRunning && s.timeRemainingMillis == s.initialTimeMillis
  }

  /** The hint shows on a fresh view-model. */
  lemma HintInitially()
    ensures HintVisible(Initial().ui)
  {
  }

  /** The hint shows after a reset. */
  lemma HintAfterReset(m: Machine)
    ensures HintVisible(Reset(m).ui)
  {
  }

  /** The hint shows after a preset or any other whole-minute duration is set. */
  lemma HintAfterSetTime(m: Machine, minutes: int)
    requires ValidMinutes(minutes)
    ensures HintVisible(WithTime(m, minutes).ui)
  {
  }

  /** The hint shows after a custom duration is set. */
  lemma HintAfterSetCustomTime(m: Machine, h: int, mi: int, s: int)
    requires ValidCustomTime(h, mi, s)
    ensures HintVisible(WithCustomTime(m, h, mi, s).ui)
  {
  }

  /**
   * Starting with time left hides the hint, and every tick of an active
   * countdown leaves it hidden, including the tick that ends at 0.
   */
  lemma HintHidden(m: Machine)
    requires Inv(m)
    ensures m.ui.timeRemainingMillis > 0 && !m.ui.isRunning ==> !HintVisible(Toggle(m).ui)
    ensures m.timerJobActive ==> !HintVisible(Advance(m).ui)
  {
  }

  /** The preset buttons of the sheet, in minutes. */
  const Presets: seq<int> := [10, 25, 45, 60]

  /** Every preset is a positive number of minutes within the `setTime` bound. */
  lemma PresetsValid()
    ensures forall i :: 0 <= i < |Presets| ==> ValidMinutes(Presets[i]) && Presets[i] > 0
  {
  }

  /** A preset button: set the duration, then close the sheet. */
  method OnTimeSet(vm: TimerViewModel, minutes: int)
    requires vm.Valid() && minutes in Presets
    modifies vm
    ensures vm.Valid()
    ensures vm.Snapshot() == WithSettingsShown(WithTime(old(vm.Snapshot()), minutes), false)
    ensures vm.uiState.timeRemainingMillis == vm.uiState.initialTimeMillis == minutes * 60_000 > 0
    ensures !vm.uiState.isRunning && !vm.uiState.showSettingsSheet
  {
    PresetsValid();
    vm.SetTime(minutes);
    vm.ShowSettings(false);
  }

  /** The reset button: reset, then close the sheet. */
  method OnReset(vm: TimerViewModel)
    requires vm.Valid()
    modifies vm
    ensures vm.Valid()
    ensures vm.Snapshot() == WithSettingsShown(Reset(old(vm.Snapshot())), false)
    ensures HintVisible(vm.uiState) && !vm.uiState.showSettingsSheet
  {
    vm.ResetTimer();
    vm.ShowSettings(false);
  }

  /**
   * The custom-time button wired to the view-model: a non-zero duration is
   * set and the sheet closes; an all-zero one changes nothing. So every
   * custom time that reaches the view-model from the sheet is positive.
   */
  method OnCustomTimeSet(vm: TimerViewModel, sheet: Settings.SettingsSheet)
    requires vm.Valid() && sheet.Valid()
    modifies vm
    ensures vm.Valid()
    ensures Format.TotalSeconds(sheet.Shown()) == 0 ==> vm.Snapshot() == old(vm.Snapshot())
    ensures Format.TotalSeconds(sheet.Shown()) > 0 ==>
      && vm.Snapshot() == WithSettingsShown(
           WithCustomTime(old(vm.Snapshot()), sheet.Shown().hours, sheet.Shown().minutes, sheet.Shown().seconds),
           false)
      && vm.uiState.timeRemainingMillis == vm.uiState.initialTimeMillis == Format.TotalSeconds(sheet.Shown()) * 1000 > 0
  {
    var request := sheet.OnSetCustomTime();
    if request.CustomTime? {
      vm.SetCustomTime(request.hours, request.minutes, request.seconds);
      vm.ShowSettings(false);
    }
  }
}
