/** `SettingsViewModel`: each setter copies the shown settings with one field
    changed, writes them through the settings repository, and the two
    notification setters then schedule or cancel the daily reminder. */
module SettingsScreen {
  import opened Wrappers
  import opened Settings
  import opened SettingsStore
  import DailyQuoteWorker

  datatype SettingsUiState = SettingsUiState(settings: UserSettings, isLoading: bool, error: Option<string>)

  /** `SettingsUiState()`. */
  const InitialSettings := SettingsUiState(Default, false, None)

  /** What a setter does to the reminder job: nothing, enqueue the periodic
      request, or cancel the unique work of that name. */
  datatype WorkChange = NoChange | Scheduled(request: DailyQuoteWorker.WorkRequest) | Cancelled(name: string)

  /** Round-trip a setter relies on: the settings written are those read
      back, when the reminder time has no seconds. */
  predicate WholeMinutes(s: UserSettings) {
    s.notificationTime.second == 0 && s.notificationTime.nanosecond == 0
  }

  class SettingsViewModel {
    var state: SettingsUiState
    const repo: SettingsRepository

    constructor (repo: SettingsRepository)
      ensures state == InitialSettings && this.repo == repo
    {
      state := InitialSettings;
      this.repo := repo;
    }

    /** `observeSettings`: one emission of the repository's settings stream. */
    method ObserveSettings()
      modifies this
      ensures state == old(state).(settings := repo.Settings())
    {
      state := state.(settings := repo.Settings());
    }

    /** `setThemeMode(m)`: `passed` is what is handed to `updateSettings`. */
    method SetThemeMode(m: ThemeMode, uid: Option<string>, existing: Result<Option<UserSettingsDto>>)
      returns (passed: UserSettings)
      modifies repo
      ensures passed == old(state).settings.(themeMode := m) && passed.themeMode == m
      ensures repo.prefs == EncodeSettings(passed) && state == old(state)
      ensures WholeMinutes(passed) ==> repo.Settings() == passed
    {
      passed := state.settings.(themeMode := m);
      var _, _ := repo.UpdateSettings(passed, uid, existing);
      if WholeMinutes(passed) {
        ReadEncodeSettings(passed);
      }
    }

    /** `setAccentColor(c)`. */
    method SetAccentColor(c: AccentColor, uid: Option<string>, existing: Result<Option<UserSettingsDto>>)
      returns (passed: UserSettings)
      modifies repo
      ensures passed == old(state).settings.(accentColor := c) && passed.accentColor == c
      ensures repo.prefs == EncodeSettings(passed) && state == old(state)
      ensures WholeMinutes(passed) ==> repo.Settings() == passed
    {
      passed := state.settings.(accentColor := c);
      var _, _ := repo.UpdateSettings(passed, uid, existing);
      if WholeMinutes(passed) {
        ReadEncodeSettings(passed);
      }
    }

    /** `setFontSize(f)`. */
    method SetFontSize(f: FontSize, uid: Option<string>, existing: Result<Option<UserSettingsDto>>)
      returns (passed: UserSettings)
      modifies repo
      ensures passed == old(state).settings.(fontSize := f) && passed.fontSize == f
      ensures repo.prefs == EncodeSettings(passed) && state == old(state)
      ensures WholeMinutes(passed) ==> repo.Settings() == passed
    {
      passed := state.settings.(fontSize := f);
      var _, _ := repo.UpdateSettings(passed, uid, existing);
      if WholeMinutes(passed) {
        ReadEncodeSettings(passed);
      }
    }

    /** `setNotificationEnabled(enabled)`: enabling schedules the reminder at
        the time already set, disabling cancels it. `current` is the wall
        clock's time of day. */
    method SetNotificationEnabled(enabled: bool, uid: Option<string>, existing: Result<Option<UserSettingsDto>>,
                                  current: LocalTime)
      returns (passed: UserSettings, work: WorkChange)
      modifies repo
      ensures passed == old(state).settings.(notificationEnabled := enabled)
      ensures repo.prefs == EncodeSettings(passed) && state == old(state)
      ensures WholeMinutes(passed) ==> repo.Settings() == passed
      ensures enabled ==>
        work.Scheduled? &&
        work.request.initialDelayMinutes == DailyQuoteWorker.DelayMinutes(old(state).settings.notificationTime, current) &&
        work.request.name == DailyQuoteWorker.WorkName
      ensures !enabled ==> work == Cancelled(DailyQuoteWorker.WorkName)
    {
      passed := state.settings.(notificationEnabled := enabled);
      var _, _ := repo.UpdateSettings(passed, uid, existing);
      if WholeMinutes(passed) {
        ReadEncodeSettings(passed);
      }
      if enabled {
        var req := DailyQuoteWorker.Schedule(passed.notificationTime, current);
        work := Scheduled(req);
      } else {
        work := Cancelled(DailyQuoteWorker.WorkName);
      }
    }

    /** `setNotificationTime(time)`: reschedules only when reminders are on. */
    method SetNotificationTime(time: LocalTime, uid: Option<string>, existing: Result<Option<UserSettingsDto>>,
                               current: LocalTime)
      returns (passed: UserSettings, work: WorkChange)
      modifies repo
      ensures passed == old(state).settings.(notificationTime := time)
      ensures repo.prefs == EncodeSettings(passed) && state == old(state)
      ensures WholeMinutes(passed) ==> repo.Settings() == passed
      ensures old(state).settings.notificationEnabled ==>
        work.Scheduled? &&
        work.request.initialDelayMinutes == DailyQuoteWorker.DelayMinutes(time, current) &&
        work.request.name == DailyQuoteWorker.WorkName
      ensures !old(state).settings.notificationEnabled ==> work == NoChange
    {
      passed := state.settings.(notificationTime := time);
      var _, _ := repo.UpdateSettings(passed, uid, existing);
      if WholeMinutes(passed) {
        ReadEncodeSettings(passed);
      }
      work := NoChange;
      if passed.notificationEnabled {
        var req := DailyQuoteWorker.Schedule(time, current);
        work := Scheduled(req);
      }
    }

    method ClearError()
      modifies this
      ensures state == old(state).(error := None)
    {
      state := state.(error := None);
    }
  }

  /** A setter followed by the stream's next emission shows the settings
      that were written. */
  method SetThemeModeThenObserve(vm: SettingsViewModel, m: ThemeMode, uid: Option<string>,
                                 existing: Result<Option<UserSettingsDto>>)
    requires WholeMinutes(vm.state.settings)
    modifies vm, vm.repo
    ensures vm.state.settings == old(vm.state.settings).(themeMode := m)
  {
    var passed := vm.SetThemeMode(m, uid, existing);
    vm.ObserveSettings();
  }
}
