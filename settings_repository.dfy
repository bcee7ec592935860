/** The preference store behind the settings screen and its remote copy. */
module SettingsStore {
  import opened Wrappers
  import opened Text
  import opened Settings
  import Seqs

  // ---------------------------------------------------------------------
  // time strings

  /** `formatTime`: zero-padded hour and minute, "HH:MM"; seconds are dropped. */
  function FormatTime(t: LocalTime): string {
    PadStart(NatToString(t.hour), 2, '0') + ":" + PadStart(NatToString(t.minute), 2, '0')
  }

  /** `parseTime`: the first two ':'-separated parts as hour and minute (minute 0
      when there is no second part); 09:00 when a part is not an integer or the
      time is out of range. */
  function ParseTime(s: string): LocalTime {
    var parts := Split(s, ':');
    var hour := ToInt(parts[0]);
    var minute := if |parts| > 1 then ToInt(parts[1]) else Some(0);
    if hour.None? || minute.None? then NineAm
    else match MakeTime(hour.value, minute.value)
      case Some(t) => t
      case None => NineAm
  }

  /** Every valid time formats as five characters: two digits, ':', two digits. */
  lemma FormatTimeShape(t: LocalTime)
    ensures var f := FormatTime(t);
            |f| == 5 && f[2] == ':' && IsDigit(f[0]) && IsDigit(f[1]) && IsDigit(f[3]) && IsDigit(f[4])
  {
    TwoDigits(t.hour);
    TwoDigits(t.minute);
  }

  /** Parsing a formatted time gives back its hour and minute, with the
      seconds gone; for a time without seconds it is the identity. */
  lemma ParseFormatTime(t: LocalTime)
    ensures ParseTime(FormatTime(t)) == Clock(t.hour, t.minute, 0, 0)
    ensures t.second == 0 && t.nanosecond == 0 ==> ParseTime(FormatTime(t)) == t
  {
    var h := PadStart(NatToString(t.hour), 2, '0');
    var m := PadStart(NatToString(t.minute), 2, '0');
    TwoDigits(t.hour);
    TwoDigits(t.minute);
    assert ':' !in h && ':' !in m by {
      assert forall i :: 0 <= i < |h| ==> IsDigit(h[i]);
      assert forall i :: 0 <= i < |m| ==> IsDigit(m[i]);
    }
    SplitPair(h, m, ':');
    assert FormatTime(t) == h + [':'] + m;
  }

  /** Without a ':' the whole string is the hour and the minute is 0. */
  lemma ParseTimeHourOnly(s: string)
    requires ':' !in s
    requires ToInt(s).Some? && 0 <= ToInt(s).value < 24
    ensures ParseTime(s) == Clock(ToInt(s).value, 0, 0, 0)
  {
    SplitWithoutDelimiter(s, ':');
  }

  /** Parts after the second are ignored: "09:00:00" reads as 09:00. */
  lemma ParseTimeIgnoresSeconds(a: string, b: string, rest: string)
    requires ':' !in a && ':' !in b
    ensures ParseTime(a + ":" + b + ":" + rest) == ParseTime(a + ":" + b)
  {
    var t := [':'] + rest;
    assert t[0] == ':' && t[1..] == rest;
    assert Split(t, ':') == [[]] + Split(rest, ':');
    SplitPrefix(b, t, ':');
    var tail := b + t;
    assert b + Split(t, ':')[0] == b;
    assert Split(t, ':')[1..] == Split(rest, ':');
    assert Split(tail, ':') == [b] + Split(rest, ':');
    var u := [':'] + tail;
    assert u[0] == ':' && u[1..] == tail;
    assert Split(u, ':') == [[]] + Split(tail, ':');
    SplitPrefix(a, u, ':');
    assert a + Split(u, ':')[0] == a;
    assert a + ":" + b + ":" + rest == a + u;
    var parts := Split(a + u, ':');
    assert parts[0] == a && parts[1] == b;
    SplitPair(a, b, ':');
  }

  /** A first part that is not an integer, or a time out of range, gives 09:00. */
  lemma ParseTimeFallback(s: string)
    requires var parts := Split(s, ':');
             var hour := ToInt(parts[0]);
             hour.None? || !(0 <= hour.value < 24) ||
             (|parts| > 1 && (ToInt(parts[1]).None? || !(0 <= ToInt(parts[1]).value < 60)))
    ensures ParseTime(s) == NineAm
  {
  }

  // ---------------------------------------------------------------------
  // the five preference keys

  /** The DataStore preferences this repository uses; a key may be absent. */
  datatype Preferences = Preferences(
    themeMode: Option<string>,
    accentColor: Option<string>,
    fontSize: Option<string>,
    notificationEnabled: Option<bool>,
    notificationTime: Option<string>)

  const NoPreferences := Preferences(None, None, None, None, None)

  /** The `settings` stream: each key parsed, or its default when absent. */
  function ReadSettings(p: Preferences): UserSettings {
    UserSettings(
      ToThemeMode(p.themeMode.GetOr("system")),
      ToAccentColor(p.accentColor.GetOr("default")),
      ToFontSize(p.fontSize.GetOr("medium")),
      p.notificationEnabled.GetOr(true),
      ParseTime(p.notificationTime.GetOr("09:00")))
  }

  /** The five assignments inside `updateSettings`' edit block. */
  function EncodeSettings(s: UserSettings): Preferences {
    Preferences(
      Some(ThemeModeString(s.themeMode)),
      Some(AccentColorString(s.accentColor)),
      Some(FontSizeString(s.fontSize)),
      Some(s.notificationEnabled),
      Some(FormatTime(s.notificationTime)))
  }

  /** Each absent key reads as that field of the default settings, whatever the other keys hold. */
  lemma MissingKeysReadAsDefaults(p: Preferences)
    ensures p.themeMode.None? ==> ReadSettings(p).themeMode == Default.themeMode
    ensures p.accentColor.None? ==> ReadSettings(p).accentColor == Default.accentColor
    ensures p.fontSize.None? ==> ReadSettings(p).fontSize == Default.fontSize
    ensures p.notificationEnabled.None? ==> ReadSettings(p).notificationEnabled == Default.notificationEnabled
    ensures p.notificationTime.None? ==> ReadSettings(p).notificationTime == Default.notificationTime
    ensures ReadSettings(NoPreferences) == Default
  {
    ThemeModeRoundTrip(System);
    AccentColorRoundTrip(DefaultAccent);
    FontSizeRoundTrip(Medium);
    ParseFormatTime(NineAm);
    assert FormatTime(NineAm) == "09:00";
  }

  /** What `updateSettings` writes reads back as the same settings, for a
      notification time without seconds (the only kind the time picker makes). */
  lemma ReadEncodeSettings(s: UserSettings)
    requires s.notificationTime.second == 0 && s.notificationTime.nanosecond == 0
    ensures ReadSettings(EncodeSettings(s)) == s
  {
    ThemeModeRoundTrip(s.themeMode);
    AccentColorRoundTrip(s.accentColor);
    FontSizeRoundTrip(s.fontSize);
    ParseFormatTime(s.notificationTime);
  }

  // ---------------------------------------------------------------------
  // the remote `user_settings` row

  /** `UserSettingsDto`. */
  datatype UserSettingsDto = UserSettingsDto(
    id: string,
    userId: string,
    themeMode: string,
    accentColor: string,
    fontSize: string,
    notificationEnabled: bool,
    notificationTime: string,
    updatedAt: Option<int>)

  /** The columns `updateSettings` sends, in an update or an insert. */
  datatype SettingsColumns = SettingsColumns(
    themeMode: string, accentColor: string, fontSize: string,
    notificationEnabled: bool, notificationTime: string)

  /** The remote write `updateSettings` issues. */
  datatype RemoteWrite = UpdateRow(columns: SettingsColumns) | InsertRow(userId: string, columns: SettingsColumns)

  /** The remote columns for some settings: the local strings, the time as "HH:MM:00". */
  function RemoteColumns(s: UserSettings): SettingsColumns {
    SettingsColumns(ThemeModeString(s.themeMode), AccentColorString(s.accentColor),
                    FontSizeString(s.fontSize), s.notificationEnabled,
                    FormatTime(s.notificationTime) + ":00")
  }

  /** The keys `syncSettings` writes from a remote row. */
  function PreferencesOfRow(row: UserSettingsDto): Preferences {
    Preferences(Some(row.themeMode), Some(row.accentColor), Some(row.fontSize),
                Some(row.notificationEnabled), Some(Seqs.Take(row.notificationTime, 5)))
  }

  /** The remote time is eight characters and its first five are the local time,
      so `syncSettings` stores exactly what `updateSettings` stored. */
  lemma RemoteTimeTruncates(s: UserSettings)
    ensures |RemoteColumns(s).notificationTime| == 8
    ensures Seqs.Take(RemoteColumns(s).notificationTime, 5) == FormatTime(s.notificationTime)
  {
    FormatTimeShape(s.notificationTime);
  }

  /** A row written by `updateSettings(s)` and synced back leaves the same
      preferences as the local write did. */
  lemma SyncAfterUpdate(s: UserSettings, id: string, uid: string, updatedAt: Option<int>)
    ensures var c := RemoteColumns(s);
            var row := UserSettingsDto(id, uid, c.themeMode, c.accentColor, c.fontSize,
                                       c.notificationEnabled, c.notificationTime, updatedAt);
            PreferencesOfRow(row) == EncodeSettings(s)
  {
    RemoteTimeTruncates(s);
  }

  // ---------------------------------------------------------------------
  // the repository

  class SettingsRepository {
    /** The DataStore's current preferences. */
    var prefs: Preferences

    constructor()
      ensures prefs == NoPreferences
    {
      prefs := NoPreferences;
    }

    /** `settings` / `getSettings()`: the current preferences with defaults applied. */
    function Settings(): UserSettings
      reads this
    {
      ReadSettings(prefs)
    }

    /** `updateSettings(s)`: rewrite all five keys, then, for a signed-in user,
        update or insert the remote row according to the answer of the select
        (`existing`). The remote outcome is swallowed: the result is always success. */
    method UpdateSettings(s: UserSettings, uid: Option<string>, existing: Result<Option<UserSettingsDto>>)
      returns (r: Result<()>, sent: Option<RemoteWrite>)
      modifies this
      ensures prefs == EncodeSettings(s)
      ensures r == Success(())
      ensures uid.None? || existing.Failure? ==> sent.None?
      ensures uid.Some? && existing.Success? ==>
        sent == Some(if existing.value.Some? then UpdateRow(RemoteColumns(s))
                     else InsertRow(uid.value, RemoteColumns(s)))
    {
      prefs := EncodeSettings(s);
      sent := None;
      if uid.Some? {
        match existing
        case Success(row) =>
          if row.Some? {
            sent := Some(UpdateRow(RemoteColumns(s)));
          } else {
            sent := Some(InsertRow(uid.value, RemoteColumns(s)));
          }
        case Failure(_) =>
      }
      r := Success(());
    }

    /** `syncSettings()`: with a user, fetch the remote row (`fetched`) and, when
        there is one, overwrite the five keys from it. */
    method SyncSettings(uid: Option<string>, fetched: Result<Option<UserSettingsDto>>) returns (r: Result<()>)
      modifies this
      ensures uid.None? ==> r == Fail(NotLoggedIn) && prefs == old(prefs)
      ensures uid.Some? && fetched.Failure? ==> r == Failure(fetched.message) && prefs == old(prefs)
      ensures uid.Some? && fetched == Success(None) ==> r == Success(()) && prefs == old(prefs)
      ensures uid.Some? && fetched.Success? && fetched.value.Some? ==>
        r == Success(()) && prefs == PreferencesOfRow(fetched.value.value)
    {
      if uid.None? {
        return Fail(NotLoggedIn);
      }
      match fetched
      case Failure(msg) =>
        r := Failure(msg);
      case Success(row) =>
        if row.Some? {
          prefs := PreferencesOfRow(row.value);
        }
        r := Success(());
    }
  }

  /** `updateSettings` followed by `getSettings` returns the settings written. */
  method UpdateThenRead(repo: SettingsRepository, s: UserSettings, uid: Option<string>,
                        existing: Result<Option<UserSettingsDto>>)
    returns (read: UserSettings)
    requires s.notificationTime.second == 0 && s.notificationTime.nanosecond == 0
    modifies repo
    ensures read == s
  {
    var r, sent := repo.UpdateSettings(s, uid, existing);
    read := repo.Settings();
    ReadEncodeSettings(s);
  }
}
