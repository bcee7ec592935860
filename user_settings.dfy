/** The user's display preferences, their defaults and their storage strings. */
module Settings {
  import opened Wrappers
  import opened Text

  datatype ThemeMode = Light | Dark | System
  datatype AccentColor = DefaultAccent | Blue | Green | Purple | Orange
  datatype FontSize = Small | Medium | Large | ExtraLarge

  /** `kotlinx.datetime.LocalTime`: the fields the app reads or writes. */
  datatype Clock = Clock(hour: int, minute: int, second: int, nanosecond: int)

  predicate ValidClock(c: Clock) {
    0 <= c.hour < 24 && 0 <= c.minute < 60 && 0 <= c.second < 60 && 0 <= c.nanosecond < 1_000_000_000
  }

  /** `LocalTime(h, m)` only exists for an hour 0..23 and a minute 0..59. */
  type LocalTime = c: Clock | ValidClock(c) witness Clock(9, 0, 0, 0)

  /** `LocalTime(hour, minute)`, which throws for an out-of-range argument. */
  function MakeTime(hour: int, minute: int): Option<LocalTime> {
    if 0 <= hour < 24 && 0 <= minute < 60 then Some(Clock(hour, minute, 0, 0)) else None
  }

  const NineAm: LocalTime := Clock(9, 0, 0, 0)

  datatype UserSettings = UserSettings(
    themeMode: ThemeMode,
    accentColor: AccentColor,
    fontSize: FontSize,
    notificationEnabled: bool,
    notificationTime: LocalTime)

  /** `UserSettings.DEFAULT`: the constructor's default arguments. */
  const Default := UserSettings(System, DefaultAccent, Medium, true, NineAm)

  lemma DefaultSettings()
    ensures Default.themeMode == System && Default.accentColor == DefaultAccent
    ensures Default.fontSize == Medium && Default.notificationEnabled
    ensures Default.notificationTime.hour == 9 && Default.notificationTime.minute == 0
  {
  }

  // ---------------------------------------------------------------------
  // storage strings

  function ThemeModeString(m: ThemeMode): (r: string)
    ensures forall i :: 0 <= i < |r| ==> IsAsciiLower(r[i])
  {
    match m
    case Light => "light"
    case Dark => "dark"
    case System => "system"
  }

  /** `String.toThemeMode()`. */
  function ToThemeMode(s: string): ThemeMode {
    var l := Lower(s);
    if l == "light" then Light else if l == "dark" then Dark else System
  }

  function AccentColorString(c: AccentColor): (r: string)
    ensures forall i :: 0 <= i < |r| ==> IsAsciiLower(r[i])
  {
    match c
    case DefaultAccent => "default"
    case Blue => "blue"
    case Green => "green"
    case Purple => "purple"
    case Orange => "orange"
  }

  /** `String.toAccentColor()`. */
  function ToAccentColor(s: string): AccentColor {
    var l := Lower(s);
    if l == "blue" then Blue
    else if l == "green" then Green
    else if l == "purple" then Purple
    else if l == "orange" then Orange
    else DefaultAccent
  }

  function FontSizeString(f: FontSize): (r: string)
    ensures forall i :: 0 <= i < |r| ==> IsAsciiLower(r[i]) || r[i] == '_'
  {
    match f
    case Small => "small"
    case Medium => "medium"
    case Large => "large"
    case ExtraLarge => "extra_large"
  }

  /** `String.toFontSizePreference()`. */
  function ToFontSize(s: string): FontSize {
    var l := Lower(s);
    if l == "small" then Small
    else if l == "large" then Large
    else if l == "extra_large" then ExtraLarge
    else Medium
  }

  /** Every theme mode reads back from its storage string. */
  lemma ThemeModeRoundTrip(m: ThemeMode)
    ensures ToThemeMode(ThemeModeString(m)) == m
  {
    LowerFixed(ThemeModeString(m));
  }

  lemma AccentColorRoundTrip(c: AccentColor)
    ensures ToAccentColor(AccentColorString(c)) == c
  {
    LowerFixed(AccentColorString(c));
  }

  lemma FontSizeRoundTrip(f: FontSize)
    ensures ToFontSize(FontSizeString(f)) == f
  {
    LowerFixed(FontSizeString(f));
  }

  /** Distinct values are stored as distinct strings. */
  lemma StorageStringsInjective(m1: ThemeMode, m2: ThemeMode, c1: AccentColor, c2: AccentColor,
                                f1: FontSize, f2: FontSize)
    ensures ThemeModeString(m1) == ThemeModeString(m2) ==> m1 == m2
    ensures AccentColorString(c1) == AccentColorString(c2) ==> c1 == c2
    ensures FontSizeString(f1) == FontSizeString(f2) ==> f1 == f2
  {
    ThemeModeRoundTrip(m1);
    ThemeModeRoundTrip(m2);
    AccentColorRoundTrip(c1);
    AccentColorRoundTrip(c2);
    FontSizeRoundTrip(f1);
    FontSizeRoundTrip(f2);
  }

  /** The parsers ignore case: "DARK", "Dark" and "dark" read alike. */
  lemma ParsersIgnoreCase(s: string)
    ensures ToThemeMode(Upper(s)) == ToThemeMode(s)
    ensures ToAccentColor(Upper(s)) == ToAccentColor(s)
    ensures ToFontSize(Upper(s)) == ToFontSize(s)
  {
    LowerIgnoresCase(s);
  }

  /** Upper-case storage strings, as another client might write them, read back too. */
  lemma UpperCaseRoundTrip(m: ThemeMode, c: AccentColor, f: FontSize)
    ensures ToThemeMode(Upper(ThemeModeString(m))) == m
    ensures ToAccentColor(Upper(AccentColorString(c))) == c
    ensures ToFontSize(Upper(FontSizeString(f))) == f
  {
    ParsersIgnoreCase(ThemeModeString(m));
    ParsersIgnoreCase(AccentColorString(c));
    ParsersIgnoreCase(FontSizeString(f));
    ThemeModeRoundTrip(m);
    AccentColorRoundTrip(c);
    FontSizeRoundTrip(f);
  }

  /** A string that is no other value's storage string, in any case, reads as the default. */
  lemma UnknownStringsReadAsDefaults(s: string)
    ensures (forall m :: Lower(s) != ThemeModeString(m)) ==> ToThemeMode(s) == System
    ensures (forall c :: Lower(s) != AccentColorString(c)) ==> ToAccentColor(s) == DefaultAccent
    ensures (forall f :: Lower(s) != FontSizeString(f)) ==> ToFontSize(s) == Medium
  {
    assert ThemeModeString(Light) == "light" && ThemeModeString(Dark) == "dark";
    assert AccentColorString(Blue) == "blue" && AccentColorString(Green) == "green";
    assert AccentColorString(Purple) == "purple" && AccentColorString(Orange) == "orange";
    assert FontSizeString(Small) == "small" && FontSizeString(Large) == "large";
    assert FontSizeString(ExtraLarge) == "extra_large";
  }
}
