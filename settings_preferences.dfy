/** The persisted theme choice: a key-to-integer preference file
    ("echo_settings") holding the theme's ordinal under "theme_mode". */
module Settings {
  import opened Common

  /** The themes, in declaration order. */
  datatype ThemeMode = DarkMode1 | DarkMode2 | CherryMocha | Light | Yellow

  const KeyThemeMode: string := "theme_mode"

  /** The number of themes (`ThemeMode.entries.size`). */
  const ThemeCount: int := 5

  /** A theme's position in the declaration. */
  function Ordinal(m: ThemeMode): (r: int)
    ensures 0 <= r < ThemeCount
  {
    match m
    case DarkMode1 => 0
    case DarkMode2 => 1
    case CherryMocha => 2
    case Light => 3
    case Yellow => 4
  }

  /** `ThemeMode.entries.getOrNull(n)`. */
  function Entry(n: int): (r: Option<ThemeMode>)
    ensures r.Some? <==> 0 <= n < ThemeCount
    ensures r.Some? ==> Ordinal(r.value) == n
  {
    if n == 0 then Some(DarkMode1)
    else if n == 1 then Some(DarkMode2)
    else if n == 2 then Some(CherryMocha)
    else if n == 3 then Some(Light)
    else if n == 4 then Some(Yellow)
    else None
  }

  /** Ordinals identify themes: each theme is the entry at its ordinal, so
      distinct themes have distinct ordinals. */
  lemma EntryOfOrdinal(m: ThemeMode)
    ensures Entry(Ordinal(m)) == Some(m)
  {
  }

  /** The getter's decoding of the stored value: a missing key reads as
      the default ordinal of `DARK_MODE_2`, and an ordinal out of range
      falls back to `DARK_MODE_2`. */
  function Decode(prefs: map<string, int>): (r: ThemeMode)
    ensures KeyThemeMode !in prefs ==> r == DarkMode2
    ensures KeyThemeMode in prefs && 0 <= prefs[KeyThemeMode] < ThemeCount ==> Ordinal(r) == prefs[KeyThemeMode]
    ensures KeyThemeMode in prefs && !(0 <= prefs[KeyThemeMode] < ThemeCount) ==> r == DarkMode2
  {
    var ordinal := if KeyThemeMode in prefs then prefs[KeyThemeMode] else Ordinal(DarkMode2);
    match Entry(ordinal)
    case Some(m) => m
    case None => DarkMode2
  }

  /** The preference file "echo_settings" (one instance stands for the
      one file the app opens). */
  class SettingsPreferences {
    /** The preference file's integer entries. */
    var prefs: map<string, int>

    constructor (stored: map<string, int>)
      ensures prefs == stored
    {
      prefs := stored;
    }

    /** The `themeMode` getter. */
    function CurrentTheme(): ThemeMode
      reads this
    {
      Decode(prefs)
    }

    /** The `themeMode` setter: writes the ordinal under "theme_mode" and
        nothing else; reading back gives the theme written. */
    method SetThemeMode(m: ThemeMode)
      modifies this
      ensures prefs == old(prefs)[KeyThemeMode := Ordinal(m)]
      ensures forall k :: k in old(prefs) && k != KeyThemeMode ==> k in prefs && prefs[k] == old(prefs)[k]
      ensures CurrentTheme() == m
    {
      prefs := prefs[KeyThemeMode := Ordinal(m)];
      EntryOfOrdinal(m);
    }
  }

  /** Writing `m` into any preference file and decoding gives `m`. */
  lemma WriteThenRead(prefs: map<string, int>, m: ThemeMode)
    ensures Decode(prefs[KeyThemeMode := Ordinal(m)]) == m
  {
    EntryOfOrdinal(m);
  }
}
