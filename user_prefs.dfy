/**
 * The user preference store: a string-keyed map of typed values, read with a
 * default per key, written one edit at a time.
 */
module UserPrefs {

  datatype PrefValue = BoolPref(b: bool) | StringPref(s: string)

  type Preferences = map<string, PrefValue>

  const IsLoggedInKey := "is_logged_in"
  const UsernameKey := "username"
  const ThemeModeKey := "theme_mode"
  const SortOrderKey := "sort_order"
  const ShowFavoritesOnlyKey := "show_favorites_only"

  /** `prefs[key] ?: default` for a Boolean key. */
  function ReadBool(prefs: Preferences, key: string, default: bool): bool {
    if key in prefs && prefs[key].BoolPref? then prefs[key].b else default
  }

  /** `prefs[key] ?: default` for a string key. */
  function ReadString(prefs: Preferences, key: string, default: string): string {
    if key in prefs && prefs[key].StringPref? then prefs[key].s else default
  }

  /** Every stored value has the type of the typed key it was written with. */
  ghost predicate WellTyped(prefs: Preferences) {
    && (IsLoggedInKey in prefs ==> prefs[IsLoggedInKey].BoolPref?)
    && (UsernameKey in prefs ==> prefs[UsernameKey].StringPref?)
    && (ThemeModeKey in prefs ==> prefs[ThemeModeKey].StringPref?)
    && (SortOrderKey in prefs ==> prefs[SortOrderKey].StringPref?)
    && (ShowFavoritesOnlyKey in prefs ==> prefs[ShowFavoritesOnlyKey].BoolPref?)
  }

  class UserPrefsRepository {
    var prefs: Preferences

    ghost predicate Valid()
      reads this
    {
      WellTyped(prefs)
    }

    /** A store nothing has been written to. */
    constructor ()
      ensures Valid() && prefs == map[]
    {
      prefs := map[];
    }

    /** `isLoggedIn`, false until written. */
    function IsLoggedIn(): (r: bool)
      reads this
      requires Valid()
      ensures IsLoggedInKey !in prefs ==> !r
      ensures IsLoggedInKey in prefs ==> prefs[IsLoggedInKey] == BoolPref(r)
    {
      ReadBool(prefs, IsLoggedInKey, false)
    }

    /** `username`, empty until written. */
    function Username(): (r: string)
      reads this
      requires Valid()
      ensures UsernameKey !in prefs ==> r == ""
      ensures UsernameKey in prefs ==> prefs[UsernameKey] == StringPref(r)
    {
      ReadString(prefs, UsernameKey, "")
    }

    /** `themeMode`, "system" until written. */
    function ThemeMode(): (r: string)
      reads this
      requires Valid()
      ensures ThemeModeKey !in prefs ==> r == "system"
      ensures ThemeModeKey in prefs ==> prefs[ThemeModeKey] == StringPref(r)
    {
      ReadString(prefs, ThemeModeKey, "system")
    }

    /** `sortOrder`, "title" until written. */
    function SortOrder(): (r: string)
      reads this
      requires Valid()
      ensures SortOrderKey !in prefs ==> r == "title"
      ensures SortOrderKey in prefs ==> prefs[SortOrderKey] == StringPref(r)
    {
      ReadString(prefs, SortOrderKey, "title")
    }

    /** `showFavoritesOnly`, false until written. */
    function ShowFavoritesOnly(): (r: bool)
      reads this
      requires Valid()
      ensures ShowFavoritesOnlyKey !in prefs ==> !r
      ensures ShowFavoritesOnlyKey in prefs ==> prefs[ShowFavoritesOnlyKey] == BoolPref(r)
    {
      ReadBool(prefs, ShowFavoritesOnlyKey, false)
    }

    /** `setLoginStatus`: one edit writing both the session flag and the user name. */
    method SetLoginStatus(isLoggedIn: bool, username: string := "")
      requires Valid()
      modifies this
      ensures Valid()
      ensures prefs == old(prefs)[IsLoggedInKey := BoolPref(isLoggedIn)][UsernameKey := StringPref(username)]
      ensures IsLoggedIn() == isLoggedIn && Username() == username
      ensures ThemeMode() == old(ThemeMode()) && SortOrder() == old(SortOrder())
      ensures ShowFavoritesOnly() == old(ShowFavoritesOnly())
    {
      prefs := prefs[IsLoggedInKey := BoolPref(isLoggedIn)][UsernameKey := StringPref(username)];
    }

    /** `setThemeMode`: stores any string, without checking it against the known modes. */
    method SetThemeMode(mode: string)
      requires Valid()
      modifies this
      ensures Valid()
      ensures prefs == old(prefs)[ThemeModeKey := StringPref(mode)]
      ensures ThemeMode() == mode
      ensures IsLoggedIn() == old(IsLoggedIn()) && Username() == old(Username())
      ensures SortOrder() == old(SortOrder()) && ShowFavoritesOnly() == old(ShowFavoritesOnly())
    {
      prefs := prefs[ThemeModeKey := StringPref(mode)];
    }

    /** `setSortOrder`: stores any string, without checking it against the known orders. */
    method SetSortOrder(order: string)
      requires Valid()
      modifies this
      ensures Valid()
      ensures prefs == old(prefs)[SortOrderKey := StringPref(order)]
      ensures SortOrder() == order
      ensures IsLoggedIn() == old(IsLoggedIn()) && Username() == old(Username())
      ensures ThemeMode() == old(ThemeMode()) && ShowFavoritesOnly() == old(ShowFavoritesOnly())
    {
      prefs := prefs[SortOrderKey := StringPref(order)];
    }

    /** `setShowFavoritesOnly`. */
    method SetShowFavoritesOnly(show: bool)
      requires Valid()
      modifies this
      ensures Valid()
      ensures prefs == old(prefs)[ShowFavoritesOnlyKey := BoolPref(show)]
      ensures ShowFavoritesOnly() == show
      ensures IsLoggedIn() == old(IsLoggedIn()) && Username() == old(Username())
      ensures ThemeMode() == old(ThemeMode()) && SortOrder() == old(SortOrder())
    {
      prefs := prefs[ShowFavoritesOnlyKey := BoolPref(show)];
    }

    /** `logout`: clears every key, so every reader is back at its default. */
    method Logout()
      requires Valid()
      modifies this
      ensures Valid() && prefs == map[]
      ensures !IsLoggedIn() && Username() == "" && ThemeMode() == "system"
      ensures SortOrder() == "title" && !ShowFavoritesOnly()
    {
      prefs := map[];
    }
  }
}
