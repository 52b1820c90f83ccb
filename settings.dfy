/** The settings page (app/settings/page.tsx): the study-language cycle, the
    theme, notification and language handlers, the restore of saved
    preferences, and the guard of the profile update. localStorage is a map
    from keys to strings, the `dark` class on the document element a boolean,
    and the `prefers-color-scheme: dark` media query an input. */
module Settings {
  import opened Wrappers

  const ThemeKey: string := "theme"
  const NotificationsKey: string := "notifications"
  const LanguageKey: string := "language"

  const LanguageOptions: seq<string> := ["en", "es", "fr"]

  /** The values the theme handler is called with. */
  predicate IsThemeChoice(t: string) {
    t == "light" || t == "dark" || t == "system"
  }

  // ---------------------------------------------------------------------------
  // Language
  // ---------------------------------------------------------------------------

  /** Array.prototype.indexOf: the first position holding x, or -1. */
  function IndexOf(xs: seq<string>, x: string): (r: int)
    ensures -1 <= r < |xs|
    ensures r == -1 <==> x !in xs
    ensures r >= 0 ==> xs[r] == x && forall j :: 0 <= j < r ==> xs[j] != x
  {
    if xs == [] then -1
    else if xs[0] == x then 0
    else
      var k := IndexOf(xs[1..], x);
      if k == -1 then -1 else k + 1
  }

  /** cycleLanguage's choice: the option after the current one, wrapping
      around; a language not among the options has index -1 and so moves to
      the first option. The operand of % is never negative, so JavaScript's
      remainder and Dafny's agree here. */
  function NextLanguage(language: string): (r: string)
    ensures r in LanguageOptions
  {
    var i := IndexOf(LanguageOptions, language);
    LanguageOptions[(i + 1) % |LanguageOptions|]
  }

  /** The cycle is en -> es -> fr -> en, and anything else goes to en. */
  lemma NextLanguageCycle(language: string)
    ensures language == "en" ==> NextLanguage(language) == "es"
    ensures language == "es" ==> NextLanguage(language) == "fr"
    ensures language == "fr" ==> NextLanguage(language) == "en"
    ensures language !in LanguageOptions ==> NextLanguage(language) == "en"
  {
    var i := IndexOf(LanguageOptions, language);
    if language == "en" {
      assert LanguageOptions[0] == language;
    } else if language == "es" {
      assert LanguageOptions[1] == language;
    } else if language == "fr" {
      assert LanguageOptions[2] == language;
    }
  }

  /** Three switches bring any of the three options back to itself. */
  lemma CycleThriceIsIdentity(language: string)
    requires language in LanguageOptions
    ensures NextLanguage(NextLanguage(NextLanguage(language))) == language
  {
    NextLanguageCycle(language);
    NextLanguageCycle(NextLanguage(language));
    NextLanguageCycle(NextLanguage(NextLanguage(language)));
  }

  // ---------------------------------------------------------------------------
  // Stored values
  // ---------------------------------------------------------------------------

  /** Boolean.prototype.toString. */
  function BoolToString(b: bool): string {
    if b then "true" else "false"
  }

  /** `saved === "true"`: only the exact string "true" reads as enabled. */
  function ParseNotifications(saved: string): bool {
    saved == "true"
  }

  /** What the notifications handler stores reads back as the same flag. */
  lemma NotificationsRoundTrip(enabled: bool)
    ensures ParseNotifications(BoolToString(enabled)) == enabled
  {
  }

  /** The dark class after a theme change: present for "dark", absent for
      "light", and following the system preference for anything else. */
  function DarkClassFor(newTheme: string, prefersDark: bool): (dark: bool)
    ensures newTheme == "dark" ==> dark
    ensures newTheme == "light" ==> !dark
    ensures newTheme == "system" ==> dark == prefersDark
  {
    if newTheme == "dark" then true
    else if newTheme == "light" then false
    else prefersDark
  }

  /** The preference part of the page state. */
  datatype Preferences = Preferences(theme: string, notifications: bool, language: string)

  const DefaultPreferences: Preferences := Preferences("system", true, "en")

  /** The restore in the page's effect: a saved theme or language replaces the
      current one only when it is present and non-empty (a falsy string is
      skipped); saved notifications replace the flag whenever the key is
      present, enabled exactly for the string "true". The saved theme is not
      checked against the three choices. */
  function RestoredPreferences(current: Preferences, storage: map<string, string>): (p: Preferences)
    ensures p.theme == if ThemeKey in storage && storage[ThemeKey] != "" then storage[ThemeKey] else current.theme
    ensures p.notifications == if NotificationsKey in storage then storage[NotificationsKey] == "true" else current.notifications
    ensures p.language == if LanguageKey in storage && storage[LanguageKey] != "" then storage[LanguageKey] else current.language
  {
    var theme := if ThemeKey in storage && storage[ThemeKey] != "" then storage[ThemeKey] else current.theme;
    var notifications := if NotificationsKey in storage then ParseNotifications(storage[NotificationsKey]) else current.notifications;
    var language := if LanguageKey in storage && storage[LanguageKey] != "" then storage[LanguageKey] else current.language;
    Preferences(theme, notifications, language)
  }

  /** Storage after the three handlers have written p. */
  function Stored(storage: map<string, string>, p: Preferences): map<string, string> {
    storage[ThemeKey := p.theme][NotificationsKey := BoolToString(p.notifications)][LanguageKey := p.language]
  }

  /** What the handlers store is what the restore reads back, whatever the
      page held before, as long as theme and language are non-empty (an empty
      string would be skipped on restore). */
  lemma PreferencesRoundTrip(storage: map<string, string>, p: Preferences, current: Preferences)
    requires p.theme != "" && p.language != ""
    ensures RestoredPreferences(current, Stored(storage, p)) == p
  {
    var s := Stored(storage, p);
    assert s[ThemeKey] == p.theme;
    assert s[NotificationsKey] == BoolToString(p.notifications);
    assert s[LanguageKey] == p.language;
  }

  /** Empty storage leaves the defaults in place. */
  lemma EmptyStorageKeepsDefaults()
    ensures RestoredPreferences(DefaultPreferences, map[]) == DefaultPreferences
  {
  }

  // ---------------------------------------------------------------------------
  // Profile
  // ---------------------------------------------------------------------------

  /** The signed-in user as the page reads it; each field may be missing. */
  datatype User = User(email: Option<string>, fullName: Option<string>, phone: Option<string>)

  /** `value || ""`: a missing value reads as the empty string. */
  function OrEmpty(v: Option<string>): (r: string)
    ensures v.Some? ==> r == v.value
    ensures v.None? ==> r == ""
  {
    match v
    case None => ""
    case Some(s) => s
  }

  /** The metadata update the profile form sends. */
  datatype ProfileData = ProfileData(fullName: string, phone: string)

  const NotLoggedInMessage: string := "You must be logged in to update your profile"
  const ProfileUpdatedMessage: string := "Profile updated successfully!"
  const ProfileFailedMessage: string := "Failed to update profile"

  /** handleProfileUpdate's guard: with no user it reports the error and sends
      nothing; otherwise it sends the form's name and phone. */
  function ProfileUpdateRequest(user: Option<User>, fullName: string, phone: string): (r: Result<ProfileData, string>)
    ensures r.Failure? <==> user.None?
    ensures r.Failure? ==> r.error == NotLoggedInMessage
    ensures r.Success? ==> r.value.fullName == fullName && r.value.phone == phone
  {
    if user.None? then Failure(NotLoggedInMessage) else Success(ProfileData(fullName, phone))
  }

  /** The toast after the update call: success, the message of a thrown
      Error, or the fallback when the thrown value is not an Error. The
      outer None is success; Some(None) is a thrown non-Error value. */
  function ProfileUpdateToast(updateError: Option<Option<string>>): (r: Result<string, string>)
    ensures updateError.None? <==> r.Success?
    ensures r.Success? ==> r.value == ProfileUpdatedMessage
    ensures updateError.Some? && updateError.value.Some? ==> r == Failure(updateError.value.value)
    ensures updateError == Some(None) ==> r == Failure(ProfileFailedMessage)
  {
    match updateError
    case None => Success(ProfileUpdatedMessage)
    case Some(None) => Failure(ProfileFailedMessage)
    case Some(Some(m)) => Failure(m)
  }

  // ---------------------------------------------------------------------------
  // The page as component state
  // ---------------------------------------------------------------------------

  class SettingsPage {
    var fullName: string
    var email: string
    var phone: string
    var theme: string
    var notifications: bool
    var language: string
    /** localStorage */
    var storage: map<string, string>
    /** whether the document element carries the `dark` class */
    var darkClass: bool

    function Prefs(): Preferences
      reads this
    {
      Preferences(theme, notifications, language)
    }

    /** The page's initial state over the browser's current storage and class. */
    constructor (storage: map<string, string>, darkClass: bool)
      ensures Prefs() == DefaultPreferences
      ensures fullName == "" && email == "" && phone == ""
      ensures this.storage == storage && this.darkClass == darkClass
    {
      fullName, email, phone := "", "", "";
      theme, notifications, language := "system", true, "en";
      this.storage := storage;
      this.darkClass := darkClass;
    }

    /** The effect run when the user changes: with a user, the profile fields
        are copied (missing ones as "") and the saved preferences restored;
        without one nothing changes. Storage and the dark class are only read. */
    method Restore(user: Option<User>)
      modifies this
      ensures storage == old(storage) && darkClass == old(darkClass)
      ensures user.None? ==> Prefs() == old(Prefs()) && fullName == old(fullName)
                             && email == old(email) && phone == old(phone)
      ensures user.Some? ==> && Prefs() == RestoredPreferences(old(Prefs()), storage)
                             && fullName == OrEmpty(user.value.fullName)
                             && email == OrEmpty(user.value.email)
                             && phone == OrEmpty(user.value.phone)
    {
      if user.Some? {
        fullName := OrEmpty(user.value.fullName);
        email := OrEmpty(user.value.email);
        phone := OrEmpty(user.value.phone);
        if ThemeKey in storage && storage[ThemeKey] != "" {
          theme := storage[ThemeKey];
        }
        if NotificationsKey in storage {
          notifications := ParseNotifications(storage[NotificationsKey]);
        }
        if LanguageKey in storage && storage[LanguageKey] != "" {
          language := storage[LanguageKey];
        }
      }
    }

    /** handleThemeChange: records the theme, stores it under "theme" and sets
        the dark class from it and, for "system", from the media query. */
    method HandleThemeChange(newTheme: string, prefersDark: bool) returns (toast: string)
      requires IsThemeChoice(newTheme)
      modifies this`theme, this`storage, this`darkClass
      ensures theme == newTheme
      ensures storage == old(storage)[ThemeKey := newTheme]
      ensures darkClass == DarkClassFor(newTheme, prefersDark)
      ensures toast == "Theme updated"
    {
      theme := newTheme;
      storage := storage[ThemeKey := newTheme];
      if newTheme == "dark" {
        darkClass := true;
      } else if newTheme == "light" {
        darkClass := false;
      } else {
        darkClass := prefersDark;
      }
      toast := "Theme updated";
    }

    /** The header button: "light" when the theme is "dark", otherwise "dark". */
    method ToggleTheme(prefersDark: bool) returns (toast: string)
      modifies this`theme, this`storage, this`darkClass
      ensures theme == (if old(theme) == "dark" then "light" else "dark")
      ensures darkClass == (old(theme) != "dark")
      ensures storage == old(storage)[ThemeKey := theme]
      ensures toast == "Theme updated"
    {
      toast := HandleThemeChange(if theme == "dark" then "light" else "dark", prefersDark);
    }

    /** handleNotificationsChange: records the flag and stores "true" or "false". */
    method HandleNotificationsChange(enabled: bool) returns (toast: string)
      modifies this`notifications, this`storage
      ensures notifications == enabled
      ensures storage == old(storage)[NotificationsKey := BoolToString(enabled)]
      ensures toast == if enabled then "Notifications enabled" else "Notifications disabled"
    {
      notifications := enabled;
      storage := storage[NotificationsKey := BoolToString(enabled)];
      toast := if enabled then "Notifications enabled" else "Notifications disabled";
    }

    /** handleLanguageChange: records the language and stores it. */
    method HandleLanguageChange(lang: string) returns (toast: string)
      modifies this`language, this`storage
      ensures language == lang
      ensures storage == old(storage)[LanguageKey := lang]
      ensures toast == "Language preference updated"
    {
      language := lang;
      storage := storage[LanguageKey := lang];
      toast := "Language preference updated";
    }

    /** cycleLanguage: switches to the next option and stores it. */
    method CycleLanguage() returns (toast: string)
      modifies this`language, this`storage
      ensures language == NextLanguage(old(language)) && language in LanguageOptions
      ensures storage == old(storage)[LanguageKey := language]
      ensures toast == "Language preference updated"
    {
      toast := HandleLanguageChange(NextLanguage(language));
    }
  }
}
