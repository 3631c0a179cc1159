/** The settings sanitiser. The options page, the background worker and the
    toolbar popup each carry an identical copy of `sanitizeLanguage` and
    `sanitizeTheme`, and the first two an identical `sanitizeSettings`; they
    differ only in how each surface detects the browser's UI language, which
    is the parameter `detected` here. */
module Preferences {
  import opened JsValues
  import opened Schema

  /** `DEFAULT_SETTINGS`. */
  function DefaultSettings(detected: Language): Settings {
    Settings(detected, System)
  }

  /** `sanitizeLanguage`: "ja" and "en" are kept, anything else gives the
      detected language. */
  function SanitizeLanguage(v: JsValue, detected: Language): (l: Language)
    ensures v == Str("ja") ==> l == Ja
    ensures v == Str("en") ==> l == En
    ensures v != Str("ja") && v != Str("en") ==> l == detected
  {
    if v == Str("ja") then Ja else if v == Str("en") then En else detected
  }

  /** `sanitizeTheme`: "dark" and "light" are kept, anything else is "system". */
  function SanitizeTheme(v: JsValue): (t: Theme)
    ensures v == Str("dark") <==> t == Dark
    ensures v == Str("light") <==> t == Light
  {
    if v == Str("dark") then Dark else if v == Str("light") then Light else System
  }

  /** `sanitizeSettings`: a falsy or non-object record gives the defaults;
      otherwise each field is repaired on its own. */
  function SanitizeSettings(raw: JsValue, detected: Language): (s: Settings)
    ensures !(Truthy(raw) && IsObject(raw)) ==> s == DefaultSettings(detected)
    ensures !raw.Obj? ==> s == DefaultSettings(detected)
    ensures raw.Obj? && Get(raw, "language") == Str("ja") ==> s.language == Ja
    ensures raw.Obj? && Get(raw, "language") == Str("en") ==> s.language == En
    ensures raw.Obj? && Get(raw, "language") != Str("ja") && Get(raw, "language") != Str("en") ==>
      s.language == detected
    ensures raw.Obj? ==> (s.theme == Dark <==> Get(raw, "theme") == Str("dark"))
    ensures raw.Obj? ==> (s.theme == Light <==> Get(raw, "theme") == Str("light"))
  {
    if !Truthy(raw) || !IsObject(raw) then DefaultSettings(detected)
    else Settings(SanitizeLanguage(Get(raw, "language"), detected), SanitizeTheme(Get(raw, "theme")))
  }

  /** Both field sanitisers land in their enumerations and are idempotent:
      the stored code of a repaired value repairs to itself. */
  lemma SanitizeLanguageIdempotent(v: JsValue, detected: Language)
    ensures SanitizeLanguage(Str(LanguageCode(SanitizeLanguage(v, detected))), detected)
         == SanitizeLanguage(v, detected)
  {
  }

  lemma SanitizeThemeIdempotent(v: JsValue)
    ensures SanitizeTheme(Str(ThemeCode(SanitizeTheme(v)))) == SanitizeTheme(v)
  {
  }

  /** Every settings record survives storage: storing it and repairing it
      again gives it back. Hence `sanitizeSettings` is idempotent. */
  lemma SettingsRoundTrip(s: Settings, detected: Language)
    ensures SanitizeSettings(SettingsToRaw(s), detected) == s
  {
    var raw := SettingsToRaw(s);
    assert Get(raw, "language") == Str(LanguageCode(s.language));
    assert Get(raw, "theme") == Str(ThemeCode(s.theme));
    assert Str(LanguageCode(s.language)) != Str("ja") ==> s.language == En;
  }

  lemma SanitizeSettingsIdempotent(raw: JsValue, detected: Language)
    ensures SanitizeSettings(SettingsToRaw(SanitizeSettings(raw, detected)), detected)
         == SanitizeSettings(raw, detected)
  {
    SettingsRoundTrip(SanitizeSettings(raw, detected), detected);
  }
}
