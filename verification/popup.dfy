/** The toolbar popup (popup.js): it reads the stored settings, repairs the
    language and the theme with its own copies of the field sanitisers, and
    picks its string table by language. */
module Popup {
  import opened JsValues
  import opened Schema
  import opened Preferences

  /** One entry of `POPUP_STRINGS`. */
  datatype PopupStrings = PopupStrings(title: string, description: string, button: string)

  /** `POPUP_STRINGS[language] || POPUP_STRINGS.en`: the table has both
      languages, so the English fallback is never used. */
  function StringsFor(l: Language): (r: PopupStrings)
    ensures r.title == "GPT Side Runner"
    ensures l == En ==> r.button == "Open settings"
    ensures l == Ja ==> r.button == "設定を開く"
  {
    match l
    case En => PopupStrings("GPT Side Runner",
      "Open the settings page to manage prompt slots, hotkeys, and AI services.", "Open settings")
    case Ja => PopupStrings("GPT Side Runner", "スロット、ホットキー、AIサービスの設定を開きます。", "設定を開く")
  }

  /** What `init()` shows: the string table and the theme mode. */
  datatype PopupView = PopupView(strings: PopupStrings, theme: Theme)

  /** `init()`: `settings?.language` and `settings?.theme`, each repaired on
      its own, with no check that the stored record is an object. */
  function PopupInit(storedSettings: JsValue, detected: Language): (v: PopupView)
    ensures Get(storedSettings, "language") == Str("ja") ==> v.strings == StringsFor(Ja)
    ensures Get(storedSettings, "language") == Str("en") ==> v.strings == StringsFor(En)
    ensures Get(storedSettings, "language") != Str("ja") && Get(storedSettings, "language") != Str("en") ==>
      v.strings == StringsFor(detected)
    ensures v.theme == Dark <==> Get(storedSettings, "theme") == Str("dark")
    ensures v.theme == Light <==> Get(storedSettings, "theme") == Str("light")
  {
    var language := SanitizeLanguage(Get(storedSettings, "language"), detected);
    PopupView(StringsFor(language), SanitizeTheme(Get(storedSettings, "theme")))
  }

  /** The popup's field-by-field repair, without the object check, agrees
      with `sanitizeSettings` on every stored value: a non-object has no
      fields, so both give the defaults. */
  lemma PopupAgreesWithSettings(storedSettings: JsValue, detected: Language)
    ensures var s := SanitizeSettings(storedSettings, detected);
      PopupInit(storedSettings, detected) == PopupView(StringsFor(s.language), s.theme)
  {
    if !storedSettings.Obj? {
      assert Get(storedSettings, "language") == Undefined;
      assert Get(storedSettings, "theme") == Undefined;
    } else {
      assert Truthy(storedSettings) && IsObject(storedSettings);
    }
  }
}
