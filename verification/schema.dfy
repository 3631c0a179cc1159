/** The persisted records in their repaired (sanitised) form, the constant
    tables every surface of the extension shares, and the embedding of
    repaired records back into plain JavaScript values, which is what
    storage and the export file hold. */
module Schema {
  import opened Basics
  import opened JsValues
  import opened Registry

  datatype Language = En | Ja
  datatype Theme = System | Light | Dark
  datatype Position = Left | Right

  function LanguageCode(l: Language): string {
    match l
    case En => "en"
    case Ja => "ja"
  }

  function ThemeCode(t: Theme): string {
    match t
    case System => "system"
    case Light => "light"
    case Dark => "dark"
  }

  function PositionCode(p: Position): string {
    match p
    case Left => "left"
    case Right => "right"
  }

  datatype Settings = Settings(language: Language, theme: Theme)

  /** A prompt slot. `name` and `template` keep the JavaScript value the
      sanitiser found (any truthy name, any non-nullish template); the ratios
      are finite numbers. */
  datatype Slot = Slot(
    name: JsValue,
    template: JsValue,
    widthRatio: real,
    heightRatio: real,
    position: Position,
    service: Service,
    temporary: bool)

  /** The invariant every repaired slot satisfies. */
  predicate SlotValid(s: Slot) {
    && Truthy(s.name)
    && !Nullish(s.template)
    && 0.2 <= s.widthRatio <= 0.8
    && 0.5 <= s.heightRatio <= 1.0
    && (s.temporary ==> SupportsTemporary(s.service))
  }

  predicate AllValid(slots: seq<Slot>) {
    forall i :: 0 <= i < |slots| ==> SlotValid(slots[i])
  }

  /** `Math.max(slotCount - 1, 0)`, the largest index a hotkey may hold. */
  function MaxIndex(slotCount: nat): nat {
    if slotCount >= 1 then slotCount - 1 else 0
  }

  /** The invariant of a repaired hotkey map: three entries, each a number
      between 0 and the largest slot index. Entries need not be integers. */
  predicate HotkeysValid(hotkeys: seq<real>, slotCount: nat) {
    |hotkeys| == 3 && forall k :: 0 <= k < 3 ==> 0.0 <= hotkeys[k] <= MaxIndex(slotCount) as real
  }

  // ---- Constant tables ----

  /** `slotNamePrefix` of the options page's string table, identical to the
      background worker's `SLOT_NAME_PREFIX`. */
  function SlotNamePrefix(l: Language): (r: string)
    ensures r != ""
  {
    match l
    case En => "Slot "
    case Ja => "スロット "
  }

  /** `copySuffix` of the options page's string table. */
  function CopySuffix(l: Language): string {
    match l
    case En => " (copy)"
    case Ja => "（複製）"
  }

  /** `FALLBACK_TITLES`: the page title used when the tab has none. */
  function FallbackTitle(l: Language): string {
    match l
    case En => "this page"
    case Ja => "このページ"
  }

  /** The name synthesised for the slot at 0-based position i. */
  function SynthesizedName(l: Language, i: nat): (r: string)
    ensures r != ""
  {
    SlotNamePrefix(l) + ToDecimal(i + 1)
  }

  /** A slot of the built-in default lists: ChatGPT, temporary chat, right
      side, a third of the width and nearly the full height. */
  function DefaultSlot(name: string, template: string): (s: Slot)
    requires name != ""
    ensures SlotValid(s) && s.service == ChatGpt && s.temporary && s.position == Right
  {
    Slot(Str(name), Str(template), 0.33, 0.95, Right, DefaultService, true)
  }

  /** Names of `LANGUAGE_DEFAULT_SLOTS`, identical in the options page and
      the background worker. */
  function DefaultName(l: Language, i: nat): (r: string)
    requires i < 3
    ensures r != ""
  {
    match l
    case En =>
      if i == 0 then "Kid-friendly summary (JA)"
      else if i == 1 then "Key points + conclusion (JA)"
      else "English summary (5 bullets)"
    case Ja =>
      if i == 0 then "小学生向け要約"
      else if i == 1 then "要点3つ＋結論"
      else "英語要約（5つの箇条書き）"
  }

  /** Templates of `LANGUAGE_DEFAULT_SLOTS`. */
  function DefaultTemplate(l: Language, i: nat): string
    requires i < 3
  {
    match l
    case En =>
      if i == 0 then "Summarize this page in Japanese for a grade-school student. Provide five bullet points.\n\nSelected text:\n{selection}\nURL: {url}\nTitle: {title}"
      else if i == 1 then "Summarize the web page in Japanese in three key points followed by a short conclusion.\n\nSelected text:\n{selection}\nURL: {url}\nTitle: {title}"
      else "Summarize the page in English using five concise bullet points.\n\nSelected text:\n{selection}\nURL: {url}\nTitle: {title}"
    case Ja =>
      if i == 0 then "このページを小学生向けにわかりやすくまとめてください。重要なポイントを5つの箇条書きで提示してください。\n\n選択中のテキスト:\n{selection}\nURL: {url}\nタイトル: {title}"
      else if i == 1 then "Webページの内容を重要な要点3つと簡潔な結論でまとめてください。\n\n選択中のテキスト:\n{selection}\nURL: {url}\nタイトル: {title}"
      else "Summarize the page in English using five concise bullet points.\n\n選択中のテキスト:\n{selection}\nURL: {url}\nTitle: {title}"
  }

  /** `LANGUAGE_DEFAULT_SLOTS[l]`: three valid slots. */
  function DefaultSlots(l: Language): (r: seq<Slot>)
    ensures |r| == 3 && AllValid(r)
    ensures forall i :: 0 <= i < 3 ==> r[i].service == ChatGpt && r[i].temporary && r[i].position == Right
  {
    seq(3, i requires 0 <= i < 3 => DefaultSlot(DefaultName(l, i), DefaultTemplate(l, i)))
  }

  // ---- Embedding repaired records into JavaScript values ----

  function SlotToRaw(s: Slot): JsValue {
    Obj(map[
      "name" := s.name,
      "template" := s.template,
      "widthRatio" := Num(Finite(s.widthRatio)),
      "heightRatio" := Num(Finite(s.heightRatio)),
      "position" := Str(PositionCode(s.position)),
      "service" := Str(Id(s.service)),
      "temporary" := Bool(s.temporary)])
  }

  function SlotsToRaw(slots: seq<Slot>): (r: seq<JsValue>)
    ensures |r| == |slots|
    ensures forall i :: 0 <= i < |slots| ==> r[i] == SlotToRaw(slots[i])
  {
    seq(|slots|, i requires 0 <= i < |slots| => SlotToRaw(slots[i]))
  }

  function SettingsToRaw(s: Settings): JsValue {
    Obj(map["language" := Str(LanguageCode(s.language)), "theme" := Str(ThemeCode(s.theme))])
  }

  function HotkeysToRaw(hotkeys: seq<real>): (r: JsValue)
    ensures r.Arr? && |r.elems| == |hotkeys|
    ensures forall k :: 0 <= k < |hotkeys| ==> r.elems[k] == Num(Finite(hotkeys[k]))
  {
    Arr(seq(|hotkeys|, k requires 0 <= k < |hotkeys| => Num(Finite(hotkeys[k]))))
  }
}
