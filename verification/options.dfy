/** The options page's pure logic (options.js): its `clamp`, HTML escaping,
    the service checks, the slot and hotkey sanitisers, the default slots and
    the sanitiser applied to an imported settings file. */
module Options {
  import opened Basics
  import opened JsValues
  import opened Registry
  import opened Schema
  import opened Replace
  import opened Preferences

  function Min(a: real, b: real): real { if a <= b then a else b }
  function Max(a: real, b: real): real { if a >= b then a else b }

  /** The options page's `clamp`: a non-finite value (NaN or an infinity)
      gives `min`; a finite one is clamped with `Math.min(max, Math.max(min, v))`. */
  function Clamp(value: JsNum, min: real, max: real): (r: real)
    ensures !IsFinite(value) ==> r == min
    ensures IsFinite(value) && min <= max ==> min <= r <= max
    ensures IsFinite(value) && min <= value.r <= max ==> r == value.r
    ensures IsFinite(value) && value.r < min <= max ==> r == min
    ensures IsFinite(value) && min <= max < value.r ==> r == max
  {
    if IsFinite(value) then Min(max, Max(min, value.r)) else min
  }

  // ---- HTML escaping ----

  /** The entity a single character becomes. */
  function EscapeChar(c: char): string {
    if c == '&' then "&amp;"
    else if c == '<' then "&lt;"
    else if c == '>' then "&gt;"
    else if c == '"' then "&quot;"
    else [c]
  }

  /** Character-by-character escaping: the reference the four passes of
      `escapeHtml` are proved against. */
  function EscapeChars(s: string): (r: string)
    decreases |s|
  {
    if s == [] then [] else EscapeChar(s[0]) + EscapeChars(s[1..])
  }

  /** The four sequential `replaceAll` passes of `escapeHtml` on a string. */
  function EscapePasses(s: string): string {
    ReplaceAll(ReplaceAll(ReplaceAll(ReplaceAll(s, "&", "&amp;"), "<", "&lt;"), ">", "&gt;"), "\"", "&quot;")
  }

  /** `escapeHtml(value)`: the value is converted with `String` first. */
  function EscapeHtml(env: Env, value: JsValue): (r: string)
    ensures r == EscapeChars(Text(env, value))
    ensures '<' !in r && '>' !in r && '"' !in r
  {
    var s := Text(env, value);
    EscapePassesChars(s);
    EscapeCharsSafe(s);
    EscapePasses(s)
  }

  /** The passes, applied to one character, give its entity. The `&` pass
      runs first, so the `&` of the entities added later is not escaped
      again. */
  lemma EscapePassesOne(x: char)
    ensures EscapePasses([x]) == EscapeChar(x)
  {
    var one: string := [x];
    assert one == [x] + [];
    ReplaceCharCons(x, [], '&', "&amp;");
    var a := ReplaceAll(one, "&", "&amp;");
    assert a == (if x == '&' then "&amp;" else [x]);
    if x == '<' {
      ReplaceCharAbsent(a, '&', "&amp;");
    }
    ReplaceCharAbsentOrCons(a, '<', "&lt;");
    var b := ReplaceAll(a, "<", "&lt;");
    assert b == (if x == '&' then "&amp;" else if x == '<' then "&lt;" else [x]);
    ReplaceCharAbsentOrCons(b, '>', "&gt;");
    var c := ReplaceAll(b, ">", "&gt;");
    assert c == (if x == '&' then "&amp;" else if x == '<' then "&lt;" else if x == '>' then "&gt;" else [x]);
    ReplaceCharAbsentOrCons(c, '"', "&quot;");
  }

  /** Helper for EscapePassesOne: a one-character pattern on a one-character
      or entity string. */
  lemma ReplaceCharAbsentOrCons(s: string, c: char, replacement: string)
    requires |s| == 1 || (|s| > 1 && c !in s)
    ensures |s| == 1 ==> ReplaceAll(s, [c], replacement) == (if s[0] == c then replacement else s)
    ensures c !in s ==> ReplaceAll(s, [c], replacement) == s
  {
    if c !in s {
      ReplaceCharAbsent(s, c, replacement);
    } else {
      assert s == [s[0]] + [];
      ReplaceCharCons(s[0], [], c, replacement);
    }
  }

  /** The four passes escape character by character. */
  lemma {:induction false} EscapePassesChars(s: string)
    ensures EscapePasses(s) == EscapeChars(s)
    decreases |s|
  {
    if s == [] {
    } else {
      var x, t := s[0], s[1..];
      assert s == [x] + t;
      ReplaceCharAppend([x], t, '&', "&amp;");
      var a1, a2 := ReplaceAll([x], "&", "&amp;"), ReplaceAll(t, "&", "&amp;");
      ReplaceCharAppend(a1, a2, '<', "&lt;");
      var b1, b2 := ReplaceAll(a1, "<", "&lt;"), ReplaceAll(a2, "<", "&lt;");
      ReplaceCharAppend(b1, b2, '>', "&gt;");
      var c1, c2 := ReplaceAll(b1, ">", "&gt;"), ReplaceAll(b2, ">", "&gt;");
      ReplaceCharAppend(c1, c2, '"', "&quot;");
      EscapePassesOne(x);
      EscapePassesChars(t);
    }
  }

  /** Escaped text holds no `<`, `>` or `"`. */
  lemma {:induction false} EscapeCharsSafe(s: string)
    ensures '<' !in EscapeChars(s) && '>' !in EscapeChars(s) && '"' !in EscapeChars(s)
    decreases |s|
  {
    if s != [] {
      EscapeCharsSafe(s[1..]);
    }
  }

  /** Decoding of the four entities `escapeHtml` produces; the partner that
      shows escaping loses nothing. */
  function Unescape(s: string): string
    decreases |s|
  {
    if s == [] then []
    else if StartsWith(s, "&amp;") then "&" + Unescape(s[5..])
    else if StartsWith(s, "&lt;") then "<" + Unescape(s[4..])
    else if StartsWith(s, "&gt;") then ">" + Unescape(s[4..])
    else if StartsWith(s, "&quot;") then "\"" + Unescape(s[6..])
    else [s[0]] + Unescape(s[1..])
  }

  /** Unescaping undoes the escaping of the first character. */
  lemma UnescapeEscapeChar(x: char, rest: string)
    ensures Unescape(EscapeChar(x) + rest) == [x] + Unescape(rest)
  {
    var e := EscapeChar(x);
    var u := e + rest;
    assert u[..|e|] == e;
    if x == '&' {
      UnescapeEntity(e, rest, 5);
    } else if x == '<' {
      UnescapeEntity(e, rest, 4);
    } else if x == '>' {
      UnescapeEntity(e, rest, 4);
    } else if x == '"' {
      UnescapeEntity(e, rest, 6);
    } else {
      assert u[0] == x && u[1..] == rest;
      assert !StartsWith(u, "&amp;") && !StartsWith(u, "&lt;") by { assert u[0] != '&'; }
      assert !StartsWith(u, "&gt;") && !StartsWith(u, "&quot;") by { assert u[0] != '&'; }
    }
  }

  /** Helper for UnescapeEscapeChar: an entity at the front is decoded. */
  lemma UnescapeEntity(e: string, rest: string, n: nat)
    requires e in {"&amp;", "&lt;", "&gt;", "&quot;"} && |e| == n
    ensures Unescape(e + rest) == (if e == "&amp;" then "&" else if e == "&lt;" then "<"
                                   else if e == "&gt;" then ">" else "\"") + Unescape(rest)
  {
    var u := e + rest;
    assert u[..n] == e;
    assert u[n..] == rest;
    if e == "&amp;" {
      assert StartsWith(u, "&amp;");
    } else if e == "&lt;" {
      assert !StartsWith(u, "&amp;") by { assert u[1] == 'l'; }
      assert StartsWith(u, "&lt;");
    } else if e == "&gt;" {
      assert !StartsWith(u, "&amp;") && !StartsWith(u, "&lt;") by { assert u[1] == 'g'; }
      assert StartsWith(u, "&gt;");
    } else {
      assert !StartsWith(u, "&amp;") && !StartsWith(u, "&lt;") && !StartsWith(u, "&gt;") by {
        assert u[1] == 'q';
      }
      assert StartsWith(u, "&quot;");
    }
  }

  /** Unescaping the escaped text gives the original text back. */
  lemma {:induction false} UnescapeEscapeChars(s: string)
    ensures Unescape(EscapeChars(s)) == s
    decreases |s|
  {
    if s != [] {
      UnescapeEscapeChar(s[0], EscapeChars(s[1..]));
      UnescapeEscapeChars(s[1..]);
    }
  }

  lemma EscapeHtmlRoundTrip(env: Env, value: JsValue)
    ensures Unescape(EscapeHtml(env, value)) == Text(env, value)
  {
    UnescapeEscapeChars(Text(env, value));
  }

  // ---- Services ----

  /** `sanitizeService`: a string naming a registered service is kept,
      anything else gives the default service. */
  function SanitizeService(v: JsValue): (s: Service)
    ensures forall t: Service :: v == Str(Id(t)) ==> s == t
    ensures (forall t: Service :: v != Str(Id(t))) ==> s == DefaultService
  {
    if v.Str? && Lookup(v.s).Some? then Lookup(v.s).value else DefaultService
  }

  /** `serviceSupportsTemporary`: only the identifier "chatgpt" qualifies. */
  function ServiceSupportsTemporary(v: JsValue): (b: bool)
    ensures b <==> v == Str("chatgpt")
  {
    v.Str? && Lookup(v.s).Some? && SupportsTemporary(Lookup(v.s).value)
  }

  // ---- Slots ----

  /** `getDefaultSlots(language)`: a fresh copy of the default list for the
      repaired language. */
  function GetDefaultSlots(language: JsValue, detected: Language): (r: seq<Slot>)
    ensures |r| == 3 && AllValid(r)
    ensures r == DefaultSlots(SanitizeLanguage(language, detected))
  {
    DefaultSlots(SanitizeLanguage(language, detected))
  }

  /** `Number(x) || fallback`: NaN and zero are falsy. */
  function OrFallback(n: JsNum, fallback: real): (r: JsNum)
    ensures !r.NaN?
    ensures (n.NaN? || n == Finite(0.0)) ==> r == Finite(fallback)
    ensures !(n.NaN? || n == Finite(0.0)) ==> r == n
  {
    if Truthy(Num(n)) then n else Finite(fallback)
  }

  /** `Boolean(v ?? true)`. */
  predicate TemporaryFlag(v: JsValue) {
    Nullish(v) || Truthy(v)
  }

  /** What the options page makes of one stored ratio `n`: the fallback for
      NaN and 0, `min` for either infinity, a finite value inside the range
      itself and one outside it the nearer bound. */
  predicate RatioRepairs(n: JsNum, fallback: real, min: real, max: real, x: real) {
    && min <= x <= max
    && (n.NaN? || n == Finite(0.0) ==> x == fallback)
    && (n.PosInf? || n.NegInf? ==> x == min)
    && (n.Finite? && n.r != 0.0 && min <= n.r <= max ==> x == n.r)
    && (n.Finite? && n.r != 0.0 && n.r < min ==> x == min)
    && (n.Finite? && n.r != 0.0 && n.r > max ==> x == max)
  }

  /** `clamp(Number(x) || fallback, min, max)`, the repair of one ratio. */
  function Ratio(n: JsNum, fallback: real, min: real, max: real): (r: real)
    requires min <= fallback <= max
    ensures RatioRepairs(n, fallback, min, max, r)
  {
    var v := OrFallback(n, fallback);
    assert n.Finite? && n.r != 0.0 ==> v == n;
    Clamp(v, min, max)
  }

  /** One entry of `sanitizeSlots`, at position `index`. */
  function SanitizeSlot(env: Env, slot: JsValue, index: nat, language: Language): (r: Slot)
    ensures SlotValid(r)
    ensures Truthy(Get(slot, "name")) ==> r.name == Get(slot, "name")
    ensures !Truthy(Get(slot, "name")) ==> r.name == Str(SynthesizedName(language, index))
    ensures Nullish(Get(slot, "template")) ==> r.template == Str("")
    ensures !Nullish(Get(slot, "template")) ==> r.template == Get(slot, "template")
    ensures RatioRepairs(ToNumber(env, Get(slot, "widthRatio")), 0.33, 0.2, 0.8, r.widthRatio)
    ensures RatioRepairs(ToNumber(env, Get(slot, "heightRatio")), 0.95, 0.5, 1.0, r.heightRatio)
    ensures r.position == Left <==> Get(slot, "position") == Str("left")
    ensures r.service == SanitizeService(Get(slot, "service"))
    ensures r.temporary <==> r.service == ChatGpt && TemporaryFlag(Get(slot, "temporary"))
  {
    var name := Get(slot, "name");
    var template := Get(slot, "template");
    var service := SanitizeService(Get(slot, "service"));
    Slot(
      if Truthy(name) then name else Str(SynthesizedName(language, index)),
      if Nullish(template) then Str("") else template,
      Ratio(ToNumber(env, Get(slot, "widthRatio")), 0.33, 0.2, 0.8),
      Ratio(ToNumber(env, Get(slot, "heightRatio")), 0.95, 0.5, 1.0),
      if Get(slot, "position") == Str("left") then Left else Right,
      service,
      if ServiceSupportsTemporary(Str(Id(service))) then TemporaryFlag(Get(slot, "temporary")) else false)
  }

  /** `sanitizeSlots(slots, language)`: same length, same order, each entry
      repaired at its own position. */
  function SanitizeSlots(env: Env, slots: seq<JsValue>, language: Language): (r: seq<Slot>)
    ensures |r| == |slots| && AllValid(r)
    ensures forall i :: 0 <= i < |slots| ==> r[i] == SanitizeSlot(env, slots[i], i, language)
  {
    seq(|slots|, i requires 0 <= i < |slots| => SanitizeSlot(env, slots[i], i, language))
  }

  /** A valid slot survives storage: stored and repaired again, at any
      position, it comes back unchanged. */
  lemma SlotRoundTrip(env: Env, s: Slot, index: nat, language: Language)
    requires SlotValid(s)
    ensures SanitizeSlot(env, SlotToRaw(s), index, language) == s
  {
    var raw := SlotToRaw(s);
    assert Get(raw, "name") == s.name;
    assert Get(raw, "template") == s.template;
    assert Get(raw, "widthRatio") == Num(Finite(s.widthRatio));
    assert Get(raw, "heightRatio") == Num(Finite(s.heightRatio));
    assert Get(raw, "position") == Str(PositionCode(s.position));
    assert Get(raw, "service") == Str(Id(s.service));
    assert Get(raw, "temporary") == Bool(s.temporary);
    assert s.position == Right ==> Str(PositionCode(s.position)) != Str("left");
  }

  lemma {:induction false} SlotsRoundTrip(env: Env, slots: seq<Slot>, language: Language)
    requires AllValid(slots)
    ensures SanitizeSlots(env, SlotsToRaw(slots), language) == slots
  {
    var r := SanitizeSlots(env, SlotsToRaw(slots), language);
    forall i | 0 <= i < |slots| ensures r[i] == slots[i] {
      SlotRoundTrip(env, slots[i], i, language);
    }
  }

  /** `sanitizeSlots` is idempotent for a fixed language. */
  lemma SanitizeSlotsIdempotent(env: Env, slots: seq<JsValue>, language: Language)
    ensures SanitizeSlots(env, SlotsToRaw(SanitizeSlots(env, slots, language)), language)
         == SanitizeSlots(env, slots, language)
  {
    SlotsRoundTrip(env, SanitizeSlots(env, slots, language), language);
  }

  // ---- Hotkeys ----

  /** `fallback` of `sanitizeHotkeyMap`: [0, 1, 2] clamped to the slot range. */
  function HotkeyFallback(slotCount: nat): (r: seq<real>)
    ensures HotkeysValid(r, slotCount)
    ensures forall k :: 0 <= k < 3 ==> r[k] == Min(k as real, MaxIndex(slotCount) as real)
  {
    var top := MaxIndex(slotCount) as real;
    [Clamp(Finite(0.0), 0.0, top), Clamp(Finite(1.0), 0.0, top), Clamp(Finite(2.0), 0.0, top)]
  }

  /** `sanitizeHotkeyMap(map, slotCount)`. */
  function SanitizeHotkeyMap(env: Env, hotkeyMap: JsValue, slotCount: nat): (r: seq<real>)
    ensures HotkeysValid(r, slotCount)
    ensures !(hotkeyMap.Arr? && |hotkeyMap.elems| == 3) ==> r == HotkeyFallback(slotCount)
    ensures hotkeyMap.Arr? && |hotkeyMap.elems| == 3 ==>
      forall k :: 0 <= k < 3 ==>
        var n := ToNumber(env, hotkeyMap.elems[k]);
        && (IsFinite(n) ==> r[k] == Clamp(n, 0.0, MaxIndex(slotCount) as real))
        && (IsFinite(n) && 0.0 <= n.r <= MaxIndex(slotCount) as real ==> r[k] == n.r)
        && (!IsFinite(n) ==> r[k] == HotkeyFallback(slotCount)[k])
  {
    var fallback := HotkeyFallback(slotCount);
    if !(hotkeyMap.Arr? && |hotkeyMap.elems| == 3) then fallback
    else
      seq(3, k requires 0 <= k < 3 =>
        var n := ToNumber(env, hotkeyMap.elems[k]);
        if IsFinite(n) then Clamp(n, 0.0, MaxIndex(slotCount) as real) else fallback[k])
  }

  /** Out-of-range entries are clamped to the last slot. */
  lemma HotkeyMapClampsHigh(env: Env)
    ensures SanitizeHotkeyMap(env, Arr([Num(Finite(5.0)), Num(Finite(5.0)), Num(Finite(5.0))]), 3)
         == [2.0, 2.0, 2.0]
  {
    var r := SanitizeHotkeyMap(env, Arr([Num(Finite(5.0)), Num(Finite(5.0)), Num(Finite(5.0))]), 3);
    assert r[0] == 2.0 && r[1] == 2.0 && r[2] == 2.0;
  }

  /** Entries are not rounded: a fractional index in range is kept as it is. */
  lemma HotkeyMapKeepsFractions(env: Env)
    ensures SanitizeHotkeyMap(env, Arr([Num(Finite(0.5)), Num(Finite(1.0)), Num(Finite(2.0))]), 3)
         == [0.5, 1.0, 2.0]
  {
    var r := SanitizeHotkeyMap(env, Arr([Num(Finite(0.5)), Num(Finite(1.0)), Num(Finite(2.0))]), 3);
    assert r[0] == 0.5 && r[1] == 1.0 && r[2] == 2.0;
  }

  /** A valid hotkey map survives storage for the same slot count. */
  lemma {:induction false} HotkeysRoundTrip(env: Env, hotkeys: seq<real>, slotCount: nat)
    requires HotkeysValid(hotkeys, slotCount)
    ensures SanitizeHotkeyMap(env, HotkeysToRaw(hotkeys), slotCount) == hotkeys
  {
    var raw := HotkeysToRaw(hotkeys);
    var r := SanitizeHotkeyMap(env, raw, slotCount);
    forall k | 0 <= k < 3 ensures r[k] == hotkeys[k] {
      assert ToNumber(env, raw.elems[k]) == Finite(hotkeys[k]);
    }
  }

  // ---- Import and export ----

  datatype Imported = Imported(slots: seq<Slot>, hotkeyMap: seq<real>, settings: Settings)

  /** `sanitizeImportedPayload(payload)`: None (the source's `null`) for a
      falsy or non-object payload; otherwise repaired settings, a non-empty
      valid slot list and a hotkey map whose entries index into it. */
  function SanitizeImportedPayload(env: Env, payload: JsValue, detected: Language): (r: Option<Imported>)
    ensures r.None? <==> !(Truthy(payload) && IsObject(payload))
    ensures r.Some? ==>
      && r.value.settings == SanitizeSettings(Get(payload, "settings"), detected)
      && |r.value.slots| > 0 && AllValid(r.value.slots)
      && HotkeysValid(r.value.hotkeyMap, |r.value.slots|)
      && (forall k :: 0 <= k < 3 ==> r.value.hotkeyMap[k] < |r.value.slots| as real)
      && r.value.hotkeyMap == SanitizeHotkeyMap(env, Get(payload, "hotkeyMap"), |r.value.slots|)
    ensures r.Some? ==>
      var raw := Get(payload, "slots");
      var language := r.value.settings.language;
      && (raw.Arr? && |raw.elems| > 0 ==> r.value.slots == SanitizeSlots(env, raw.elems, language))
      && (!(raw.Arr? && |raw.elems| > 0) ==> r.value.slots == DefaultSlots(language))
  {
    if !Truthy(payload) || !IsObject(payload) then None
    else
      var settings := SanitizeSettings(Get(payload, "settings"), detected);
      var raw := Get(payload, "slots");
      var slots := if raw.Arr? && |raw.elems| > 0
        then SanitizeSlots(env, raw.elems, settings.language)
        else GetDefaultSlots(Str(LanguageCode(settings.language)), detected);
      Some(Imported(slots, SanitizeHotkeyMap(env, Get(payload, "hotkeyMap"), |slots|), settings))
  }

  /** The export file's payload `{ version: 1, slots, hotkeyMap, settings }`. */
  function ExportPayload(slots: seq<Slot>, hotkeyMap: seq<real>, settings: Settings): JsValue {
    Obj(map[
      "version" := Num(Finite(1.0)),
      "slots" := Arr(SlotsToRaw(slots)),
      "hotkeyMap" := HotkeysToRaw(hotkeyMap),
      "settings" := SettingsToRaw(settings)])
  }

  /** Exporting a repaired state and importing the file gives the same slots,
      hotkeys and settings back. */
  lemma ImportExportRoundTrip(env: Env, slots: seq<Slot>, hotkeyMap: seq<real>, settings: Settings,
                              detected: Language)
    requires |slots| > 0 && AllValid(slots) && HotkeysValid(hotkeyMap, |slots|)
    ensures SanitizeImportedPayload(env, ExportPayload(slots, hotkeyMap, settings), detected)
         == Some(Imported(slots, hotkeyMap, settings))
  {
    var p := ExportPayload(slots, hotkeyMap, settings);
    assert Get(p, "settings") == SettingsToRaw(settings);
    assert Get(p, "slots") == Arr(SlotsToRaw(slots));
    assert Get(p, "hotkeyMap") == HotkeysToRaw(hotkeyMap);
    SettingsRoundTrip(settings, detected);
    SlotsRoundTrip(env, slots, settings.language);
    HotkeysRoundTrip(env, hotkeyMap, |slots|);
  }
}
