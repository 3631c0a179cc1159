/** The background worker (bg.js): its own copy of the slot sanitiser, the
    storage accessors, the choice of the slot to run and the request for the
    popup window that opens the chat service.

    Storage reads, the active tab, the current window and the script that
    reads the page selection are inputs here: `storedSlots`, `storedSettings`
    and `storedHotkeys` are the values `chrome.storage.sync.get` returns
    (`Undefined` when a key is missing), `tab` is the active tab if any,
    `pageSelection` is what `getSelectionFromTab` returns (always a string)
    and `window` the current window's bounds. */
module Background {
  import opened Basics
  import opened JsValues
  import opened Registry
  import opened Schema
  import opened Preferences
  import Options
  import opened Prompt

  // ---- The worker's sanitiser ----

  /** The worker's `clamp`: `Math.min(max, Math.max(min, v))`. NaN stays NaN
      and each infinity goes to the bound on its side. */
  function BgClamp(v: JsNum, min: real, max: real): (r: JsNum)
    ensures v.NaN? <==> r.NaN?
    ensures !v.NaN? && min <= max ==> r.Finite? && min <= r.r <= max
    ensures v.PosInf? && min <= max ==> r == Finite(max)
    ensures v.NegInf? && min <= max ==> r == Finite(min)
    ensures v.Finite? && min <= v.r <= max ==> r == v
    ensures v.Finite? && v.r < min <= max ==> r == Finite(min)
    ensures v.Finite? && min <= max < v.r ==> r == Finite(max)
  {
    JsMin(Finite(max), JsMax(Finite(min), v))
  }

  /** What the worker makes of one stored ratio `n`: the fallback for NaN
      and 0, each infinity its own bound, a finite value inside the range
      itself and one outside it the nearer bound. */
  predicate BgRatioRepairs(n: JsNum, fallback: real, min: real, max: real, x: real) {
    && min <= x <= max
    && (n.NaN? || n == Finite(0.0) ==> x == fallback)
    && (n.PosInf? ==> x == max)
    && (n.NegInf? ==> x == min)
    && (n.Finite? && n.r != 0.0 && min <= n.r <= max ==> x == n.r)
    && (n.Finite? && n.r != 0.0 && n.r < min ==> x == min)
    && (n.Finite? && n.r != 0.0 && n.r > max ==> x == max)
  }

  /** `clamp(Number(x) || fallback, min, max)` with the worker's clamp. */
  function BgRatio(n: JsNum, fallback: real, min: real, max: real): (r: real)
    requires min <= fallback <= max
    ensures BgRatioRepairs(n, fallback, min, max, r)
  {
    var v := Options.OrFallback(n, fallback);
    assert n.Finite? && n.r != 0.0 ==> v == n;
    BgClamp(v, min, max).r
  }

  /** The worker's `sanitizeService`: an own-property test on the registry,
      whose key is the value converted to a string. */
  function BgSanitizeService(env: Env, v: JsValue): (s: Service)
    ensures forall t: Service :: Text(env, v) == Id(t) ==> s == t
    ensures (forall t: Service :: Text(env, v) != Id(t)) ==> s == DefaultService
    ensures v.Str? ==> s == Options.SanitizeService(v)
  {
    match Lookup(Text(env, v))
    case Some(t) => t
    case None => DefaultService
  }

  /** One entry of the worker's `sanitizeSlots`, at position `index`. */
  function BgSanitizeSlot(env: Env, slot: JsValue, index: nat, language: Language): (r: Slot)
    ensures SlotValid(r)
    ensures Truthy(Get(slot, "name")) ==> r.name == Get(slot, "name")
    ensures !Truthy(Get(slot, "name")) ==> r.name == Str(SynthesizedName(language, index))
    ensures Nullish(Get(slot, "template")) ==> r.template == Str("")
    ensures !Nullish(Get(slot, "template")) ==> r.template == Get(slot, "template")
    ensures BgRatioRepairs(ToNumber(env, Get(slot, "widthRatio")), 0.33, 0.2, 0.8, r.widthRatio)
    ensures BgRatioRepairs(ToNumber(env, Get(slot, "heightRatio")), 0.95, 0.5, 1.0, r.heightRatio)
    ensures r.position == Left <==> Get(slot, "position") == Str("left")
    ensures r.service == BgSanitizeService(env, Get(slot, "service"))
    ensures r.temporary <==> r.service == ChatGpt && Options.TemporaryFlag(Get(slot, "temporary"))
  {
    var name := Get(slot, "name");
    var template := Get(slot, "template");
    var service := BgSanitizeService(env, Get(slot, "service"));
    var w := ToNumber(env, Get(slot, "widthRatio"));
    var h := ToNumber(env, Get(slot, "heightRatio"));
    var width := BgRatio(w, 0.33, 0.2, 0.8);
    var height := BgRatio(h, 0.95, 0.5, 1.0);
    Slot(
      if Truthy(name) then name else Str(SynthesizedName(language, index)),
      if Nullish(template) then Str("") else template,
      width,
      height,
      if Get(slot, "position") == Str("left") then Left else Right,
      service,
      if SupportsTemporary(service) then Options.TemporaryFlag(Get(slot, "temporary")) else false)
  }

  function BgSanitizeSlots(env: Env, slots: seq<JsValue>, language: Language): (r: seq<Slot>)
    ensures |r| == |slots| && AllValid(r)
    ensures forall i :: 0 <= i < |slots| ==> r[i] == BgSanitizeSlot(env, slots[i], i, language)
  {
    seq(|slots|, i requires 0 <= i < |slots| => BgSanitizeSlot(env, slots[i], i, language))
  }

  /** The two copies of the slot sanitiser agree on every entry whose ratios
      are not +Infinity and whose service is a string or names no service. */
  lemma SanitizersAgree(env: Env, slot: JsValue, index: nat, language: Language)
    requires !ToNumber(env, Get(slot, "widthRatio")).PosInf?
    requires !ToNumber(env, Get(slot, "heightRatio")).PosInf?
    requires Get(slot, "service").Str? || Lookup(Text(env, Get(slot, "service"))).None?
    ensures BgSanitizeSlot(env, slot, index, language) == Options.SanitizeSlot(env, slot, index, language)
  {
    var s := Get(slot, "service");
    if !s.Str? {
      assert BgSanitizeService(env, s) == DefaultService;
      assert Options.SanitizeService(s) == DefaultService;
    }
  }

  /** They disagree on +Infinity: the options page repairs it to the lower
      bound, the worker to the upper one. */
  lemma SanitizersDisagreeOnInfinity(env: Env, language: Language)
    ensures var slot := Obj(map["widthRatio" := Num(PosInf)]);
      && Options.SanitizeSlot(env, slot, 0, language).widthRatio == 0.2
      && BgSanitizeSlot(env, slot, 0, language).widthRatio == 0.8
  {
    var slot := Obj(map["widthRatio" := Num(PosInf)]);
    assert Get(slot, "widthRatio") == Num(PosInf);
  }

  /** And on a service given as a non-string whose text is a service id: the
      worker accepts `["gemini"]`, the options page falls back to ChatGPT. */
  lemma SanitizersDisagreeOnServiceArray(env: Env, language: Language)
    requires env.text(Arr([Str("gemini")])) == "gemini"
    ensures var slot := Obj(map["service" := Arr([Str("gemini")])]);
      && Options.SanitizeSlot(env, slot, 0, language).service == ChatGpt
      && BgSanitizeSlot(env, slot, 0, language).service == Gemini
  {
    var slot := Obj(map["service" := Arr([Str("gemini")])]);
    assert Get(slot, "service") == Arr([Str("gemini")]);
  }

  /** A slot the options page saved is read back unchanged by the worker. */
  lemma WorkerReadsSavedSlot(env: Env, s: Slot, index: nat, language: Language)
    requires SlotValid(s)
    ensures BgSanitizeSlot(env, SlotToRaw(s), index, language) == s
  {
    var raw := SlotToRaw(s);
    assert Get(raw, "widthRatio") == Num(Finite(s.widthRatio));
    assert Get(raw, "heightRatio") == Num(Finite(s.heightRatio));
    assert Get(raw, "service") == Str(Id(s.service));
    SanitizersAgree(env, raw, index, language);
    Options.SlotRoundTrip(env, s, index, language);
  }

  lemma {:induction false} WorkerReadsSavedSlots(env: Env, slots: seq<Slot>, language: Language)
    requires AllValid(slots)
    ensures BgSanitizeSlots(env, SlotsToRaw(slots), language) == slots
  {
    var r := BgSanitizeSlots(env, SlotsToRaw(slots), language);
    forall i | 0 <= i < |slots| ensures r[i] == slots[i] {
      WorkerReadsSavedSlot(env, slots[i], i, language);
    }
  }

  // ---- Storage accessors ----

  /** The result of `getSlots`: the list to use and whether the worker seeds
      storage with it (it then writes the list and the repaired settings). */
  datatype Loaded = Loaded(slots: seq<Slot>, seeds: bool)

  /** `getSlots()`: a missing or empty stored list is replaced by the
      defaults of the repaired language; otherwise each entry is repaired. */
  function GetSlots(env: Env, storedSlots: JsValue, storedSettings: JsValue, detected: Language): (r: Loaded)
    ensures |r.slots| > 0 && AllValid(r.slots)
    ensures r.seeds <==> !(storedSlots.Arr? && |storedSlots.elems| > 0)
    ensures var language := SanitizeSettings(storedSettings, detected).language;
      && (r.seeds ==> r.slots == DefaultSlots(language))
      && (!r.seeds ==> r.slots == BgSanitizeSlots(env, storedSlots.elems, language))
  {
    var language := SanitizeSettings(storedSettings, detected).language;
    if storedSlots.Arr? && |storedSlots.elems| > 0 then
      Loaded(BgSanitizeSlots(env, storedSlots.elems, language), false)
    else
      Loaded(Options.GetDefaultSlots(Str(LanguageCode(language)), detected), true)
  }

  /** `getHotkeyMap()`: a stored array of three entries is used as it is,
      anything else gives [0, 1, 2]. */
  function GetHotkeyMap(stored: JsValue): (r: seq<JsValue>)
    ensures |r| == 3
    ensures stored.Arr? && |stored.elems| == 3 ==> r == stored.elems
    ensures !(stored.Arr? && |stored.elems| == 3) ==>
      forall k :: 0 <= k < 3 ==> r[k] == Num(Finite(k as real))
  {
    if stored.Arr? && |stored.elems| == 3 then stored.elems
    else [Num(Finite(0.0)), Num(Finite(1.0)), Num(Finite(2.0))]
  }

  // ---- Choosing the slot ----

  /** The array index a string property key names: its canonical decimal
      spelling (no sign, no leading zero). */
  function CanonicalIndex(s: string): (r: Option<nat>)
    ensures r.Some? ==> ToDecimal(r.value) == s
  {
    if s != "" && AllDigits(s) && (s[0] != '0' || |s| == 1) then
      var n := FromDecimal(s);
      assert ToDecimal(n) == s by { DecimalCanonical(s); }
      Some(n)
    else None
  }

  /** A canonical decimal spelling is the spelling of its value. */
  lemma {:induction false} DecimalCanonical(s: string)
    requires s != "" && AllDigits(s) && (s[0] != '0' || |s| == 1)
    ensures ToDecimal(FromDecimal(s)) == s
    decreases |s|
  {
    if |s| > 1 {
      var p := s[..|s| - 1];
      assert p[0] == s[0];
      DecimalCanonical(p);
      var n := FromDecimal(s);
      var d := s[|s| - 1] as int - '0' as int;
      assert n == 10 * FromDecimal(p) + d;
      assert ToDecimal(0)[0] == '0';
      assert FromDecimal(p) >= 1;
      assert n / 10 == FromDecimal(p) && n % 10 == d;
      assert DigitChar(d) == s[|s| - 1];
      assert s == p + [s[|s| - 1]];
    } else {
      var d := s[0] as int - '0' as int;
      assert FromDecimal(s) == 10 * FromDecimal([]) + d;
      assert DigitChar(d) == s[0];
    }
  }

  lemma CanonicalIndexOfDecimal(n: nat)
    ensures CanonicalIndex(ToDecimal(n)) == Some(n)
  {
    var s := ToDecimal(n);
    FromToDecimal(n);
    if s[0] == '0' {
      assert n == 0;
    }
  }

  /** The slot index a value names when used as `slots[index]`: a
      non-negative integral number, or any other value whose string form is
      a canonical decimal. */
  function ArrayIndex(env: Env, index: JsValue): (r: Option<nat>)
    ensures forall i: nat :: index == Num(Finite(i as real)) ==> r == Some(i)
    ensures index.Str? ==> r == CanonicalIndex(index.s)
    ensures index.Num? && !index.n.Finite? ==> r.None?
    ensures index.Num? && index.n.Finite? && index.n.r < 0.0 ==> r.None?
    ensures index.Num? && index.n.Finite? && index.n.r != index.n.r.Floor as real ==> r.None?
  {
    match index
    case Num(Finite(x)) => if 0.0 <= x && x == x.Floor as real then Some(x.Floor) else None
    case Num(_) => None
    case _ => CanonicalIndex(Text(env, index))
  }

  /** The string-named properties an array has besides its elements: its
      own `length` and what it inherits from `Array.prototype` and
      `Object.prototype`. Each holds a number, a function or an object, never
      a nullish value. */
  const InheritedKeys: set<string> :=
    {"length"} + ArrayPrototypeKeys + ObjectPrototypeKeys

  const ArrayPrototypeKeys: set<string> := {
    "constructor", "at", "concat", "copyWithin", "entries", "every", "fill", "filter",
    "find", "findIndex", "findLast", "findLastIndex", "flat", "flatMap", "forEach",
    "includes", "indexOf", "join", "keys", "lastIndexOf", "map", "pop", "push",
    "reduce", "reduceRight", "reverse", "shift", "slice", "some", "sort", "splice",
    "toLocaleString", "toReversed", "toSorted", "toSpliced", "toString", "unshift",
    "values", "with"}

  const ObjectPrototypeKeys: set<string> := {
    "constructor", "hasOwnProperty", "isPrototypeOf", "propertyIsEnumerable",
    "toLocaleString", "toString", "valueOf", "__proto__", "__defineGetter__",
    "__defineSetter__", "__lookupGetter__", "__lookupSetter__"}

  /** Whether `slots[index]` reads one of those properties rather than an
      element or a missing key: a number never does, any other value does
      when its string form is one of their names. */
  predicate NamesInherited(env: Env, index: JsValue) {
    !index.Num? && Text(env, index) in InheritedKeys
  }

  /** No inherited property name is an array index. */
  lemma InheritedKeysAreNotIndices(env: Env, index: JsValue)
    requires NamesInherited(env, index)
    ensures ArrayIndex(env, index).None?
  {
    InheritedKeyNotDigits(Text(env, index));
  }

  /** Every inherited property name starts with a letter or `_`. */
  lemma InheritedKeyNotDigits(key: string)
    requires key in InheritedKeys
    ensures key != "" && !IsDigit(key[0])
  {
    if key in ArrayPrototypeKeys {
      ArrayKeyNotDigits(key);
    } else if key in ObjectPrototypeKeys {
      ObjectKeyNotDigits(key);
    }
  }

  lemma ArrayKeyNotDigits(key: string)
    requires key in ArrayPrototypeKeys
    ensures key != "" && !IsDigit(key[0])
  {
  }

  lemma ObjectKeyNotDigits(key: string)
    requires key in ObjectPrototypeKeys
    ensures key != "" && !IsDigit(key[0])
  {
  }

  /** `slots[index] ?? slots[0]`: a slot, or None when the index names an
      inherited property, whose value is not a slot and is not nullish. */
  function SlotAt(env: Env, slots: seq<Slot>, index: JsValue): (r: Option<Slot>)
    requires |slots| > 0
    ensures r.None? <==> NamesInherited(env, index)
    ensures r.Some? ==> r.value in slots
    ensures ArrayIndex(env, index).Some? && ArrayIndex(env, index).value < |slots| ==>
      r == Some(slots[ArrayIndex(env, index).value])
    ensures !NamesInherited(env, index) && (ArrayIndex(env, index).None? || ArrayIndex(env, index).value >= |slots|) ==>
      r == Some(slots[0])
  {
    if NamesInherited(env, index) then
      InheritedKeysAreNotIndices(env, index);
      None
    else
      match ArrayIndex(env, index)
      case Some(i) => Some(if i < |slots| then slots[i] else slots[0])
      case None => Some(slots[0])
  }

  /** A hotkey entry "length" reads the array's length, not a slot. */
  lemma SlotAtLength(env: Env, slots: seq<Slot>)
    requires |slots| > 0
    ensures SlotAt(env, slots, Str("length")).None?
  {
  }

  /** A numeric index in range selects that slot; a fractional or negative
      one selects the first. */
  lemma SlotAtNumber(env: Env, slots: seq<Slot>, x: real)
    requires |slots| > 0
    ensures forall i: nat :: i < |slots| && x == i as real ==> SlotAt(env, slots, Num(Finite(x))) == Some(slots[i])
    ensures x < 0.0 || x != x.Floor as real ==> SlotAt(env, slots, Num(Finite(x))) == Some(slots[0])
  {
  }

  // ---- The popup window ----

  /** `chrome.windows.getCurrent()`'s bounds; each may be missing. */
  datatype WindowBounds = WindowBounds(width: Option<int>, height: Option<int>, left: Option<int>, top: Option<int>)

  /** `value ?? fallback`. */
  function OrDefault(o: Option<int>, fallback: int): int {
    match o
    case Some(v) => v
    case None => fallback
  }

  /** `Math.round(x)`: the nearest integer, halves rounded up. */
  function Round(x: real): (r: int)
    ensures x - 0.5 < r as real <= x + 0.5
  {
    (x + 0.5).Floor
  }

  lemma RoundMonotone(x: real, y: real)
    requires x <= y
    ensures Round(x) <= Round(y)
  {
  }

  lemma RoundInteger(n: int)
    ensures Round(n as real) == n
  {
  }

  datatype Geometry = Geometry(width: int, height: int, left: int, top: int)

  /** The popup's size and place: the ratios of the current window's size,
      rounded, flush with its right or left edge and aligned with its top.
      A missing bound defaults to 1280 x 800 at (0, 0). */
  function PopupGeometry(window: WindowBounds, slot: Slot): (g: Geometry)
    ensures var screenW := OrDefault(window.width, 1280);
      var screenH := OrDefault(window.height, 800);
      var leftBase := OrDefault(window.left, 0);
      && g.top == OrDefault(window.top, 0)
      && (slot.position == Right ==> g.left + g.width == leftBase + screenW)
      && (slot.position == Left ==> g.left == leftBase)
      && screenW as real * slot.widthRatio - 0.5 < g.width as real <= screenW as real * slot.widthRatio + 0.5
      && screenH as real * slot.heightRatio - 0.5 < g.height as real <= screenH as real * slot.heightRatio + 0.5
  {
    var screenW := OrDefault(window.width, 1280);
    var screenH := OrDefault(window.height, 800);
    var leftBase := OrDefault(window.left, 0);
    var w := Round(screenW as real * slot.widthRatio);
    var h := Round(screenH as real * slot.heightRatio);
    Geometry(w, h, if slot.position == Right then leftBase + (screenW - w) else leftBase, OrDefault(window.top, 0))
  }

  /** For a valid slot and a window of non-negative size the popup fits in
      the window: its size is between zero and the window's size, and it
      lies between the window's left and right edges. */
  lemma PopupFits(window: WindowBounds, slot: Slot)
    requires SlotValid(slot)
    requires OrDefault(window.width, 1280) >= 0 && OrDefault(window.height, 800) >= 0
    ensures var g := PopupGeometry(window, slot);
      var leftBase := OrDefault(window.left, 0);
      && 0 <= g.width <= OrDefault(window.width, 1280)
      && 0 <= g.height <= OrDefault(window.height, 800)
      && leftBase <= g.left && g.left + g.width <= leftBase + OrDefault(window.width, 1280)
  {
    var sw := OrDefault(window.width, 1280);
    var sh := OrDefault(window.height, 800);
    ScaledWithin(sw, slot.widthRatio);
    ScaledWithin(sh, slot.heightRatio);
  }

  /** The rounded share of a non-negative size lies between 0 and the size. */
  lemma ScaledWithin(size: int, ratio: real)
    requires size >= 0 && 0.0 <= ratio <= 1.0
    ensures 0 <= Round(size as real * ratio) <= size
  {
    ScaleWithin(size, ratio);
    RoundWithin(size as real * ratio, size);
  }

  /** A ratio between 0 and 1 of a non-negative size lies between 0 and the size. */
  lemma ScaleWithin(size: int, ratio: real)
    requires size >= 0 && 0.0 <= ratio <= 1.0
    ensures 0.0 <= size as real * ratio <= size as real
  {
    var a := size as real;
    assert a * ratio <= a * 1.0;
  }

  /** Rounding a value between 0 and an integer n stays between 0 and n. */
  lemma RoundWithin(x: real, n: int)
    requires 0.0 <= x <= n as real
    ensures 0 <= Round(x) <= n
  {
    RoundMonotone(0.0, x);
    RoundMonotone(x, n as real);
    RoundInteger(n);
    RoundInteger(0);
  }

  /** A 1000 x 800 window at (100, 50) and a right-hand slot with both ratios
      0.5 gives a 500 x 400 popup at (600, 50). */
  lemma PopupExample(slot: Slot)
    requires slot.widthRatio == 0.5 && slot.heightRatio == 0.5 && slot.position == Right
    ensures PopupGeometry(WindowBounds(Some(1000), Some(800), Some(100), Some(50)), slot)
         == Geometry(500, 400, 600, 50)
  {
    assert Round(500.0) == 500;
    assert Round(400.0) == 400;
  }

  // ---- Running a slot ----

  /** The active tab: its URL and title ("" when missing) and its id. */
  datatype Tab = Tab(url: string, title: string, id: Option<int>)

  /** The `chrome.windows.create` request; its type is always "popup". The
      width and height are numbers, NaN when the chosen entry is not a slot. */
  datatype WindowRequest = WindowRequest(url: string, width: JsNum, height: JsNum, left: int, top: int)

  /** `tab?.url || ""`. */
  function PageUrl(tab: Option<Tab>): (r: string)
    ensures tab.Some? ==> r == tab.value.url
    ensures tab.None? ==> r == ""
  {
    match tab
    case Some(t) => t.url
    case None => ""
  }

  /** `tab?.title || FALLBACK_TITLES[language]`. */
  function PageTitle(tab: Option<Tab>, language: Language): (r: string)
    ensures tab.Some? && tab.value.title != "" ==> r == tab.value.title
    ensures tab.None? || tab.value.title == "" ==> r == FallbackTitle(language)
  {
    match tab
    case Some(t) => if t.title != "" then t.title else FallbackTitle(language)
    case None => FallbackTitle(language)
  }

  /** The selection: the string passed in, or, when that is missing or empty
      and the tab has a numeric id, the page's own selection. */
  function Selection(selectionText: JsValue, tab: Option<Tab>, pageSelection: string): (r: string)
    ensures selectionText.Str? && selectionText.s != "" ==> r == selectionText.s
    ensures !(selectionText.Str? && selectionText.s != "") && tab.Some? && tab.value.id.Some? ==>
      r == pageSelection
    ensures !(selectionText.Str? && selectionText.s != "") && (tab.None? || tab.value.id.None?) ==>
      r == ""
  {
    var given := if selectionText.Str? then selectionText.s else "";
    if given == "" && tab.Some? && tab.value.id.Some? then pageSelection else given
  }

  /** `runSlot(index, selectionText)`: the window request for the chosen
      slot, whose URL opens the slot's service with the built prompt. The
      source's early return on an empty list is never taken, since
      `getSlots` never returns one. When the index names an inherited
      property, the value read has no slot fields: the template, service,
      flag, ratios and position all read as undefined, so the prompt is
      empty, the service is the default one, and both sizes are NaN. */
  function RunSlot(env: Env, storedSlots: JsValue, storedSettings: JsValue, detected: Language,
                   index: JsValue, selectionText: JsValue, tab: Option<Tab>, pageSelection: string,
                   window: WindowBounds): (r: WindowRequest)
    ensures var slots := GetSlots(env, storedSlots, storedSettings, detected).slots;
      var chosen := SlotAt(env, slots, index);
      var language := SanitizeSettings(storedSettings, detected).language;
      var title := PageTitle(tab, language);
      var selection := Str(Selection(selectionText, tab, pageSelection));
      && (chosen.Some? ==>
            var slot := chosen.value;
            var g := PopupGeometry(window, slot);
            && r.url == BuildUrl(slot.service, BuildPrompt(env, slot.template, PageUrl(tab), title, selection),
                                 slot.temporary, env.encode)
            && r.width == Finite(g.width as real) && r.height == Finite(g.height as real)
            && r.left == g.left && r.top == g.top)
      && (chosen.None? ==>
            && r.url == BuildUrl(DefaultService, "", false, env.encode)
            && r.width.NaN? && r.height.NaN?
            && r.left == OrDefault(window.left, 0) && r.top == OrDefault(window.top, 0))
  {
    var slots := GetSlots(env, storedSlots, storedSettings, detected).slots;
    var settings := SanitizeSettings(storedSettings, detected);
    var title := PageTitle(tab, settings.language);
    var selection := Str(Selection(selectionText, tab, pageSelection));
    match SlotAt(env, slots, index)
    case Some(slot) =>
      var prompt := BuildPrompt(env, slot.template, PageUrl(tab), title, selection);
      var g := PopupGeometry(window, slot);
      WindowRequest(BuildUrl(slot.service, prompt, slot.temporary, env.encode),
                    Finite(g.width as real), Finite(g.height as real), g.left, g.top)
    case None =>
      var service := BgSanitizeService(env, Undefined);
      var prompt := BuildPrompt(env, Undefined, PageUrl(tab), title, selection);
      WindowRequest(BuildUrl(service, prompt, false, env.encode),
                    NaN, NaN, OrDefault(window.left, 0), OrDefault(window.top, 0))
  }

}
