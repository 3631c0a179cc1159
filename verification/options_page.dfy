/** The options page's state and its edits (options.js): the page holds the
    current settings and the rendered slot list and hotkey map; `render`
    repairs whatever it is given, so the page state is always valid. The
    slot-list edits work on the list read back from the page, change it in
    place (push, swap, splice) and render it again. */
module OptionsUi {
  import opened JsValues
  import opened Registry
  import opened Schema
  import opened Preferences
  import opened Options

  // ---- The list operations the edits perform ----

  /** `[s[i], s[j]] = [s[j], s[i]]`. */
  function Swap<T>(s: seq<T>, i: nat, j: nat): (r: seq<T>)
    requires i < |s| && j < |s|
    ensures |r| == |s| && r[i] == s[j] && r[j] == s[i]
    ensures forall k :: 0 <= k < |s| && k != i && k != j ==> r[k] == s[k]
    ensures multiset(r) == multiset(s)
  {
    s[i := s[j]][j := s[i]]
  }

  /** `s.splice(i, 0, x)`: x lands at position i and later entries shift up. */
  function InsertAt<T>(s: seq<T>, i: nat, x: T): (r: seq<T>)
    requires i <= |s|
    ensures |r| == |s| + 1 && r[i] == x
    ensures forall k :: 0 <= k < i ==> r[k] == s[k]
    ensures forall k :: i < k < |r| ==> r[k] == s[k - 1]
  {
    s[..i] + [x] + s[i..]
  }

  /** `s.splice(i, 1)`: entry i is dropped and later entries shift down. */
  function RemoveAt<T>(s: seq<T>, i: nat): (r: seq<T>)
    requires i < |s|
    ensures |r| == |s| - 1
    ensures forall k :: 0 <= k < i ==> r[k] == s[k]
    ensures forall k :: i <= k < |r| ==> r[k] == s[k + 1]
  {
    s[..i] + s[i + 1..]
  }

  /** The list `moveSlot(index, delta)` renders: a swap with the neighbour
      at index + delta, or no change when that is outside the list. */
  function Moved<T>(s: seq<T>, index: nat, delta: int): (r: seq<T>)
    requires index < |s|
    ensures |r| == |s| && multiset(r) == multiset(s)
    ensures !(0 <= index + delta < |s|) ==> r == s
  {
    if 0 <= index + delta < |s| then Swap(s, index, index + delta) else s
  }

  /** Moving a slot and moving it back restores the list. */
  lemma MoveThenMoveBack<T>(s: seq<T>, index: nat, delta: int)
    requires index < |s| && 0 <= index + delta < |s|
    ensures Moved(Moved(s, index, delta), index + delta, -delta) == s
  {
    var m := Moved(s, index, delta);
    var b := Moved(m, index + delta, -delta);
    assert |b| == |s|;
    forall k | 0 <= k < |s| ensures b[k] == s[k] {
    }
  }

  /** Removing the entry a duplication inserted gives the list back. */
  lemma RemoveInserted<T>(s: seq<T>, i: nat, x: T)
    requires i <= |s|
    ensures RemoveAt(InsertAt(s, i, x), i) == s
  {
    var r := RemoveAt(InsertAt(s, i, x), i);
    assert |r| == |s|;
    forall k | 0 <= k < |s| ensures r[k] == s[k] {
    }
  }

  lemma MovedValid(s: seq<Slot>, index: nat, delta: int)
    requires index < |s| && AllValid(s)
    ensures AllValid(Moved(s, index, delta))
  {
    var r := Moved(s, index, delta);
    forall k | 0 <= k < |r| ensures SlotValid(r[k]) {
      if 0 <= index + delta < |s| {
        assert r[k] == s[if k == index then index + delta else if k == index + delta then index else k];
      }
    }
  }

  /** A hotkey map that is valid for n slots stays valid for more slots. */
  lemma HotkeysValidGrow(hotkeys: seq<real>, n: nat, m: nat)
    requires HotkeysValid(hotkeys, n) && n <= m
    ensures HotkeysValid(hotkeys, m)
  {
  }

  /** The slot `addSlot` appends at position n. */
  function NewSlot(language: Language, n: nat): (s: Slot)
    ensures SlotValid(s) && s.name == Str(SynthesizedName(language, n))
    ensures s.template == Str("") && s.service == DefaultService && s.temporary
  {
    Slot(Str(SynthesizedName(language, n)), Str(""), 0.33, 0.95, Right, DefaultService,
         ServiceSupportsTemporary(Str(Id(DefaultService))))
  }

  /** The copy `duplicateSlot` inserts: the same slot, its name followed by
      the copy suffix. */
  function Copy(env: Env, s: Slot, language: Language): (c: Slot)
    requires SlotValid(s)
    ensures SlotValid(c) && c == s.(name := Str(Text(env, s.name) + CopySuffix(language)))
  {
    assert CopySuffix(language) != "";
    s.(name := Str(Text(env, s.name) + CopySuffix(language)))
  }

  class OptionsPage {
    const env: Env
    const detected: Language
    /** `currentSettings`. */
    var settings: Settings
    /** The rendered slot list, which `readSlotsFromUI` reads back. */
    var slots: seq<Slot>
    /** The rendered hotkey map, which `readHotkeysFromUI` reads back. */
    var hotkeyMap: seq<real>

    ghost predicate Valid()
      reads this
    {
      |slots| > 0 && AllValid(slots) && HotkeysValid(hotkeyMap, |slots|)
    }

    /** The page as `reset` leaves it: default settings, the default slots
        of the detected language and hotkeys [0, 1, 2]. */
    constructor (env: Env, detected: Language)
      ensures this.env == env && this.detected == detected
      ensures Valid()
      ensures settings == DefaultSettings(detected)
      ensures slots == DefaultSlots(detected) && hotkeyMap == [0.0, 1.0, 2.0]
    {
      this.env := env;
      this.detected := detected;
      settings := DefaultSettings(detected);
      slots := DefaultSlots(detected);
      hotkeyMap := HotkeyFallback(3);
    }

    /** `render(list, hotkeyMap)`: an empty or non-array list is replaced by
        the defaults; slots and hotkeys are repaired before they are shown. */
    method Render(list: JsValue, hotkeys: JsValue)
      modifies this
      ensures settings == old(settings) && Valid()
      ensures list.Arr? && |list.elems| > 0 ==> slots == SanitizeSlots(env, list.elems, settings.language)
      ensures !(list.Arr? && |list.elems| > 0) ==> slots == DefaultSlots(settings.language)
      ensures hotkeyMap == SanitizeHotkeyMap(env, if hotkeys.Arr? then hotkeys else HotkeysToRaw([0.0, 1.0, 2.0]), |slots|)
    {
      if list.Arr? && |list.elems| > 0 {
        slots := SanitizeSlots(env, list.elems, settings.language);
      } else {
        var defaults := DefaultSlots(settings.language);
        SlotsRoundTrip(env, defaults, settings.language);
        slots := SanitizeSlots(env, SlotsToRaw(defaults), settings.language);
      }
      hotkeyMap := SanitizeHotkeyMap(env, if hotkeys.Arr? then hotkeys else HotkeysToRaw([0.0, 1.0, 2.0]), |slots|);
    }

    /** Renders a list that is already valid; it comes back unchanged. */
    method RenderValid(list: seq<Slot>, hotkeys: seq<real>)
      requires |list| > 0 && AllValid(list)
      modifies this
      ensures settings == old(settings) && Valid()
      ensures slots == list
      ensures hotkeyMap == SanitizeHotkeyMap(env, HotkeysToRaw(hotkeys), |list|)
    {
      SlotsRoundTrip(env, list, settings.language);
      Render(Arr(SlotsToRaw(list)), HotkeysToRaw(hotkeys));
    }

    /** `load()`: repairs what storage holds and renders it. */
    method Load(storedSlots: JsValue, storedHotkeys: JsValue, storedSettings: JsValue)
      modifies this
      ensures Valid()
      ensures settings == SanitizeSettings(storedSettings, detected)
      ensures storedSlots.Arr? && |storedSlots.elems| > 0 ==>
        slots == SanitizeSlots(env, storedSlots.elems, settings.language)
      ensures !(storedSlots.Arr? && |storedSlots.elems| > 0) ==> slots == DefaultSlots(settings.language)
      ensures storedHotkeys.Arr? && |storedHotkeys.elems| == 3 ==>
        hotkeyMap == SanitizeHotkeyMap(env, storedHotkeys, |slots|)
      ensures !(storedHotkeys.Arr? && |storedHotkeys.elems| == 3) ==> hotkeyMap == HotkeyFallback(|slots|)
    {
      settings := SanitizeSettings(storedSettings, detected);
      var list := if storedSlots.Arr? && |storedSlots.elems| > 0 then storedSlots
                  else Arr(SlotsToRaw(DefaultSlots(settings.language)));
      var hotkeys := if storedHotkeys.Arr? && |storedHotkeys.elems| == 3 then storedHotkeys
                     else HotkeysToRaw([0.0, 1.0, 2.0]);
      Render(list, hotkeys);
      if !(storedSlots.Arr? && |storedSlots.elems| > 0) {
        SlotsRoundTrip(env, DefaultSlots(settings.language), settings.language);
      }
    }

    /** `reset()`: default settings, default slots, hotkeys [0, 1, 2]. */
    method Reset()
      modifies this
      ensures Valid()
      ensures settings == DefaultSettings(detected)
      ensures slots == DefaultSlots(detected) && hotkeyMap == [0.0, 1.0, 2.0]
    {
      settings := DefaultSettings(detected);
      RenderValid(DefaultSlots(detected), [0.0, 1.0, 2.0]);
      HotkeysRoundTrip(env, [0.0, 1.0, 2.0], 3);
    }

    /** `addSlot()`: appends one default slot named after its position; the
        hotkeys are unchanged. */
    method AddSlot()
      requires Valid()
      modifies this
      ensures Valid() && settings == old(settings)
      ensures slots == old(slots) + [NewSlot(settings.language, |old(slots)|)]
      ensures hotkeyMap == old(hotkeyMap)
    {
      var list := slots + [NewSlot(settings.language, |slots|)];
      HotkeysValidGrow(hotkeyMap, |slots|, |list|);
      HotkeysRoundTrip(env, hotkeyMap, |list|);
      RenderValid(list, hotkeyMap);
    }

    /** `moveSlot(index, delta)`: swaps the slot with its neighbour at
        index + delta; nothing changes when that is outside the list. */
    method MoveSlot(index: nat, delta: int)
      requires Valid() && index < |slots|
      modifies this
      ensures Valid() && settings == old(settings)
      ensures slots == Moved(old(slots), index, delta)
      ensures !(0 <= index + delta < |old(slots)|) ==> slots == old(slots)
      ensures hotkeyMap == old(hotkeyMap)
    {
      var nextIndex := index + delta;
      if nextIndex < 0 || nextIndex >= |slots| {
        return;
      }
      var list := Swap(slots, index, nextIndex);
      MovedValid(slots, index, delta);
      HotkeysRoundTrip(env, hotkeyMap, |list|);
      RenderValid(list, hotkeyMap);
    }

    /** `duplicateSlot(index)`: inserts a copy, renamed with the copy suffix,
        right after the original. */
    method DuplicateSlot(index: nat)
      requires Valid() && index < |slots|
      modifies this
      ensures Valid() && settings == old(settings)
      ensures slots == InsertAt(old(slots), index + 1, Copy(env, old(slots)[index], settings.language))
      ensures hotkeyMap == old(hotkeyMap)
    {
      var copy := Copy(env, slots[index], settings.language);
      var list := InsertAt(slots, index + 1, copy);
      assert AllValid(list) by {
        forall k | 0 <= k < |list| ensures SlotValid(list[k]) {
          if k > index + 1 { assert list[k] == slots[k - 1]; }
        }
      }
      HotkeysValidGrow(hotkeyMap, |slots|, |list|);
      HotkeysRoundTrip(env, hotkeyMap, |list|);
      RenderValid(list, hotkeyMap);
    }

    /** `removeSlot(index)`: refused (and nothing changes) when only one slot
        is left; otherwise exactly slot `index` is removed and the hotkeys
        are clamped to the shorter list. */
    method RemoveSlot(index: nat) returns (removed: bool)
      requires Valid() && index < |slots|
      modifies this
      ensures Valid() && settings == old(settings)
      ensures removed <==> |old(slots)| > 1
      ensures !removed ==> slots == old(slots) && hotkeyMap == old(hotkeyMap)
      ensures removed ==> slots == RemoveAt(old(slots), index)
      ensures removed ==> hotkeyMap == SanitizeHotkeyMap(env, HotkeysToRaw(old(hotkeyMap)), |slots|)
    {
      if |slots| <= 1 {
        return false;
      }
      var list := RemoveAt(slots, index);
      assert AllValid(list) by {
        forall k | 0 <= k < |list| ensures SlotValid(list[k]) {
          if k >= index { assert list[k] == slots[k + 1]; }
        }
      }
      RenderValid(list, hotkeyMap);
      removed := true;
    }

    /** `handleImport`: a payload the importer accepts replaces settings,
        slots and hotkeys; a rejected one leaves the page untouched. */
    method HandleImport(payload: JsValue) returns (ok: bool)
      requires Valid()
      modifies this
      ensures Valid()
      ensures ok <==> SanitizeImportedPayload(env, payload, detected).Some?
      ensures !ok ==> settings == old(settings) && slots == old(slots) && hotkeyMap == old(hotkeyMap)
      ensures ok ==> var imported := SanitizeImportedPayload(env, payload, detected).value;
        settings == imported.settings && slots == imported.slots && hotkeyMap == imported.hotkeyMap
    {
      var sanitized := SanitizeImportedPayload(env, payload, detected);
      if sanitized.None? {
        return false;
      }
      var imported := sanitized.value;
      settings := imported.settings;
      HotkeysRoundTrip(env, imported.hotkeyMap, |imported.slots|);
      RenderValid(imported.slots, imported.hotkeyMap);
      ok := true;
    }
  }
}
