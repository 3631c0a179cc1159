/** The background worker's context menu and hotkeys (bg.js): one menu
    entry per slot under a parent entry, the click handler that decodes the
    slot index from the entry's id, and the three keyboard commands that run
    the slot the hotkey map assigns to them. */
module Menu {
  import opened Basics
  import opened JsValues
  import opened Schema
  import opened Background

  const ParentMenuId := "gpt_side_runner_root"
  const ParentTitle := "GPT Side Runner"
  const MenuIdPrefix := "slot_"

  /** A `chrome.contextMenus.create` call; every entry is shown in all contexts. */
  datatype MenuItem = MenuItem(id: string, parentId: Option<string>, title: JsValue)

  /** The id of the entry for the slot at position i: "slot_" and i in decimal. */
  function MenuId(i: nat): (r: string)
    ensures StartsWith(r, MenuIdPrefix)
  {
    MenuIdPrefix + ToDecimal(i)
  }

  /** `slot.name || "Slot " + (index + 1)`; the fallback is English whatever
      the language. */
  function EntryTitle(slot: Slot, index: nat): (r: JsValue)
    ensures Truthy(r)
    ensures SlotValid(slot) ==> r == slot.name
  {
    if Truthy(slot.name) then slot.name else Str("Slot " + ToDecimal(index + 1))
  }

  /** `rebuildContextMenu()` after the old entries are removed: `slots` is
      what `getSlots` returned. Nothing is created for an empty list;
      otherwise the parent entry comes first and then one child per slot, in
      list order. */
  method RebuildMenu(slots: seq<Slot>) returns (items: seq<MenuItem>)
    ensures |slots| == 0 ==> items == []
    ensures |slots| > 0 ==> |items| == |slots| + 1 && items[0] == MenuItem(ParentMenuId, None, Str(ParentTitle))
    ensures |slots| > 0 ==> forall i :: 0 <= i < |slots| ==>
      items[i + 1] == MenuItem(MenuId(i), Some(ParentMenuId), EntryTitle(slots[i], i))
  {
    if |slots| == 0 {
      return [];
    }
    items := [MenuItem(ParentMenuId, None, Str(ParentTitle))];
    var index := 0;
    while index < |slots|
      invariant 0 <= index <= |slots|
      invariant |items| == index + 1
      invariant items[0] == MenuItem(ParentMenuId, None, Str(ParentTitle))
      invariant forall i :: 0 <= i < index ==>
        items[i + 1] == MenuItem(MenuId(i), Some(ParentMenuId), EntryTitle(slots[i], i))
    {
      items := items + [MenuItem(MenuId(index), Some(ParentMenuId), EntryTitle(slots[index], index))];
      index := index + 1;
    }
  }

  /** Distinct slots get distinct entry ids, none of which is the parent's. */
  lemma MenuIdsDistinct(i: nat, j: nat)
    ensures MenuId(i) == MenuId(j) ==> i == j
    ensures MenuId(i) != ParentMenuId
  {
    var a := MenuId(i);
    var b := MenuId(j);
    if a == b {
      assert ToDecimal(i) == a[|MenuIdPrefix|..];
      assert ToDecimal(j) == b[|MenuIdPrefix|..];
      ToDecimalInjective(i, j);
    }
    assert a[0] == 's' && ParentMenuId[0] == 'g';
  }

  /** The text up to the first '_' (all of s if there is none). */
  function UpToUnderscore(s: string): (r: string)
    ensures |r| <= |s| && r == s[..|r|]
    ensures '_' !in r
    ensures |r| < |s| ==> s[|r|] == '_'
  {
    if s == [] || s[0] == '_' then [] else [s[0]] + UpToUnderscore(s[1..])
  }

  lemma UpToUnderscoreWhole(s: string)
    requires '_' !in s
    ensures UpToUnderscore(s) == s
  {
  }

  /** The slot index a clicked entry's id names: none unless the id starts
      with "slot_"; otherwise `Number(id.split("_")[1])`, the number spelled
      between the first and the second underscore. */
  function ClickedIndex(env: Env, menuItemId: string): (r: Option<JsNum>)
    ensures r.Some? <==> StartsWith(menuItemId, MenuIdPrefix)
    ensures menuItemId == MenuIdPrefix ==> r == Some(Finite(0.0))
  {
    if StartsWith(menuItemId, MenuIdPrefix) then
      Some(StringToNumber(env, UpToUnderscore(menuItemId[|MenuIdPrefix|..])))
    else None
  }

  /** Clicking the entry made for slot i names index i. */
  lemma ClickedIndexOfMenuId(env: Env, i: nat)
    ensures ClickedIndex(env, MenuId(i)) == Some(Finite(i as real))
  {
    var d := ToDecimal(i);
    assert MenuId(i)[|MenuIdPrefix|..] == d;
    assert '_' !in d;
    UpToUnderscoreWhole(d);
    FromToDecimal(i);
  }

  /** The menu's click handler: the window request for the clicked entry,
      with the context's selected text when it is a string. */
  function OnMenuClick(env: Env, menuItemId: string, selectionText: JsValue,
                       storedSlots: JsValue, storedSettings: JsValue, detected: Language,
                       tab: Option<Tab>, pageSelection: string, window: WindowBounds): (r: Option<WindowRequest>)
    ensures r.Some? <==> StartsWith(menuItemId, MenuIdPrefix)
    ensures r.Some? ==> r.value == RunSlot(env, storedSlots, storedSettings, detected,
      Num(ClickedIndex(env, menuItemId).value),
      Str(if selectionText.Str? then selectionText.s else ""), tab, pageSelection, window)
  {
    match ClickedIndex(env, menuItemId)
    case None => None
    case Some(n) =>
      var selected := if selectionText.Str? then selectionText.s else "";
      Some(RunSlot(env, storedSlots, storedSettings, detected, Num(n), Str(selected), tab, pageSelection, window))
  }

  /** Every menu entry runs the slot it was made for: the entry built at
      position i + 1 from the worker's list, clicked, runs slot i of that
      same list. */
  lemma {:induction false} MenuEntryRunsItsSlot(env: Env, storedSlots: JsValue, storedSettings: JsValue,
                                                detected: Language, i: nat)
    requires i < |GetSlots(env, storedSlots, storedSettings, detected).slots|
    ensures var slots := GetSlots(env, storedSlots, storedSettings, detected).slots;
      SlotAt(env, slots, Num(ClickedIndex(env, MenuId(i)).value)) == Some(slots[i])
  {
    var slots := GetSlots(env, storedSlots, storedSettings, detected).slots;
    EntryRunsSlot(env, slots, i);
  }

  /** The same for any list of slots. */
  lemma EntryRunsSlot(env: Env, slots: seq<Slot>, i: nat)
    requires i < |slots|
    ensures SlotAt(env, slots, Num(ClickedIndex(env, MenuId(i)).value)) == Some(slots[i])
  {
    ClickedIndexOfMenuId(env, i);
    SlotAtNumber(env, slots, i as real);
  }

  // ---- Hotkeys ----

  /** The keyboard command that runs hotkey k (0-based). */
  function HotkeyCommand(k: nat): string
    requires k < 3
  {
    "run-hotkey-" + ToDecimal(k + 1)
  }

  /** The slot index a command runs: `map[k] ?? k` for "run-hotkey-(k+1)",
      nothing for any other command. */
  function DispatchCommand(command: string, storedHotkeys: JsValue): (r: Option<JsValue>)
    ensures forall k: nat :: k < 3 && command == HotkeyCommand(k) ==>
      var entry := GetHotkeyMap(storedHotkeys)[k];
      r == Some(if Nullish(entry) then Num(Finite(k as real)) else entry)
    ensures (forall k: nat :: k < 3 ==> command != HotkeyCommand(k)) ==> r.None?
  {
    var hotkeys := GetHotkeyMap(storedHotkeys);
    assert HotkeyCommand(0) == "run-hotkey-1" && HotkeyCommand(1) == "run-hotkey-2" && HotkeyCommand(2) == "run-hotkey-3";
    if command == "run-hotkey-1" then Some(if Nullish(hotkeys[0]) then Num(Finite(0.0)) else hotkeys[0])
    else if command == "run-hotkey-2" then Some(if Nullish(hotkeys[1]) then Num(Finite(1.0)) else hotkeys[1])
    else if command == "run-hotkey-3" then Some(if Nullish(hotkeys[2]) then Num(Finite(2.0)) else hotkeys[2])
    else None
  }

  /** A hotkey map the options page saved reaches the worker intact: hotkey
      k runs slot h[k] when that entry is a whole number, and the first slot
      when it is fractional. */
  lemma {:induction false} HotkeyRunsAssignedSlot(env: Env, hotkeys: seq<real>, slots: seq<Slot>, k: nat)
    requires HotkeysValid(hotkeys, |slots|) && |slots| > 0 && k < 3
    ensures var index := DispatchCommand(HotkeyCommand(k), HotkeysToRaw(hotkeys));
      && index == Some(Num(Finite(hotkeys[k])))
      && (hotkeys[k] == hotkeys[k].Floor as real ==> SlotAt(env, slots, index.value) == Some(slots[hotkeys[k].Floor]))
      && (hotkeys[k] != hotkeys[k].Floor as real ==> SlotAt(env, slots, index.value) == Some(slots[0]))
  {
    var raw := HotkeysToRaw(hotkeys);
    assert GetHotkeyMap(raw)[k] == Num(Finite(hotkeys[k]));
    SlotAtNumber(env, slots, hotkeys[k]);
  }

  /** Without a stored map, hotkey k runs slot k (the first slot if there
      are fewer than k + 1). */
  lemma DefaultHotkeys(env: Env, slots: seq<Slot>, k: nat)
    requires |slots| > 0 && k < 3
    ensures var index := DispatchCommand(HotkeyCommand(k), Undefined);
      && index == Some(Num(Finite(k as real)))
      && SlotAt(env, slots, index.value) == Some(if k < |slots| then slots[k] else slots[0])
  {
    SlotAtNumber(env, slots, k as real);
  }
}
