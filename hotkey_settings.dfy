/**
 * The hotkey settings window (src/HotkeySettings.tsx): a key press builds
 * the ordered key list, a non-empty list becomes the selected hotkey, saving
 * refuses an empty hotkey, and the display string follows the hotkey.
 */
module HotkeySettings {
  import opened Options
  import opened StringOps

  /** The fields of a keydown event that the handler reads. */
  datatype KeyEvent = KeyEvent(ctrlKey: bool, altKey: bool, shiftKey: bool, metaKey: bool, key: string)

  const EMPTY_KEYS_ERROR := "Please include at least one modifier key (Ctrl, Alt, Shift, Super)."
  const NO_HOTKEY_ERROR := "No hotkey selected."
  const INITIAL_DISPLAY := "Press a key combination"
  const SEPARATOR := " + "

  /** Upper-cased `event.key` values that name a modifier key and are not pushed. */
  predicate IsModifierKeyName(key: string) {
    key == "CONTROL" || key == "ALT" || key == "SHIFT" || key == "META"
  }

  /** The modifier names, in the order the handler tests their flags. */
  const MODIFIER_NAMES: seq<string> := ["Ctrl", "Alt", "Shift", "Super"]

  /** The event's flags, in the same order as `MODIFIER_NAMES`. */
  function ModifierFlags(ev: KeyEvent): (flags: seq<bool>)
    ensures |flags| == |MODIFIER_NAMES|
  {
    [ev.ctrlKey, ev.altKey, ev.shiftKey, ev.metaKey]
  }

  /** The names of the first `n` modifiers whose flags are set, in table order. */
  function ModifiersUpTo(ev: KeyEvent, n: nat): seq<string>
    requires n <= |MODIFIER_NAMES|
  {
    if n == 0 then []
    else ModifiersUpTo(ev, n - 1) + (if ModifierFlags(ev)[n - 1] then [MODIFIER_NAMES[n - 1]] else [])
  }

  /** The modifier names whose flags are set, in the order Ctrl, Alt, Shift, Super. */
  function PresentModifiers(ev: KeyEvent): seq<string>
  {
    ModifiersUpTo(ev, |MODIFIER_NAMES|)
  }

  /** The modifier part written out flag by flag, as the handler's four `if`s push it. */
  lemma PresentModifiersUnfold(ev: KeyEvent)
    ensures PresentModifiers(ev) ==
      (if ev.ctrlKey then ["Ctrl"] else []) +
      (if ev.altKey then ["Alt"] else []) +
      (if ev.shiftKey then ["Shift"] else []) +
      (if ev.metaKey then ["Super"] else [])
  {
    assert ModifiersUpTo(ev, 1) == [] + (if ev.ctrlKey then ["Ctrl"] else []);
    assert ModifiersUpTo(ev, 2) == ModifiersUpTo(ev, 1) + (if ev.altKey then ["Alt"] else []);
    assert ModifiersUpTo(ev, 3) == ModifiersUpTo(ev, 2) + (if ev.shiftKey then ["Shift"] else []);
    assert ModifiersUpTo(ev, 4) == ModifiersUpTo(ev, 3) + (if ev.metaKey then ["Super"] else []);
  }

  /** The upper-cased main key, unless it is itself a modifier key. */
  function MainKey(ev: KeyEvent): seq<string>
  {
    var key := ToUpper(ev.key);
    if IsModifierKeyName(key) then [] else [key]
  }

  /** The key list a keydown event produces. */
  function KeyList(ev: KeyEvent): seq<string>
  {
    PresentModifiers(ev) + MainKey(ev)
  }

  /** The list `handleKeyDown` builds by pushing onto an empty array. */
  method BuildKeys(ev: KeyEvent) returns (keys: seq<string>)
    ensures keys == KeyList(ev)
  {
    keys := [];
    if ev.ctrlKey { keys := keys + ["Ctrl"]; }
    assert keys == ModifiersUpTo(ev, 1);
    if ev.altKey { keys := keys + ["Alt"]; }
    assert keys == ModifiersUpTo(ev, 2);
    if ev.shiftKey { keys := keys + ["Shift"]; }
    assert keys == ModifiersUpTo(ev, 3);
    if ev.metaKey { keys := keys + ["Super"]; }
    assert keys == PresentModifiers(ev);
    var key := ToUpper(ev.key);
    if key != "CONTROL" && key != "ALT" && key != "SHIFT" && key != "META" {
      keys := keys + [key];
    }
  }

  /** The position of a name in the fixed order Ctrl, Alt, Shift, Super, main key. */
  function Rank(name: string): nat
  {
    if name == "Ctrl" then 0
    else if name == "Alt" then 1
    else if name == "Shift" then 2
    else if name == "Super" then 3
    else 4
  }

  /** An upper-cased key never spells one of the mixed-case modifier names. */
  lemma UpperCaseIsNoModifierName(s: string)
    ensures Rank(ToUpper(s)) == 4
  {
    var u := ToUpper(s);
    ToUpperHasNoLowerCase(s);
    if |u| >= 2 {
      assert !IsLowerAscii(u[1]);
    }
    assert IsLowerAscii("Ctrl"[1]) && IsLowerAscii("Alt"[1]) && IsLowerAscii("Shift"[1]) && IsLowerAscii("Super"[1]);
  }

  /** Ranks strictly increase along the list. */
  predicate StrictlyRanked(keys: seq<string>) {
    forall i, j :: 0 <= i < j < |keys| ==> Rank(keys[i]) < Rank(keys[j])
  }

  /** Every entry of the list ranks below the bound. */
  predicate RanksBelow(keys: seq<string>, bound: nat) {
    forall i :: 0 <= i < |keys| ==> Rank(keys[i]) < bound
  }

  /** Appending at most one entry of the next rank keeps the list strictly ranked. */
  lemma RankedExtend(keys: seq<string>, next: seq<string>, rank: nat)
    requires StrictlyRanked(keys) && RanksBelow(keys, rank)
    requires |next| <= 1 && forall k :: 0 <= k < |next| ==> Rank(next[k]) == rank
    ensures StrictlyRanked(keys + next) && RanksBelow(keys + next, rank + 1)
  {
  }

  /** Each modifier ranks by its position in the table. */
  lemma ModifierRanks()
    ensures forall k :: 0 <= k < |MODIFIER_NAMES| ==> Rank(MODIFIER_NAMES[k]) == k
  {
    assert "Alt" != "Ctrl" by { assert |"Alt"| != |"Ctrl"|; }
    assert "Shift" != "Ctrl" && "Shift" != "Alt" by { assert "Shift"[0] != "Ctrl"[0] && "Shift"[0] != "Alt"[0]; }
    assert "Super" != "Ctrl" && "Super" != "Alt" && "Super" != "Shift" by {
      assert "Super"[0] != "Ctrl"[0] && "Super"[0] != "Alt"[0] && "Super"[1] != "Shift"[1];
    }
  }

  /** The first `n` modifiers are strictly ranked, each below `n`. */
  lemma {:induction false} ModifiersUpToRanked(ev: KeyEvent, n: nat)
    requires n <= |MODIFIER_NAMES|
    ensures StrictlyRanked(ModifiersUpTo(ev, n)) && RanksBelow(ModifiersUpTo(ev, n), n)
  {
    if n > 0 {
      ModifiersUpToRanked(ev, n - 1);
      ModifierRanks();
      RankedExtend(ModifiersUpTo(ev, n - 1), if ModifierFlags(ev)[n - 1] then [MODIFIER_NAMES[n - 1]] else [], n - 1);
    }
  }

  /**
   * The ranks strictly increase along the key list: the modifiers come in the
   * fixed order, the main key comes last, and no entry appears twice.
   */
  lemma KeyListOrdered(ev: KeyEvent)
    ensures forall i, j :: 0 <= i < j < |KeyList(ev)| ==> Rank(KeyList(ev)[i]) < Rank(KeyList(ev)[j])
    ensures forall i, j :: 0 <= i < j < |KeyList(ev)| ==> KeyList(ev)[i] != KeyList(ev)[j]
  {
    UpperCaseIsNoModifierName(ev.key);
    ModifiersUpToRanked(ev, |MODIFIER_NAMES|);
    RankedExtend(PresentModifiers(ev), MainKey(ev), 4);
    assert StrictlyRanked(KeyList(ev));
  }

  /** Each modifier name is in the list exactly when its flag is set. */
  lemma KeyListModifiers(ev: KeyEvent)
    ensures "Ctrl" in KeyList(ev) <==> ev.ctrlKey
    ensures "Alt" in KeyList(ev) <==> ev.altKey
    ensures "Shift" in KeyList(ev) <==> ev.shiftKey
    ensures "Super" in KeyList(ev) <==> ev.metaKey
  {
    UpperCaseIsNoModifierName(ev.key);
    PresentModifiersUnfold(ev);
    ModifierRanks();
    assert MODIFIER_NAMES[0] == "Ctrl" && MODIFIER_NAMES[1] == "Alt" && MODIFIER_NAMES[2] == "Shift" && MODIFIER_NAMES[3] == "Super";
  }

  /** One entry per set flag, plus one for a main key that is not a modifier: at most five. */
  lemma KeyListLength(ev: KeyEvent)
    ensures |KeyList(ev)| ==
      (if ev.ctrlKey then 1 else 0) + (if ev.altKey then 1 else 0) +
      (if ev.shiftKey then 1 else 0) + (if ev.metaKey then 1 else 0) +
      (if IsModifierKeyName(ToUpper(ev.key)) then 0 else 1)
    ensures |KeyList(ev)| <= 5
  {
    PresentModifiersUnfold(ev);
  }

  /** The upper-cased main key is the last entry exactly when it is not a modifier key. */
  lemma KeyListMainKeyLast(ev: KeyEvent)
    ensures !IsModifierKeyName(ToUpper(ev.key)) <==>
      KeyList(ev) != [] && KeyList(ev)[|KeyList(ev)| - 1] == ToUpper(ev.key)
  {
    UpperCaseIsNoModifierName(ev.key);
    ModifiersUpToRanked(ev, |MODIFIER_NAMES|);
  }

  /** The list is empty exactly when no flag is set and the key is itself a modifier key. */
  lemma KeyListEmpty(ev: KeyEvent)
    ensures KeyList(ev) == [] <==>
      !ev.ctrlKey && !ev.altKey && !ev.shiftKey && !ev.metaKey && IsModifierKeyName(ToUpper(ev.key))
  {
    KeyListLength(ev);
  }

  /** Only emptiness is checked, so a plain key without modifiers is accepted. */
  lemma PlainKeyAccepted()
    ensures KeyList(KeyEvent(false, false, false, false, "v")) == ["V"]
  {
    PresentModifiersUnfold(KeyEvent(false, false, false, false, "v"));
    assert ToUpper("v") == [UpperChar('v')];
  }

  lemma CtrlShiftLDisplay()
    ensures KeyList(KeyEvent(true, false, true, false, "l")) == ["Ctrl", "Shift", "L"]
    ensures Join(["Ctrl", "Shift", "L"], SEPARATOR) == "Ctrl + Shift + L"
  {
    PresentModifiersUnfold(KeyEvent(true, false, true, false, "l"));
    assert ToUpper("l") == [UpperChar('l')];
  }

  /** The component's state slots `hotkey`, `displayHotkey` and `error`. */
  class Settings {
    var hotkey: seq<string>
    var displayHotkey: string
    var error: string

    /** A non-empty hotkey is shown as its keys joined with " + ". */
    predicate DisplayInSync()
      reads this
    {
      |hotkey| > 0 ==> displayHotkey == Join(hotkey, SEPARATOR)
    }

    /** The initial state of the three slots. */
    constructor ()
      ensures hotkey == [] && displayHotkey == INITIAL_DISPLAY && error == ""
      ensures DisplayInSync()
    {
      hotkey := [];
      displayHotkey := INITIAL_DISPLAY;
      error := "";
    }

    /** `handleKeyDown`: an empty key list only sets the error; otherwise it becomes the hotkey. */
    method HandleKeyDown(ev: KeyEvent)
      modifies this
      ensures KeyList(ev) == [] ==>
        error == EMPTY_KEYS_ERROR && hotkey == old(hotkey) && displayHotkey == old(displayHotkey)
      ensures KeyList(ev) != [] ==>
        hotkey == KeyList(ev) && displayHotkey == Join(KeyList(ev), SEPARATOR) && error == ""
      ensures old(DisplayInSync()) ==> DisplayInSync()
      ensures KeyList(ev) != [] ==> DisplayInSync()
    {
      var keys := BuildKeys(ev);
      if |keys| == 0 {
        error := EMPTY_KEYS_ERROR;
        return;
      }
      hotkey := keys;
      displayHotkey := Join(keys, SEPARATOR);
      error := "";
    }

    /**
     * `handleSaveHotkey`: an empty hotkey sets the error and sends nothing;
     * otherwise the returned request carries the hotkey to `update_hotkey`.
     */
    method HandleSaveHotkey() returns (request: Option<seq<string>>)
      modifies this
      ensures old(hotkey) == [] ==>
        request == None && error == NO_HOTKEY_ERROR && hotkey == old(hotkey) && displayHotkey == old(displayHotkey)
      ensures old(hotkey) != [] ==> request == Some(old(hotkey)) && unchanged(this)
    {
      if |hotkey| == 0 {
        error := NO_HOTKEY_ERROR;
        request := None;
        return;
      }
      request := Some(hotkey);
    }

    /** `setHotkey(fetchedHotkey)` once the hotkey read from the settings arrives. */
    method ReceiveFetchedHotkey(fetched: seq<string>)
      modifies this
      ensures hotkey == fetched && displayHotkey == old(displayHotkey) && error == old(error)
    {
      hotkey := fetched;
    }

    /** The effect run after `hotkey` changes: a non-empty hotkey is redisplayed. */
    method SyncDisplay()
      modifies this
      ensures DisplayInSync()
      ensures hotkey == old(hotkey) && error == old(error)
      ensures |hotkey| == 0 ==> displayHotkey == old(displayHotkey)
      ensures old(DisplayInSync()) ==> unchanged(this)
    {
      if |hotkey| > 0 {
        displayHotkey := Join(hotkey, SEPARATOR);
      }
    }
  }
}
