/**
 * The hotkey recorder of main.py (`listen_for_hotkey` and its `on_press`
 * callback): key names are normalised, modifiers accumulate, and the
 * first other key finishes recording with the combination
 * `'+'.join(list(modifier_keys) + recorded_keys)`.
 */
module Hotkey {
  import opened Wrappers
  import opened Strings

  const Modifiers: set<string> := {"ctrl", "alt", "shift", "win"}

  /** Multi-character names that keep their case. */
  const KeepCase: set<string> := {"enter", "tab", "esc", "backspace"}

  /** What a key press contributes: a modifier, or a key that finishes the combination. */
  datatype Pressed = Modifier(name: string) | Key(name: string)

  /** The name normalisation of `on_press`. */
  function NormalizeKeyName(name: string): (p: Pressed)
    ensures p.Modifier? <==> name == "windows" || name in Modifiers
    ensures p.Modifier? ==> p.name in Modifiers && (name != "windows" ==> p.name == name)
    ensures name == "windows" ==> p == Modifier("win")
    // a key keeps its letters, only their case may change, and only for a longer name
    ensures p.Key? ==> |p.name| == |name| && Lower(p.name) == Lower(name)
    ensures p.Key? && (|name| <= 1 || name in KeepCase) ==> p.name == name
    // a key name of more than one character has no upper-case letter left
    ensures p.Key? && |name| > 1 ==> forall i :: 0 <= i < |p.name| ==> !IsUpper(p.name[i])
  {
    var n := if name == "windows" then "win" else name;
    if n in Modifiers then Modifier(n)
    else if n == "space" then Key("space")
    else if |n| > 1 && n !in KeepCase then
      LowerIdempotent(n);
      Key(Lower(n))
    else
      assert n in KeepCase ==> forall i :: 0 <= i < |n| ==> !IsUpper(n[i]);
      Key(n)
  }

  predicate NoDuplicates(keys: seq<string>) {
    forall i, j :: 0 <= i < j < |keys| ==> keys[i] != keys[j]
  }

  /** `if name not in recorded_keys: recorded_keys.append(name)`. */
  function Record(keys: seq<string>, name: string): (r: seq<string>)
    ensures name in r && keys <= r && |r| <= |keys| + 1
    ensures forall i :: 0 <= i < |r| ==> r[i] in keys || r[i] == name
    ensures NoDuplicates(keys) ==> NoDuplicates(r)
  {
    if name in keys then keys else keys + [name]
  }

  /** `list(modifier_keys)`: some order of the set, each element once. */
  predicate Enumerates(order: seq<string>, s: set<string>) {
    && NoDuplicates(order)
    && (forall i :: 0 <= i < |order| ==> order[i] in s)
    && (forall x :: x in s ==> x in order)
  }

  /** The combination string stored as `self.hotkey`: modifiers first, the last recorded key last. */
  function HotkeyString(modifierOrder: seq<string>, keys: seq<string>): (r: string)
    ensures modifierOrder != [] ==> StartsWith(r, modifierOrder[0])
    ensures modifierOrder == [] && keys != [] ==> StartsWith(r, keys[0])
    ensures keys != [] ==> EndsWith(r, keys[|keys| - 1])
    ensures modifierOrder == [] && keys == [] ==> r == ""
  {
    var parts := modifierOrder + keys;
    assert modifierOrder != [] ==> parts[0] == modifierOrder[0];
    assert keys != [] ==> parts[|parts| - 1] == keys[|keys| - 1];
    Join(parts, '+')
  }

  /** The stored string splits on '+' back into the modifiers, then the keys. */
  lemma HotkeyStringParses(modifierOrder: seq<string>, keys: seq<string>)
    requires |modifierOrder + keys| >= 1
    requires forall x :: x in modifierOrder + keys ==> !Contains(x, '+')
    ensures Split(HotkeyString(modifierOrder, keys), '+') == modifierOrder + keys
  {
    var parts := modifierOrder + keys;
    assert forall k :: 0 <= k < |parts| ==> parts[k] in parts;
    SplitJoin(parts, '+');
  }

  class HotkeyRecorder {
    var recording: bool
    var modifierKeys: set<string>
    var recordedKeys: seq<string>
    var hotkey: Option<string>

    constructor ()
      ensures !recording && modifierKeys == {} && recordedKeys == [] && hotkey == None
    {
      recording, modifierKeys, recordedKeys, hotkey := false, {}, [], None;
    }

    /**
     * `start_hotkey_recording` followed by `listen_for_hotkey`: a fresh
     * recording, unless one is already in progress.
     */
    method StartRecording()
      modifies this
      ensures old(recording) ==>
        recording && modifierKeys == old(modifierKeys) && recordedKeys == old(recordedKeys)
      ensures !old(recording) ==> recording && modifierKeys == {} && recordedKeys == []
      ensures hotkey == old(hotkey)
    {
      if recording {
        return;
      }
      recording := true;
      recordedKeys := [];
      modifierKeys := {};
    }

    /**
     * `on_press(event)` for a key named `name`; `modifierOrder` is the
     * order in which Python happens to list the modifier set.
     */
    method OnPress(name: string, modifierOrder: seq<string>)
      requires Enumerates(modifierOrder, modifierKeys)
      modifies this
      ensures NormalizeKeyName(name).Modifier? ==>
        && modifierKeys == old(modifierKeys) + {NormalizeKeyName(name).name}
        && recordedKeys == old(recordedKeys) && hotkey == old(hotkey) && recording == old(recording)
      ensures NormalizeKeyName(name).Key? ==>
        && recordedKeys == Record(old(recordedKeys), NormalizeKeyName(name).name)
        && hotkey == Some(HotkeyString(modifierOrder, recordedKeys))
        && modifierKeys == {} && !recording
    {
      var pressed := NormalizeKeyName(name);
      match pressed
      case Modifier(m) =>
        modifierKeys := modifierKeys + {m};
      case Key(k) =>
        if k !in recordedKeys {
          recordedKeys := recordedKeys + [k];
        }
        hotkey := Some(HotkeyString(modifierOrder, recordedKeys));
        modifierKeys := {};
        recording := false;
    }
  }
}
