/**
 * `ShowingKeyUserInputLineEdit`: a line edit that shows the key
 * combination last pressed, such as "Ctrl+Shift+K", instead of typed text.
 */
module KeyShortcut {
  import opened Base

  // Qt key codes of the keys with a name of their own.
  const KeyEscape: int := 0x0100_0000
  const KeyTab: int := 0x0100_0001
  const KeyBacktab: int := 0x0100_0002
  const KeyBackspace: int := 0x0100_0003
  const KeyReturn: int := 0x0100_0004
  const KeyEnter: int := 0x0100_0005
  const KeyInsert: int := 0x0100_0006
  const KeyDelete: int := 0x0100_0007
  const KeyPause: int := 0x0100_0008
  const KeyPrint: int := 0x0100_0009
  const KeySysReq: int := 0x0100_000a
  const KeyClear: int := 0x0100_000b
  const KeyHome: int := 0x0100_0010
  const KeyEnd: int := 0x0100_0011
  const KeyLeft: int := 0x0100_0012
  const KeyUp: int := 0x0100_0013
  const KeyRight: int := 0x0100_0014
  const KeyDown: int := 0x0100_0015
  const KeyPageUp: int := 0x0100_0016
  const KeyPageDown: int := 0x0100_0017
  const KeySpace: int := 0x20
  const KeyCapsLock: int := 0x0100_0024
  const KeyNumLock: int := 0x0100_0025
  const KeyScrollLock: int := 0x0100_0026
  const KeyMenu: int := 0x0100_0055
  const KeyHelp: int := 0x0100_0058

  // Qt key codes of the bare modifier keys, which have no label.
  const KeyShift: int := 0x0100_0020
  const KeyControl: int := 0x0100_0021
  const KeyMeta: int := 0x0100_0022
  const KeyAlt: int := 0x0100_0023

  // Qt keyboard-modifier flags.
  const ShiftModifier: bv32 := 0x0200_0000
  const ControlModifier: bv32 := 0x0400_0000
  const AltModifier: bv32 := 0x0800_0000
  const MetaModifier: bv32 := 0x1000_0000

  /** The `special_keys` table. */
  const SpecialKeys: map<int, string> := map[
    KeyEscape := "Esc", KeyTab := "Tab", KeyBacktab := "Backtab", KeyBackspace := "Backspace",
    KeyReturn := "Return", KeyEnter := "Enter", KeyInsert := "Ins", KeyDelete := "Del",
    KeyPause := "Pause", KeyPrint := "Print", KeySysReq := "SysReq", KeyClear := "Clear",
    KeyHome := "Home", KeyEnd := "End", KeyLeft := "Left", KeyUp := "Up", KeyRight := "Right",
    KeyDown := "Down", KeyPageUp := "PageUp", KeyPageDown := "PageDown", KeySpace := "Space",
    KeyCapsLock := "CapsLock", KeyNumLock := "NumLock", KeyScrollLock := "ScrollLock",
    KeyMenu := "Menu", KeyHelp := "Help"]

  /** Every named key is Space or lies in Qt's block of function keys. */
  lemma SpecialKeysRange(key: int)
    requires key in SpecialKeys
    ensures key == KeySpace || 0x0100_0000 <= key <= 0x0100_0058
  {
  }

  predicate Printable(key: int) { 0x20 <= key <= 0x7E }

  predicate BeyondLatin1(key: int) { 0x100 <= key <= 0x10FFFF }

  /**
   * `_get_key_text`: the label of a key code.  `upper` stands for
   * `chr(key).upper()` on code points beyond Latin-1.
   */
  function KeyText(key: int, upper: int -> string): (r: Option<string>)
    ensures key in SpecialKeys ==> r == Some(SpecialKeys[key])
    ensures r.None? <==> key !in SpecialKeys && !Printable(key) && !BeyondLatin1(key)
    ensures key !in SpecialKeys && Printable(key) ==> r.Some? && |r.value| == 1 && r.value[0] as int == key
    ensures key !in SpecialKeys && BeyondLatin1(key) ==> r == Some(upper(key))
  {
    if key in SpecialKeys then Some(SpecialKeys[key])
    else if Printable(key) then Some([key as char])
    else if BeyondLatin1(key) then Some(upper(key))
    else None
  }

  /** The table wins over the printable range: Space is "Space", not " ". */
  lemma SpaceIsNamed(upper: int -> string)
    ensures KeyText(KeySpace, upper) == Some("Space")
  {
  }

  /** Control codes, DEL and Latin-1 codes have no label, nor have the bare modifier keys. */
  lemma UnlabelledKeys(key: int, upper: int -> string)
    requires 0 <= key < 0x20 || 0x7F <= key <= 0xFF || key in {KeyShift, KeyControl, KeyMeta, KeyAlt}
    ensures KeyText(key, upper).None?
  {
    if key in SpecialKeys {
      SpecialKeysRange(key);
    }
  }

  const ModifierOrder: seq<string> := ["Ctrl", "Alt", "Shift", "Meta"]

  function Rank(name: string): nat {
    if name == "Ctrl" then 0 else if name == "Alt" then 1 else if name == "Shift" then 2 else 3
  }

  predicate Has(mods: bv32, flag: bv32) { mods & flag != 0 }

  /** Names of the held modifiers, given which of Ctrl, Alt, Shift and Meta are held. */
  function Names(c: bool, a: bool, s: bool, m: bool): seq<string> {
    (if c then ["Ctrl"] else []) + (if a then ["Alt"] else []) + (if s then ["Shift"] else []) + (if m then ["Meta"] else [])
  }

  /** The modifier part of `parts`: the names of the modifiers held, each once, in fixed order. */
  function ModifierNames(mods: bv32): (ps: seq<string>)
    ensures forall i :: 0 <= i < |ps| ==> ps[i] in ModifierOrder
    ensures forall i, j :: 0 <= i < j < |ps| ==> Rank(ps[i]) < Rank(ps[j])
    ensures "Ctrl" in ps <==> Has(mods, ControlModifier)
    ensures "Alt" in ps <==> Has(mods, AltModifier)
    ensures "Shift" in ps <==> Has(mods, ShiftModifier)
    ensures "Meta" in ps <==> Has(mods, MetaModifier)
  {
    Names(Has(mods, ControlModifier), Has(mods, AltModifier), Has(mods, ShiftModifier), Has(mods, MetaModifier))
  }

  /** `sep.join(parts)`. */
  function Join(parts: seq<string>, sep: string): string {
    if |parts| == 0 then ""
    else if |parts| == 1 then parts[0]
    else parts[0] + sep + Join(parts[1..], sep)
  }

  /** Each part followed by the separator. */
  function Terminated(parts: seq<string>, sep: string): string {
    if |parts| == 0 then "" else parts[0] + sep + Terminated(parts[1..], sep)
  }

  /** Joining with a last part puts the separator after every earlier part. */
  lemma {:induction false} JoinSnoc(parts: seq<string>, last: string, sep: string)
    ensures Join(parts + [last], sep) == Terminated(parts, sep) + last
  {
    if |parts| > 0 {
      assert (parts + [last])[1..] == parts[1..] + [last];
      JoinSnoc(parts[1..], last, sep);
    } else {
      assert parts + [last] == [last];
    }
  }

  /** Reference text of the modifiers: "Ctrl+" if held, then "Alt+", "Shift+", "Meta+". */
  function PrefixOf(c: bool, a: bool, s: bool, m: bool): string {
    (if c then "Ctrl+" else "") + (if a then "Alt+" else "") + (if s then "Shift+" else "") + (if m then "Meta+" else "")
  }

  function Prefix(mods: bv32): string {
    PrefixOf(Has(mods, ControlModifier), Has(mods, AltModifier), Has(mods, ShiftModifier), Has(mods, MetaModifier))
  }

  lemma {:induction false} TerminatedAppend(a: seq<string>, b: seq<string>, sep: string)
    ensures Terminated(a + b, sep) == Terminated(a, sep) + Terminated(b, sep)
  {
    if |a| > 0 {
      assert (a + b)[1..] == a[1..] + b;
      TerminatedAppend(a[1..], b, sep);
    } else {
      assert a + b == b;
    }
  }

  lemma TerminatedOptional(present: bool, p: string, sep: string)
    ensures Terminated(if present then [p] else [], sep) == if present then p + sep else ""
  {
    if present {
      assert [p][1..] == [];
    }
  }

  lemma TerminatedNames(c: bool, a: bool, s: bool, m: bool)
    ensures Terminated(Names(c, a, s, m), "+") == PrefixOf(c, a, s, m)
  {
    var pc: seq<string> := if c then ["Ctrl"] else [];
    var pa: seq<string> := if a then ["Alt"] else [];
    var ps: seq<string> := if s then ["Shift"] else [];
    var pm: seq<string> := if m then ["Meta"] else [];
    assert Names(c, a, s, m) == pc + pa + ps + pm;
    calc {
      Terminated(pc + pa + ps + pm, "+");
      { TerminatedAppend(pc + pa + ps, pm, "+"); }
      Terminated(pc + pa + ps, "+") + Terminated(pm, "+");
      { TerminatedAppend(pc + pa, ps, "+"); }
      Terminated(pc + pa, "+") + Terminated(ps, "+") + Terminated(pm, "+");
      { TerminatedAppend(pc, pa, "+"); }
      Terminated(pc, "+") + Terminated(pa, "+") + Terminated(ps, "+") + Terminated(pm, "+");
      { TerminatedOptional(c, "Ctrl", "+");
        TerminatedOptional(a, "Alt", "+");
        TerminatedOptional(s, "Shift", "+");
        TerminatedOptional(m, "Meta", "+"); }
      (if c then "Ctrl" + "+" else "") + (if a then "Alt" + "+" else "")
      + (if s then "Shift" + "+" else "") + (if m then "Meta" + "+" else "");
      { assert "Ctrl" + "+" == "Ctrl+";
        assert "Alt" + "+" == "Alt+";
        assert "Shift" + "+" == "Shift+";
        assert "Meta" + "+" == "Meta+"; }
      PrefixOf(c, a, s, m);
    }
  }

  lemma PrefixIsTerminatedNames(mods: bv32)
    ensures Terminated(ModifierNames(mods), "+") == Prefix(mods)
  {
    TerminatedNames(Has(mods, ControlModifier), Has(mods, AltModifier), Has(mods, ShiftModifier), Has(mods, MetaModifier));
  }

  /** `"+".join(parts)` for the held modifiers and the key text. */
  function Shortcut(mods: bv32, keyText: string): (r: string)
    ensures r == Prefix(mods) + keyText
    ensures |keyText| <= |r| && r[|r| - |keyText|..] == keyText
  {
    JoinSnoc(ModifierNames(mods), keyText, "+");
    PrefixIsTerminatedNames(mods);
    Join(ModifierNames(mods) + [keyText], "+")
  }

  /** The number of parts: one per modifier held, plus the key. */
  lemma PartsCount(mods: bv32, keyText: string)
    ensures |ModifierNames(mods) + [keyText]|
            == (if Has(mods, ControlModifier) then 1 else 0) + (if Has(mods, AltModifier) then 1 else 0)
               + (if Has(mods, ShiftModifier) then 1 else 0) + (if Has(mods, MetaModifier) then 1 else 0) + 1
  {
  }

  /** The widget's state: `self.shortcut` and the displayed text. */
  datatype LineEdit = LineEdit(shortcut: string, text: string)

  /** After `__init__`: an empty shortcut and an empty line. */
  const Initial: LineEdit := LineEdit("", "")

  /** `keyPressEvent`. */
  function KeyPress(e: LineEdit, mods: bv32, key: int, upper: int -> string): (r: LineEdit)
    ensures KeyText(key, upper).None? || KeyText(key, upper).value == "" ==> r == e
    ensures KeyText(key, upper).Some? && KeyText(key, upper).value != "" ==>
              r.shortcut == r.text == Prefix(mods) + KeyText(key, upper).value
  {
    match KeyText(key, upper)
    case Some(k) =>
      if |k| > 0 then
        var s := Shortcut(mods, k);
        LineEdit(s, s)
      else e
    case None => e
  }

  datatype Press = Press(mods: bv32, key: int)

  function PressAll(e: LineEdit, presses: seq<Press>, upper: int -> string): LineEdit
    decreases |presses|
  {
    if |presses| == 0 then e
    else PressAll(KeyPress(e, presses[0].mods, presses[0].key, upper), presses[1..], upper)
  }

  /** Whatever keys are pressed, the displayed text is always the stored shortcut. */
  lemma {:induction false} TextShowsShortcut(e: LineEdit, presses: seq<Press>, upper: int -> string)
    requires e.text == e.shortcut
    ensures PressAll(e, presses, upper).text == PressAll(e, presses, upper).shortcut
    decreases |presses|
  {
    if |presses| > 0 {
      TextShowsShortcut(KeyPress(e, presses[0].mods, presses[0].key, upper), presses[1..], upper);
    }
  }

  /** From the initial widget, a run of unlabelled keys leaves the shortcut empty. */
  lemma {:induction false} UnlabelledKeysKeepEmpty(presses: seq<Press>, upper: int -> string)
    requires forall i :: 0 <= i < |presses| ==> KeyText(presses[i].key, upper).None?
    ensures PressAll(Initial, presses, upper) == Initial
    decreases |presses|
  {
    if |presses| > 0 {
      assert KeyPress(Initial, presses[0].mods, presses[0].key, upper) == Initial;
      UnlabelledKeysKeepEmpty(presses[1..], upper);
    }
  }
}
