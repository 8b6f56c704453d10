/** The key, mouse-button and modifier value tables of the input layer.
    Key codes are plain `i32` values: the enum is opened by casts from
    backend integers, so every `Int32` is a possible `KeyCode`. */
module InputTypes {
  import opened Common

  type KeyCode = Int32
  type MouseButton = Int32
  /** `InputModifiers::Flags`, a `u32` bit set, kept as its unsigned value. */
  type ModifierFlags = Word32

  // Printable keys: each equals the ASCII code of its character.
  const Space: KeyCode := 32
  const Apostrophe: KeyCode := 39
  const Comma: KeyCode := 44
  const Minus: KeyCode := 45
  const Period: KeyCode := 46
  const Slash: KeyCode := 47
  const Key0: KeyCode := 48
  const Key1: KeyCode := 49
  const Key2: KeyCode := 50
  const Key3: KeyCode := 51
  const Key4: KeyCode := 52
  const Key5: KeyCode := 53
  const Key6: KeyCode := 54
  const Key7: KeyCode := 55
  const Key8: KeyCode := 56
  const Key9: KeyCode := 57
  const Semicolon: KeyCode := 59
  const Equal: KeyCode := 61
  const KeyA: KeyCode := 65
  const KeyB: KeyCode := 66
  const KeyC: KeyCode := 67
  const KeyD: KeyCode := 68
  const KeyE: KeyCode := 69
  const KeyF: KeyCode := 70
  const KeyG: KeyCode := 71
  const KeyH: KeyCode := 72
  const KeyI: KeyCode := 73
  const KeyJ: KeyCode := 74
  const KeyK: KeyCode := 75
  const KeyL: KeyCode := 76
  const KeyM: KeyCode := 77
  const KeyN: KeyCode := 78
  const KeyO: KeyCode := 79
  const KeyP: KeyCode := 80
  const KeyQ: KeyCode := 81
  const KeyR: KeyCode := 82
  const KeyS: KeyCode := 83
  const KeyT: KeyCode := 84
  const KeyU: KeyCode := 85
  const KeyV: KeyCode := 86
  const KeyW: KeyCode := 87
  const KeyX: KeyCode := 88
  const KeyY: KeyCode := 89
  const KeyZ: KeyCode := 90
  const LeftBracket: KeyCode := 91
  const Backslash: KeyCode := 92
  const RightBracket: KeyCode := 93
  const GraveAccent: KeyCode := 96
  const World1: KeyCode := 161
  const World2: KeyCode := 162

  // Function keys.
  const Escape: KeyCode := 256
  const Enter: KeyCode := 257
  const Tab: KeyCode := 258
  const Backspace: KeyCode := 259
  const Insert: KeyCode := 260
  const Delete: KeyCode := 261
  const Right: KeyCode := 262
  const Left: KeyCode := 263
  const Down: KeyCode := 264
  const Up: KeyCode := 265
  const PageUp: KeyCode := 266
  const PageDown: KeyCode := 267
  const Home: KeyCode := 268
  const End: KeyCode := 269
  const CapsLock: KeyCode := 280
  const ScrollLock: KeyCode := 281
  const NumLock: KeyCode := 282
  const PrintScreen: KeyCode := 283
  const Pause: KeyCode := 284
  const F1: KeyCode := 290
  const F2: KeyCode := 291
  const F3: KeyCode := 292
  const F4: KeyCode := 293
  const F5: KeyCode := 294
  const F6: KeyCode := 295
  const F7: KeyCode := 296
  const F8: KeyCode := 297
  const F9: KeyCode := 298
  const F10: KeyCode := 299
  const F11: KeyCode := 300
  const F12: KeyCode := 301
  const F13: KeyCode := 302
  const F14: KeyCode := 303
  const F15: KeyCode := 304
  const F16: KeyCode := 305
  const F17: KeyCode := 306
  const F18: KeyCode := 307
  const F19: KeyCode := 308
  const F20: KeyCode := 309
  const F21: KeyCode := 310
  const F22: KeyCode := 311
  const F23: KeyCode := 312
  const F24: KeyCode := 313
  const F25: KeyCode := 314
  const Kp0: KeyCode := 320
  const Kp1: KeyCode := 321
  const Kp2: KeyCode := 322
  const Kp3: KeyCode := 323
  const Kp4: KeyCode := 324
  const Kp5: KeyCode := 325
  const Kp6: KeyCode := 326
  const Kp7: KeyCode := 327
  const Kp8: KeyCode := 328
  const Kp9: KeyCode := 329
  const KpDecimal: KeyCode := 330
  const KpDivide: KeyCode := 331
  const KpMultiply: KeyCode := 332
  const KpSubtract: KeyCode := 333
  const KpAdd: KeyCode := 334
  const KpEnter: KeyCode := 335
  const KpEqual: KeyCode := 336
  const LeftShift: KeyCode := 340
  const LeftControl: KeyCode := 341
  const LeftAlt: KeyCode := 342
  const LeftSuper: KeyCode := 343
  const RightShift: KeyCode := 344
  const RightControl: KeyCode := 345
  const RightAlt: KeyCode := 346
  const RightSuper: KeyCode := 347
  const Menu: KeyCode := 348
  const LastKey: KeyCode := Menu

  /** The remaining rows of the key table, group by group. */
  const OtherPrintableKeys: seq<KeyCode> := [Space, Semicolon, Equal, World1, World2]
  const NavigationKeys: seq<KeyCode> := [
    Escape, Enter, Tab, Backspace, Insert, Delete, Right, Left, Down, Up,
    PageUp, PageDown, Home, End]
  const LockKeys: seq<KeyCode> := [CapsLock, ScrollLock, NumLock, PrintScreen, Pause]
  const FunctionKeys: seq<KeyCode> := [
    F1, F2, F3, F4, F5, F6, F7, F8, F9, F10, F11, F12, F13, F14, F15, F16, F17,
    F18, F19, F20, F21, F22, F23, F24, F25]
  const KeypadKeys: seq<KeyCode> := [
    Kp0, Kp1, Kp2, Kp3, Kp4, Kp5, Kp6, Kp7, Kp8, Kp9,
    KpDecimal, KpDivide, KpMultiply, KpSubtract, KpAdd, KpEnter, KpEqual]
  const ModifierKeys: seq<KeyCode> := [
    LeftShift, LeftControl, LeftAlt, LeftSuper, RightShift, RightControl, RightAlt,
    RightSuper, Menu]

  /** The rows of the key table, group by group. */
  function KeyGroups(): seq<seq<KeyCode>> {
    [DigitKeys, LetterKeys, PunctuationKeyCodes(), OtherPrintableKeys, NavigationKeys,
     LockKeys, FunctionKeys, KeypadKeys, ModifierKeys]
  }

  /** The groups laid end to end. */
  function Flatten(groups: seq<seq<KeyCode>>): seq<KeyCode> {
    if |groups| == 0 then [] else groups[0] + Flatten(groups[1..])
  }

  /** Every named key of the table. */
  function NamedKeys(): seq<KeyCode> {
    Flatten(KeyGroups())
  }

  /** The key codes of the punctuation table. */
  function PunctuationKeyCodes(): seq<KeyCode> {
    seq(|PunctuationKeys|, i requires 0 <= i < |PunctuationKeys| => PunctuationKeys[i].1)
  }

  /** The digit keys, indexed by the digit. */
  const DigitKeys: seq<KeyCode> := [Key0, Key1, Key2, Key3, Key4, Key5, Key6, Key7, Key8, Key9]

  /** The letter keys, indexed by the letter's offset from 'A'. */
  const LetterKeys: seq<KeyCode> := [
    KeyA, KeyB, KeyC, KeyD, KeyE, KeyF, KeyG, KeyH, KeyI, KeyJ, KeyK, KeyL, KeyM,
    KeyN, KeyO, KeyP, KeyQ, KeyR, KeyS, KeyT, KeyU, KeyV, KeyW, KeyX, KeyY, KeyZ]

  /** The eleven punctuation keys paired with the character they carry. */
  const PunctuationKeys: seq<(char, KeyCode)> := [
    ('\'', Apostrophe), (',', Comma), ('-', Minus), ('.', Period), ('/', Slash),
    (';', Semicolon), ('=', Equal),
    ('[', LeftBracket), ('\\', Backslash), (']', RightBracket), ('`', GraveAccent)]

  /** The digit keys are contiguous and equal to the ASCII codes of '0'..'9'. */
  lemma DigitKeysAreAscii()
    ensures |DigitKeys| == 10
    ensures forall d :: 0 <= d < |DigitKeys| ==> DigitKeys[d] == Key0 + d == '0' as int + d
  {
  }

  /** The letter keys are contiguous and equal to the ASCII codes of 'A'..'Z'. */
  lemma LetterKeysAreAscii()
    ensures |LetterKeys| == 26
    ensures forall i :: 0 <= i < |LetterKeys| ==> LetterKeys[i] == KeyA + i == 'A' as int + i
  {
  }

  /** Each punctuation key equals the ASCII code of its character. */
  lemma PunctuationKeysAreAscii()
    ensures forall i :: 0 <= i < |PunctuationKeys| ==> PunctuationKeys[i].1 == PunctuationKeys[i].0 as int
  {
  }

  /** The non-printable rows are contiguous runs of codes. */
  lemma KeyGroupsAreContiguous()
    ensures forall i :: 0 <= i < |NavigationKeys| ==> NavigationKeys[i] == Escape + i
    ensures forall i :: 0 <= i < |LockKeys| ==> LockKeys[i] == CapsLock + i
    ensures forall i :: 0 <= i < |FunctionKeys| ==> FunctionKeys[i] == F1 + i
    ensures forall i :: 0 <= i < |KeypadKeys| ==> KeypadKeys[i] == Kp0 + i
    ensures forall i :: 0 <= i < |ModifierKeys| ==> ModifierKeys[i] == LeftShift + i
  {
  }

  /** Every key of `s` lies between `lo` and `hi`. */
  ghost predicate Within(s: seq<KeyCode>, lo: int, hi: int) {
    forall i :: 0 <= i < |s| ==> lo <= s[i] <= hi
  }

  /** Bounds that hold of every group hold of the flattened table. */
  lemma {:induction false} FlattenWithin(groups: seq<seq<KeyCode>>, lo: int, hi: int)
    requires forall g :: 0 <= g < |groups| ==> Within(groups[g], lo, hi)
    ensures Within(Flatten(groups), lo, hi)
  {
    if |groups| > 0 {
      FlattenWithin(groups[1..], lo, hi);
      var head, tail := groups[0], Flatten(groups[1..]);
      assert Within(head, lo, hi);
      forall i | 0 <= i < |head + tail| ensures lo <= (head + tail)[i] <= hi {
        if i < |head| {
          assert (head + tail)[i] == head[i];
        } else {
          assert (head + tail)[i] == tail[i - |head|];
        }
      }
    }
  }

  /** `Last` is `Menu`, the largest value of the key table, and no named key
      lies below `Space`. */
  lemma LastKeyIsLargest()
    ensures LastKey == Menu == 348
    ensures Within(NamedKeys(), Space, LastKey)
  {
    DigitKeysAreAscii();
    LetterKeysAreAscii();
    PunctuationKeysAreAscii();
    KeyGroupsAreContiguous();
    var groups := KeyGroups();
    assert Within(OtherPrintableKeys, Space, LastKey);
    assert forall g :: 0 <= g < |groups| ==> Within(groups[g], Space, LastKey);
    FlattenWithin(groups, Space, LastKey);
  }

  // Mouse buttons.
  const Button1: MouseButton := 0
  const Button2: MouseButton := 1
  const Button3: MouseButton := 2
  const Button4: MouseButton := 3
  const Button5: MouseButton := 4
  const Button6: MouseButton := 5
  const Button7: MouseButton := 6
  const Button8: MouseButton := 7
  const LeftButton: MouseButton := Button1
  const RightButton: MouseButton := Button2
  const MiddleButton: MouseButton := Button3
  const LastButton: MouseButton := Button8

  const Buttons: seq<MouseButton> := [Button1, Button2, Button3, Button4, Button5, Button6, Button7, Button8]

  /** Buttons are numbered 0..7 in order, the named buttons alias the first three. */
  lemma MouseButtonTable()
    ensures forall i :: 0 <= i < |Buttons| ==> Buttons[i] == i
    ensures LeftButton == 0 && RightButton == 1 && MiddleButton == 2
    ensures LastButton == Buttons[|Buttons| - 1] == 7
  {
  }

  // Modifier bits.
  const ShiftBit: ModifierFlags := 0x0001
  const ControlBit: ModifierFlags := 0x0002
  const AltBit: ModifierFlags := 0x0004
  const SuperBit: ModifierFlags := 0x0008
  const CapsLockBit: ModifierFlags := 0x0010
  const NumLockBit: ModifierFlags := 0x0020

  const ModifierBits: seq<ModifierFlags> := [ShiftBit, ControlBit, AltBit, SuperBit, CapsLockBit, NumLockBit]

  /** Two to the power `n`. */
  function Pow2(n: nat): (p: nat)
    ensures p >= 1
  {
    if n == 0 then 1 else 2 * Pow2(n - 1)
  }

  /** The six modifier bits are the single bits 2^0 .. 2^5 in order, so they
      are pairwise disjoint and together cover 0x3F. */
  lemma ModifierBitsAreDistinct()
    ensures forall i :: 0 <= i < |ModifierBits| ==> ModifierBits[i] == Pow2(i)
    ensures ShiftBit + ControlBit + AltBit + SuperBit + CapsLockBit + NumLockBit == 0x3F
  {
    assert Pow2(5) == 32 by {
      assert Pow2(1) == 2 && Pow2(2) == 4 && Pow2(3) == 8 && Pow2(4) == 16;
    }
  }
}
