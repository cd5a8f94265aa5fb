/** `MapKey`: translation of the Dreamcast keyboard's scan codes (KallistiOS
    `KBD_KEY_*`, the USB HID usage numbers) into the engine's key numbers (the
    SDL 1.2 `KEY_*` numbering). */
module KeyMap {

  /** The engine's "no such key". */
  const KeyUnknown: int := 0

  /** Size of the engine's per-key tables; every key number is below it. */
  const KeyTableSize: int := 1024

  // Scan codes of the ranges `MapKey` translates by offset.
  const KbdA: int := 0x04
  const KbdZ: int := 0x1d
  const Kbd1: int := 0x1e
  const Kbd9: int := 0x26
  const Kbd0: int := 0x27
  const KbdF1: int := 0x3a
  const KbdF12: int := 0x45
  const KbdPad1: int := 0x59
  const KbdPad9: int := 0x61
  /** One past the last scan code the keyboard scan visits (`KBD_KEY_S3`). */
  const KbdS3: int := 0x65

  // Engine key numbers at the start of those ranges.
  const KeyA: int := 97
  const Key0: int := 48
  const Key1: int := 49
  const KeyF1: int := 282
  const KeyKp1: int := 257

  /** The codes `MapKey` translates one by one, scan code first. */
  function Listed(k: int): (key: int)
    ensures key != KeyUnknown ==> 0 < key < KeyTableSize
  {
    match k
    case 0x28 => 13   // ENTER -> RETURN
    case 0x29 => 27   // ESCAPE
    case 0x2a => 8    // BACKSPACE
    case 0x2b => 9    // TAB
    case 0x2c => 32   // SPACE
    case 0x2d => 45   // MINUS
    case 0x2e => 61   // PLUS -> EQUALS
    case 0x2f => 91   // LBRACKET
    case 0x30 => 93   // RBRACKET
    case 0x31 => 92   // BACKSLASH
    case 0x33 => 59   // SEMICOLON
    case 0x34 => 39   // QUOTE
    case 0x35 => 96   // TILDE -> BACKQUOTE
    case 0x36 => 44   // COMMA
    case 0x37 => 46   // PERIOD
    case 0x38 => 47   // SLASH
    case 0x39 => 301  // CAPSLOCK
    case 0x46 => 316  // PRINT
    case 0x47 => 302  // SCRLOCK
    case 0x48 => 19   // PAUSE
    case 0x49 => 277  // INSERT
    case 0x4a => 278  // HOME
    case 0x4b => 280  // PGUP -> PAGEUP
    case 0x4c => 127  // DEL -> DELETE
    case 0x4d => 279  // END
    case 0x4e => 281  // PGDOWN -> PAGEDOWN
    case 0x4f => 275  // RIGHT
    case 0x50 => 276  // LEFT
    case 0x51 => 274  // DOWN
    case 0x52 => 273  // UP
    case 0x53 => 300  // PAD_NUMLOCK -> NUMLOCK
    case 0x54 => 267  // PAD_DIVIDE
    case 0x55 => 268  // PAD_MULTIPLY
    case 0x56 => 269  // PAD_MINUS
    case 0x57 => 270  // PAD_PLUS
    case 0x58 => 271  // PAD_ENTER
    case 0x62 => 256  // PAD_0 -> KP0
    case 0x63 => 266  // PAD_PERIOD
    case _ => KeyUnknown
  }

  /** The inverse of `Listed`. */
  function Unlisted(key: int): int {
    match key
    case 13 => 0x28
    case 27 => 0x29
    case 8 => 0x2a
    case 9 => 0x2b
    case 32 => 0x2c
    case 45 => 0x2d
    case 61 => 0x2e
    case 91 => 0x2f
    case 93 => 0x30
    case 92 => 0x31
    case 59 => 0x33
    case 39 => 0x34
    case 96 => 0x35
    case 44 => 0x36
    case 46 => 0x37
    case 47 => 0x38
    case 301 => 0x39
    case 316 => 0x46
    case 302 => 0x47
    case 19 => 0x48
    case 277 => 0x49
    case 278 => 0x4a
    case 280 => 0x4b
    case 127 => 0x4c
    case 279 => 0x4d
    case 281 => 0x4e
    case 275 => 0x4f
    case 276 => 0x50
    case 274 => 0x51
    case 273 => 0x52
    case 300 => 0x53
    case 267 => 0x54
    case 268 => 0x55
    case 269 => 0x56
    case 270 => 0x57
    case 271 => 0x58
    case 256 => 0x62
    case 266 => 0x63
    case _ => -1
  }

  /** `MapKey` as the engine writes it. Its digit test runs from `KBD_KEY_0` up to
      `KBD_KEY_9`, but the keyboard numbers the digit row 1 to 9 and then 0, so
      the range is empty and no digit key is translated. Off the digit row it
      agrees with the corrected `MapKey`. */
  function MapKeyAsWritten(k: int): (key: int)
    ensures !(Kbd1 <= k <= Kbd0) ==> key == MapKey(k)
  {
    if KbdA <= k <= KbdZ then KeyA + (k - KbdA)
    else if Kbd0 <= k <= Kbd9 then Key0 + (k - Kbd0)
    else if KbdF1 <= k <= KbdF12 then KeyF1 + (k - KbdF1)
    else if KbdPad1 <= k <= KbdPad9 then KeyKp1 + (k - KbdPad1)
    else Listed(k)
  }

  /** The digit keys 1 and 0 of the top row are both reported as unknown. */
  lemma DigitsUnmapped()
    ensures MapKeyAsWritten(Kbd1) == KeyUnknown
    ensures MapKeyAsWritten(Kbd0) == KeyUnknown
    ensures forall k :: Kbd1 <= k <= Kbd0 ==> MapKeyAsWritten(k) == KeyUnknown
  {
  }

  /** `MapKey` with the digit row translated in the keyboard's own order, 1 to 9
      then 0, the way the keypad's is. */
  function MapKey(k: int): (key: int)
    ensures key != KeyUnknown ==> 0 < key < KeyTableSize
    ensures KbdA <= k <= KbdZ ==> key == KeyA + (k - KbdA)
    ensures Kbd1 <= k <= Kbd9 ==> key == Key1 + (k - Kbd1)
    ensures k == Kbd0 ==> key == Key0
    ensures KbdF1 <= k <= KbdF12 ==> key == KeyF1 + (k - KbdF1)
    ensures KbdPad1 <= k <= KbdPad9 ==> key == KeyKp1 + (k - KbdPad1)
    ensures !(KbdA <= k <= Kbd0 || KbdF1 <= k <= KbdF12 || KbdPad1 <= k <= KbdPad9) ==> key == Listed(k)
  {
    if KbdA <= k <= KbdZ then KeyA + (k - KbdA)
    else if Kbd1 <= k <= Kbd9 then Key1 + (k - Kbd1)
    else if k == Kbd0 then Key0
    else if KbdF1 <= k <= KbdF12 then KeyF1 + (k - KbdF1)
    else if KbdPad1 <= k <= KbdPad9 then KeyKp1 + (k - KbdPad1)
    else Listed(k)
  }

  /** The scan code a key number comes from, or -1. */
  function UnmapKey(key: int): int {
    if KeyA <= key <= KeyA + (KbdZ - KbdA) then KbdA + (key - KeyA)
    else if Key1 <= key <= Key1 + (Kbd9 - Kbd1) then Kbd1 + (key - Key1)
    else if key == Key0 then Kbd0
    else if KeyF1 <= key <= KeyF1 + (KbdF12 - KbdF1) then KbdF1 + (key - KeyF1)
    else if KeyKp1 <= key <= KeyKp1 + (KbdPad9 - KbdPad1) then KbdPad1 + (key - KeyKp1)
    else Unlisted(key)
  }

  lemma ListedRoundTrip(k: int)
    requires Listed(k) != KeyUnknown
    ensures Unlisted(Listed(k)) == k
  {
  }

  /** Every translated scan code can be told back from its key number. */
  lemma MapKeyRoundTrip(k: int)
    requires MapKey(k) != KeyUnknown
    ensures UnmapKey(MapKey(k)) == k
  {
    if !(KbdA <= k <= Kbd0 || KbdF1 <= k <= KbdF12 || KbdPad1 <= k <= KbdPad9) {
      ListedRoundTrip(k);
      var key := Listed(k);
      assert !(KeyA <= key <= KeyA + (KbdZ - KbdA));
      assert !(Key1 <= key <= Key1 + (Kbd9 - Kbd1)) && key != Key0;
      assert !(KeyF1 <= key <= KeyF1 + (KbdF12 - KbdF1));
      assert !(KeyKp1 <= key <= KeyKp1 + (KbdPad9 - KbdPad1));
    }
  }

  /** Distinct scan codes never share a key number. */
  lemma MapKeyInjective(i: int, j: int)
    requires MapKey(i) != KeyUnknown && MapKey(i) == MapKey(j)
    ensures i == j
  {
    MapKeyRoundTrip(i);
    MapKeyRoundTrip(j);
  }
}
