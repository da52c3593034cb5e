/**
 The scan-code decoder (keyboard.c, ps2_kbd_defs.h): a modifier word updated
 byte by byte, characterised by the whole history of bytes.
 */
module Keyboard {
  /** `unsigned`: the static word, the data register and the character. */
  type Word = bv32

  /** What fits the index range of a 256-entry table. */
  type Byte = b: Word | b < 256

  const KBS_DIB: Word := 1

  const SHIFT: Word := 1
  const CTL: Word := 2
  const ALT: Word := 4
  const CAPSLOCK: Word := 8
  const NUMLOCK: Word := 16
  const SCROLLLOCK: Word := 32
  const E0ESC: Word := 64

  function ShiftCode(d: Byte): Byte {
    if d == 0x1D || d == 0x9D then CTL
    else if d == 0x2A || d == 0x36 then SHIFT
    else if d == 0x38 || d == 0xB8 then ALT
    else 0
  }

  function ToggleCode(d: Byte): Byte {
    if d == 0x3A then CAPSLOCK else if d == 0x45 then NUMLOCK else if d == 0x46 then SCROLLLOCK else 0
  }

  // ---------------------------------------------------------------- the code

  /** The code a byte stands for, given whether the byte before it was the escape. */
  function Code(escaped: bool, b: Byte): Byte {
    if b & 0x80 != 0 then (if escaped then b else b & 0x7F) else (if escaped then b | 0x80 else b)
  }

  /** A release clears the bits of its key, and the escape bit. */
  function Released(shift: Word, code: Byte): Word { shift & !(ShiftCode(code) | E0ESC) }

  /** A press sets the bits of its key and flips its lock bit. */
  function Pressed(shift: Word, code: Byte): Word { (shift | ShiftCode(code)) ^ ToggleCode(code) }

  /** The modifier word after one byte. */
  function Step(shift: Word, b: Byte): Word {
    if b == 0xE0 then shift | E0ESC
    else if b & 0x80 != 0 then Released(shift, Code(shift & E0ESC != 0, b))
    else if shift & E0ESC != 0 then Pressed(shift & !E0ESC, Code(true, b))
    else Pressed(shift, Code(false, b))
  }

  /** The character maps, each with an entry for every byte and for nothing else. */
  datatype Maps = Maps(normal: Byte -> Byte, shifted: Byte -> Byte, ctl: Byte -> Byte)

  /** `charcode[row][data]`: four rows, the last two both the control map. */
  function CharCode(maps: Maps, row: Word, data: Byte): Byte
    requires row < 4
  {
    if row == 0 then maps.normal(data) else if row == 1 then maps.shifted(data) else maps.ctl(data)
  }

  /** The CTL and SHIFT bits select the row. */
  function Lookup(maps: Maps, shift: Word, data: Byte): Byte {
    CharCode(maps, shift & (CTL | SHIFT), data)
  }

  /** Results of `readcode`: -1, 0 for an escape or a release, or a character. */
  datatype Key = NoData | Silent | Character(c: Word)

  class Decoder {
    var shift: Word
    ghost var history: seq<Byte>

    /** The static word is the one the bytes read so far lead to. */
    ghost predicate Valid()
      reads this
    {
      shift == After(history)
    }

    constructor ()
      ensures Valid() && history == []
    {
      shift, history := 0, [];
    }

    /** `readcode`: what it returns is said by the keys that are down, see `Decoded`. */
    method ReadCode(status: Byte, byte: Byte, maps: Maps) returns (r: Key)
      requires Valid()
      modifies this
      ensures Valid()
      ensures !HasData(status) ==> r == NoData && history == old(history)
      ensures HasData(status) ==> history == old(history) + [byte] && r == Decoded(history, maps)
    {
      if !HasData(status) { return NoData; }
      var was := shift;
      var now;
      r, now := DecodeNext(was, byte, maps, history);
      shift := now;
      history := history + [byte];
    }
  }

  /** The lowest bit of the status port: there is a byte to read. */
  predicate HasData(status: Byte): (r: bool)
    ensures r <==> status & 1 != 0
  {
    status & KBS_DIB != 0
  }

  /** `readcode` on the next byte of a history. */
  method DecodeNext(word: Word, byte: Byte, maps: Maps, ghost history: seq<Byte>) returns (r: Key, shift: Word)
    requires word == After(history)
    ensures shift == After(history + [byte]) && r == Decoded(history + [byte], maps)
  {
    r, shift := Decode(word, byte, maps);
    AfterAppend(history, byte);
    DecodesAs(history, byte, maps, r, shift);
  }

  /** The body of `readcode` once a byte has arrived: the static word goes in and comes out. */
  method Decode(word: Word, byte: Byte, maps: Maps) returns (r: Key, shift: Word)
    ensures shift == Step(word, byte)
    ensures byte & 0x80 != 0 ==> r == Silent
    ensures byte & 0x80 == 0 ==> r == Character(ByWord(maps, shift, Code(word & E0ESC != 0, byte)))
  {
    var data;
    shift, data := UpdateShift(word, byte);
    if byte & 0x80 != 0 { return Silent, shift; }
    var c := FindCharacter(maps, shift, data);
    return Character(c), shift;
  }

  /** The character for a code, as the flags of the word select it. */
  function ByWord(maps: Maps, shift: Word, data: Byte): Word {
    Chosen(maps, shift & CTL != 0, shift & SHIFT != 0, shift & CAPSLOCK != 0, data)
  }

  /** The updates of the static word, and the code the byte stands for. */
  method UpdateShift(word: Word, byte: Byte) returns (shift: Word, data: Byte)
    ensures shift == Step(word, byte) && data == Code(word & E0ESC != 0, byte)
  {
    var escaped := word & E0ESC != 0;
    data := Code(escaped, byte);
    if byte == 0xE0 {
      shift := word | E0ESC;
    } else if byte & 0x80 != 0 {
      shift := ReleaseKey(word, data);
    } else if escaped {
      shift := PressKey(word & !E0ESC, data);
    } else {
      shift := PressKey(word, data);
    }
  }

  method ReleaseKey(word: Word, data: Byte) returns (shift: Word)
    ensures shift == Released(word, data)
  {
    shift := word & !(ShiftCode(data) | E0ESC);
  }

  method PressKey(word: Word, data: Byte) returns (shift: Word)
    ensures shift == Pressed(word, data)
  {
    shift := word | ShiftCode(data);
    shift := shift ^ ToggleCode(data);
  }

  method FindCharacter(maps: Maps, shift: Word, data: Byte) returns (c: Word)
    ensures c == ByWord(maps, shift, data)
  {
    LookupByBits(maps, shift, data);
    c := Lookup(maps, shift, data);
    if shift & CAPSLOCK != 0 {
      if 97 <= c <= 122 { c := c - 32; } else if 65 <= c <= 90 { c := c + 32; }
    }
  }

  // ---------------------------------------------------------------- histories

  /** The modifier word after a history of bytes, starting from zero. */
  function After(bytes: seq<Byte>): Word {
    if bytes == [] then 0 else Step(After(bytes[..|bytes| - 1]), bytes[|bytes| - 1])
  }

  predicate Escaped(bytes: seq<Byte>) {
    bytes != [] && bytes[|bytes| - 1] == 0xE0
  }

  /** A key of the keyboard: its make code, and whether 0xE0 is sent before it. */
  datatype PhysKey = PhysKey(make: Byte, extended: bool)

  /**
   The last byte is the make code of the key (pressed) or that plus 0x80
   (released), preceded by 0xE0 if it is extended.
   */
  predicate Goes(bytes: seq<Byte>, key: PhysKey, down: bool) {
    && bytes != [] && bytes[|bytes| - 1] == (if down then key.make else key.make + 0x80)
    && Escaped(bytes[..|bytes| - 1]) == key.extended
  }

  /** Whether the latest event on either key was a press; false if there was none. */
  function Latest(bytes: seq<Byte>, k: PhysKey, l: PhysKey): bool {
    if bytes == [] then false
    else if Goes(bytes, k, true) || Goes(bytes, l, true) then true
    else if Goes(bytes, k, false) || Goes(bytes, l, false) then false
    else Latest(bytes[..|bytes| - 1], k, l)
  }

  /** The two shift keys, the two control keys and the two alt keys. */
  function ShiftHeld(bytes: seq<Byte>): bool { Latest(bytes, PhysKey(0x2A, false), PhysKey(0x36, false)) }

  function CtlHeld(bytes: seq<Byte>): bool { Latest(bytes, PhysKey(0x1D, false), PhysKey(0x1D, true)) }

  function AltHeld(bytes: seq<Byte>): bool { Latest(bytes, PhysKey(0x38, false), PhysKey(0x38, true)) }

  /** Number of presses of a key that is not extended. */
  function Presses(bytes: seq<Byte>, code: Byte): nat {
    if bytes == [] then 0
    else Presses(bytes[..|bytes| - 1], code) + if Goes(bytes, PhysKey(code, false), true) then 1 else 0
  }

  /**
   What the last byte of a history stands for, by the keys alone. Releases and
   escapes are silent. A press is looked up under its code, 0x80 higher after an
   escape, in the control map if a control key is down, else in the shifted map if
   a shift key is, else in the normal one; caps lock then exchanges the cases.
   */
  function Decoded(bytes: seq<Byte>, maps: Maps): Key
    requires bytes != []
  {
    var b: Byte := bytes[|bytes| - 1];
    if b >= 0x80 then Silent
    else
      var data: Byte := if Escaped(bytes[..|bytes| - 1]) then b + 0x80 else b;
      Character(Chosen(maps, CtlHeld(bytes), ShiftHeld(bytes), Presses(bytes, 0x3A) % 2 == 1, data))
  }

  /** The control map, the shifted map or the normal one; caps lock exchanges 'a' to 'z' and 'A' to 'Z'. */
  function Chosen(maps: Maps, ctl: bool, shift: bool, caps: bool, data: Byte): Word {
    var c: Word := if ctl then maps.ctl(data) else if shift then maps.shifted(data) else maps.normal(data);
    if caps && 97 <= c <= 122 then c - 32 else if caps && 65 <= c <= 90 then c + 32 else c
  }

  // ---------------------------------------------------------------- one byte

  lemma StepEscape(shift: Word, b: Byte)
    ensures Step(shift, b) & E0ESC != 0 <==> b == 0xE0
  {
  }

  lemma StepModifier(shift: Word, b: Byte, m: Word)
    requires m == SHIFT || m == CTL || m == ALT
    ensures var code := Code(shift & E0ESC != 0, b);
            (Step(shift, b) & m != 0) == if b != 0xE0 && ShiftCode(code) == m then b & 0x80 == 0 else shift & m != 0
  {
    EscapeBit(shift, m);
    if b & 0x80 != 0 { ReleaseClears(shift, Code(shift & E0ESC != 0, b), m); }
    else { PressSets(shift & !E0ESC, Code(true, b), m); PressSets(shift, Code(false, b), m); }
  }

  lemma EscapeBit(shift: Word, m: Word)
    requires m == SHIFT || m == CTL || m == ALT
    ensures (shift & !E0ESC) & m == shift & m && (shift | E0ESC) & m == shift & m
  {
  }

  lemma PressSets(shift: Word, c: Byte, m: Word)
    requires m == SHIFT || m == CTL || m == ALT
    ensures (Pressed(shift, c) & m != 0) == (ShiftCode(c) == m || shift & m != 0)
  {
  }

  lemma ReleaseClears(shift: Word, c: Byte, m: Word)
    requires m == SHIFT || m == CTL || m == ALT
    ensures (Released(shift, c) & m != 0) == (ShiftCode(c) != m && shift & m != 0)
  {
  }

  lemma StepLock(shift: Word, b: Byte, m: Word, code: Byte)
    requires (m == CAPSLOCK && code == 0x3A) || (m == NUMLOCK && code == 0x45) || (m == SCROLLLOCK && code == 0x46)
    ensures var hit := b & 0x80 == 0 && Code(shift & E0ESC != 0, b) == code;
            (Step(shift, b) & m != 0) == ((shift & m != 0) != hit)
  {
    if b & 0x80 != 0 { ReleaseKeepsLocks(shift, Code(shift & E0ESC != 0, b), m); }
    else { PressFlipsLock(shift & !E0ESC, Code(true, b), m, code); PressFlipsLock(shift, Code(false, b), m, code); }
  }

  lemma PressFlipsLock(shift: Word, c: Byte, m: Word, code: Byte)
    requires (m == CAPSLOCK && code == 0x3A) || (m == NUMLOCK && code == 0x45) || (m == SCROLLLOCK && code == 0x46)
    ensures (Pressed(shift, c) & m != 0) == ((shift & m != 0) != (c == code))
  {
  }

  lemma ReleaseKeepsLocks(shift: Word, c: Byte, m: Word)
    requires m == CAPSLOCK || m == NUMLOCK || m == SCROLLLOCK
    ensures Released(shift, c) & m == shift & m
  {
  }

  // ---------------------------------------------------------------- every history

  /** The escape bit is set exactly after an 0xE0. */
  lemma EscapeTracksLastByte(bytes: seq<Byte>)
    ensures After(bytes) & E0ESC != 0 <==> Escaped(bytes)
  {
    if bytes != [] { StepEscape(After(bytes[..|bytes| - 1]), bytes[|bytes| - 1]); }
  }

  /** Which bytes change which modifier. */
  lemma KeysOfShift(escaped: bool, b: Byte)
    ensures b != 0xE0 && ShiftCode(Code(escaped, b)) == SHIFT
            <==> !escaped && (b == 0x2A || b == 0x36 || b == 0xAA || b == 0xB6)
  {
  }

  lemma KeysOfCtl(escaped: bool, b: Byte)
    ensures b != 0xE0 && ShiftCode(Code(escaped, b)) == CTL <==> b == 0x1D || b == 0x9D
  {
  }

  lemma KeysOfAlt(escaped: bool, b: Byte)
    ensures b != 0xE0 && ShiftCode(Code(escaped, b)) == ALT <==> b == 0x38 || b == 0xB8
  {
  }

  /** SHIFT, CTL and ALT are set exactly if the latest event on any of their keys was a press. */
  lemma {:induction false} ModifierTracksKeys(bytes: seq<Byte>)
    ensures After(bytes) & SHIFT != 0 <==> ShiftHeld(bytes)
    ensures After(bytes) & CTL != 0 <==> CtlHeld(bytes)
    ensures After(bytes) & ALT != 0 <==> AltHeld(bytes)
  {
    if bytes != [] {
      var before, b := bytes[..|bytes| - 1], bytes[|bytes| - 1];
      ModifierTracksKeys(before);
      EscapeTracksLastByte(before);
      ShiftStep(bytes, before, b);
      CtlStep(bytes, before, b);
      AltStep(bytes, before, b);
    }
  }

  /** The two shift keys by their bytes. */
  lemma ShiftGoes(bytes: seq<Byte>, before: seq<Byte>, b: Byte)
    requires bytes == before + [b]
    ensures (Goes(bytes, PhysKey(0x2A, false), true) || Goes(bytes, PhysKey(0x36, false), true))
            == (!Escaped(before) && (b == 0x2A || b == 0x36))
    ensures (Goes(bytes, PhysKey(0x2A, false), false) || Goes(bytes, PhysKey(0x36, false), false))
            == (!Escaped(before) && (b == 0xAA || b == 0xB6))
  {
    assert bytes[..|bytes| - 1] == before;
  }

  lemma ShiftStep(bytes: seq<Byte>, before: seq<Byte>, b: Byte)
    requires bytes == before + [b] && (After(before) & E0ESC != 0) == Escaped(before)
    requires (After(before) & SHIFT != 0) == ShiftHeld(before)
    ensures (After(bytes) & SHIFT != 0) == ShiftHeld(bytes)
  {
    assert bytes[..|bytes| - 1] == before;
    ShiftGoes(bytes, before, b);
    StepModifier(After(before), b, SHIFT);
    KeysOfShift(Escaped(before), b);
  }

  lemma CtlStep(bytes: seq<Byte>, before: seq<Byte>, b: Byte)
    requires bytes == before + [b] && (After(before) & E0ESC != 0) == Escaped(before)
    requires (After(before) & CTL != 0) == CtlHeld(before)
    ensures (After(bytes) & CTL != 0) == CtlHeld(bytes)
  {
    assert bytes[..|bytes| - 1] == before;
    StepModifier(After(before), b, CTL);
    KeysOfCtl(Escaped(before), b);
    ReleaseBytes(b);
  }

  lemma AltStep(bytes: seq<Byte>, before: seq<Byte>, b: Byte)
    requires bytes == before + [b] && (After(before) & E0ESC != 0) == Escaped(before)
    requires (After(before) & ALT != 0) == AltHeld(before)
    ensures (After(bytes) & ALT != 0) == AltHeld(bytes)
  {
    assert bytes[..|bytes| - 1] == before;
    StepModifier(After(before), b, ALT);
    KeysOfAlt(Escaped(before), b);
    ReleaseBytes(b);
  }

  lemma ReleaseBytes(b: Byte)
    ensures b & 0x80 != 0 <==> b >= 0x80
  {
  }

  ghost predicate LockIs(bytes: seq<Byte>, m: Word, on: bool) {
    (After(bytes) & m != 0) == on
  }

  lemma LockFlips(bytes: seq<Byte>, m: Word, code: Byte, on: bool)
    requires bytes != [] && LockIs(bytes[..|bytes| - 1], m, on)
    requires (m == CAPSLOCK && code == 0x3A) || (m == NUMLOCK && code == 0x45) || (m == SCROLLLOCK && code == 0x46)
    ensures LockIs(bytes, m, on != Goes(bytes, PhysKey(code, false), true))
  {
    var before, b := bytes[..|bytes| - 1], bytes[|bytes| - 1];
    EscapeTracksLastByte(before);
    StepLock(After(before), b, m, code);
    CodeOfPress(Escaped(before), b, code);
  }

  /** Whether a key was pressed an odd number of times. */
  function Odd(bytes: seq<Byte>, code: Byte): bool {
    if bytes == [] then false
    else Odd(bytes[..|bytes| - 1], code) != Goes(bytes, PhysKey(code, false), true)
  }

  lemma {:induction false} OddIsParity(bytes: seq<Byte>, code: Byte)
    ensures Odd(bytes, code) <==> Presses(bytes, code) % 2 == 1
  {
    if bytes != [] { OddIsParity(bytes[..|bytes| - 1], code); }
  }

  lemma {:induction false} LockTracksOdd(bytes: seq<Byte>, m: Word, code: Byte)
    requires (m == CAPSLOCK && code == 0x3A) || (m == NUMLOCK && code == 0x45) || (m == SCROLLLOCK && code == 0x46)
    ensures LockIs(bytes, m, Odd(bytes, code))
  {
    if bytes != [] {
      LockTracksOdd(bytes[..|bytes| - 1], m, code);
      LockFlips(bytes, m, code, Odd(bytes[..|bytes| - 1], code));
    }
  }

  /** Each lock bit is the parity of the presses of its own make code; an escaped one does not count. */
  lemma LockTracksParity(bytes: seq<Byte>, m: Word, code: Byte)
    requires (m == CAPSLOCK && code == 0x3A) || (m == NUMLOCK && code == 0x45) || (m == SCROLLLOCK && code == 0x46)
    ensures After(bytes) & m != 0 <==> Presses(bytes, code) % 2 == 1
  {
    LockTracksOdd(bytes, m, code);
    OddIsParity(bytes, code);
  }

  lemma CodeOfPress(escaped: bool, b: Byte, code: Byte)
    requires code & 0x80 == 0
    ensures b & 0x80 == 0 && Code(escaped, b) == code <==> b == code && !escaped
  {
  }

  // ---------------------------------------------------------------- what is returned

  lemma AfterAppend(bytes: seq<Byte>, b: Byte)
    ensures After(bytes + [b]) == Step(After(bytes), b)
  {
    assert (bytes + [b])[..|bytes|] == bytes;
  }

  /** The code of a press. */
  lemma CodeOfMake(escaped: bool, b: Byte)
    requires b < 0x80
    ensures Code(escaped, b) == if escaped then b + 0x80 else b
  {
  }

  /** The row of the character maps that two bits of the word select. */
  lemma LookupByBits(maps: Maps, shift: Word, data: Byte)
    ensures Lookup(maps, shift, data) ==
              if shift & CTL != 0 then maps.ctl(data) else if shift & SHIFT != 0 then maps.shifted(data)
                else maps.normal(data)
  {
    RowOfBits(shift);
  }

  lemma RowOfBits(shift: Word)
    ensures shift & (CTL | SHIFT) == 0 <==> shift & CTL == 0 && shift & SHIFT == 0
    ensures shift & (CTL | SHIFT) == 1 <==> shift & CTL == 0 && shift & SHIFT != 0
  {
  }

  /** The result of the code is the one the keys call for. */
  lemma {:induction false} DecodesAs(before: seq<Byte>, b: Byte, maps: Maps, r: Key, shift: Word)
    requires shift == After(before + [b]) && (b & 0x80 != 0 ==> r == Silent)
    requires b & 0x80 == 0 ==> r == Character(ByWord(maps, shift, Code(After(before) & E0ESC != 0, b)))
    ensures r == Decoded(before + [b], maps)
  {
    ReleaseBytes(b);
    LastOf(before, b);
    if b < 0x80 {
      EscapeTracksLastByte(before);
      CodeOfMake(Escaped(before), b);
      FlagsByKeys(maps, before + [b], Code(Escaped(before), b));
    }
  }

  lemma LastOf(before: seq<Byte>, b: Byte)
    ensures (before + [b])[..|before + [b]| - 1] == before && (before + [b])[|before + [b]| - 1] == b
  {
  }

  lemma {:induction false} FlagsByKeys(maps: Maps, bytes: seq<Byte>, data: Byte)
    ensures ByWord(maps, After(bytes), data)
            == Chosen(maps, CtlHeld(bytes), ShiftHeld(bytes), Presses(bytes, 0x3A) % 2 == 1, data)
  {
    ModifierTracksKeys(bytes);
    LockTracksParity(bytes, CAPSLOCK, 0x3A);
  }

  // ---------------------------------------------------------------- seven bits

  /** No bit beyond the seven flags. */
  predicate OnlyFlags(w: Word) { w & !0x7F == 0 }

  lemma StepFlags(shift: Word, b: Byte)
    requires OnlyFlags(shift)
    ensures OnlyFlags(Step(shift, b))
  {
    if b == 0xE0 || b & 0x80 != 0 { ReleaseFlags(shift, Code(shift & E0ESC != 0, b)); }
    else { PressFlags(shift & !E0ESC, Code(true, b)); PressFlags(shift, Code(false, b)); }
  }

  lemma PressFlags(shift: Word, c: Byte)
    requires OnlyFlags(shift)
    ensures OnlyFlags(Pressed(shift, c))
  {
  }

  lemma ReleaseFlags(shift: Word, c: Byte)
    requires OnlyFlags(shift)
    ensures OnlyFlags(Released(shift, c)) && OnlyFlags(shift | E0ESC)
  {
  }

  lemma FlagsBound(w: Word)
    requires OnlyFlags(w)
    ensures w < 128
  {
  }

  /** The static word never holds more than its seven flags. */
  lemma {:induction false} SevenFlags(bytes: seq<Byte>)
    ensures OnlyFlags(After(bytes)) && After(bytes) < 128
  {
    if bytes != [] {
      SevenFlags(bytes[..|bytes| - 1]);
      StepFlags(After(bytes[..|bytes| - 1]), bytes[|bytes| - 1]);
    }
    FlagsBound(After(bytes));
  }
}
