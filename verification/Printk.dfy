/**
 Number formatting and the format interpreter (printk.c).
 */
module Printk {
  import opened Common
  import opened Terminal

  // ---------------------------------------------------------------- numerals

  /** '0' .. '9', 'a' .. 'f' */
  const DIGITS: seq<Char> := [48, 49, 50, 51, 52, 53, 54, 55, 56, 57, 97, 98, 99, 100, 101, 102]

  function Digit(d: nat): Char
    requires d < 16
  {
    DIGITS[d]
  }

  /** The numeral of `a`, most significant digit first. */
  function Numeral(a: nat, base: nat): (s: seq<Char>)
    requires 2 <= base <= 16
    ensures |s| >= 1
  {
    if a < base then [Digit(a)] else Numeral(a / base, base) + [Digit(a % base)]
  }

  function DigitValue(c: Char): nat {
    if c == 48 then 0 else if c == 49 then 1 else if c == 50 then 2 else if c == 51 then 3
    else if c == 52 then 4 else if c == 53 then 5 else if c == 54 then 6 else if c == 55 then 7
    else if c == 56 then 8 else if c == 57 then 9 else if c == 97 then 10 else if c == 98 then 11
    else if c == 99 then 12 else if c == 100 then 13 else if c == 101 then 14 else if c == 102 then 15 else 16
  }

  /** Reading a numeral back. */
  function Parse(s: seq<Char>, base: nat): nat {
    if s == [] then 0 else Parse(s[..|s| - 1], base) * base + DigitValue(s[|s| - 1])
  }

  lemma DigitRoundTrip(d: nat)
    requires d < 16
    ensures DigitValue(Digit(d)) == d
  {
  }

  /** Every character is a digit of the base. */
  predicate DigitsOf(s: seq<Char>, base: nat) {
    forall i | 0 <= i < |s| :: DigitValue(s[i]) < base
  }

  /** A numeral consists of digits of its base and reads back as its number. */
  lemma {:induction false} NumeralRoundTrip(a: nat, base: nat)
    requires 2 <= base <= 16
    ensures Parse(Numeral(a, base), base) == a && DigitsOf(Numeral(a, base), base)
    decreases a
  {
    if a < base {
      DigitRoundTrip(a);
      assert Numeral(a, base)[..0] == [];
    } else {
      DivSmaller(a, base);
      NumeralRoundTrip(a / base, base);
      ParseDigit(a, a / base, a % base, base, Numeral(a / base, base));
      DigitRoundTrip(a % base);
    }
  }

  lemma ParseDigit(a: nat, q: nat, d: nat, base: nat, s: seq<Char>)
    requires d < 16 && a == q * base + d && Parse(s, base) == q
    ensures Parse(s + [Digit(d)], base) == a
  {
    DigitRoundTrip(d);
    ParseAppend(s, Digit(d), base);
  }

  /** A positive number has no leading zero, and no numeral starts with a minus sign. */
  lemma {:induction false} NoLeadingZero(a: nat, base: nat)
    requires 2 <= base <= 16
    ensures a > 0 ==> Numeral(a, base)[0] != 48
    ensures Numeral(a, base)[0] != MINUS
    decreases a
  {
    if a >= base {
      DivSmaller(a, base);
      NoLeadingZero(a / base, base);
    } else {
      FirstDigit(a);
    }
  }

  lemma FirstDigit(d: nat)
    requires d < 16
    ensures (d > 0 ==> Digit(d) != 48) && Digit(d) != MINUS
  {
    DigitRoundTrip(d);
  }

  lemma ParseAppend(q: seq<Char>, d: Char, base: nat)
    ensures Parse(q + [d], base) == Parse(q, base) * base + DigitValue(d)
  {
    assert (q + [d])[..|q|] == q;
  }

  lemma DivSmaller(a: nat, base: nat)
    requires 2 <= base <= a
    ensures 0 < a / base < a && a == a / base * base + a % base
  {
  }

  function Power(base: nat, k: nat): nat {
    if k == 0 then 1 else base * Power(base, k - 1)
  }

  lemma {:induction false} NumeralLength(a: nat, base: nat, k: nat)
    requires 2 <= base <= 16 && k >= 1 && a < Power(base, k)
    ensures |Numeral(a, base)| <= k
  {
    if a >= base {
      DivSmaller(a, base);
      FirstPower(base);
      assert k > 1;
      DivBound(a, base, Power(base, k - 1));
      NumeralLength(a / base, base, k - 1);
    }
  }

  lemma FirstPower(base: nat)
    ensures Power(base, 1) == base
  {
    assert Power(base, 0) == 1;
  }

  lemma DivBound(a: nat, base: nat, p: nat)
    requires base >= 2 && a < base * p
    ensures a / base < p
  {
    if a / base >= p { MulMonotone(p, a / base, base); }
  }

  /** Every 32-bit number fits: ten decimal or eight hexadecimal digits. */
  lemma WordLength(a: nat)
    requires a < 0x1_0000_0000
    ensures |Numeral(a, 10)| <= 10 && |Numeral(a, 16)| <= 8
  {
    PowersOfTen();
    NumeralLength(a, 10, 10);
    PowersOfSixteen();
    NumeralLength(a, 16, 8);
  }

  lemma PowersOfTen()
    ensures Power(10, 10) == 10_000_000_000
  {
    assert Power(10, 5) == 100_000;
    assert Power(10, 7) == 10_000_000;
  }

  lemma PowersOfSixteen()
    ensures Power(16, 8) == 0x1_0000_0000
  {
    assert Power(16, 4) == 0x1_0000;
    assert Power(16, 6) == 0x100_0000;
  }

  // ---------------------------------------------------------------- bprintu32

  /** The digits the first loop produces: least significant first, none for 0. */
  function Backwards(a: nat, base: nat): seq<Char>
    requires 2 <= base <= 16
  {
    if a == 0 then [] else [Digit(a % base)] + Backwards(a / base, base)
  }

  function Reverse(s: seq<Char>): (r: seq<Char>)
    ensures |r| == |s| && forall i | 0 <= i < |s| :: r[i] == s[|s| - 1 - i]
  {
    if s == [] then [] else Reverse(s[1..]) + [s[0]]
  }

  lemma ReverseIs(r: seq<Char>, s: seq<Char>)
    requires |r| == |s| && forall i | 0 <= i < |s| :: r[i] == s[|s| - 1 - i]
    ensures r == Reverse(s)
  {
  }

  lemma {:induction false} BackwardsReversed(a: nat, base: nat)
    requires 2 <= base <= 16 && a > 0
    ensures Reverse(Backwards(a, base)) == Numeral(a, base)
    decreases a
  {
    var b := Backwards(a, base);
    assert b[1..] == Backwards(a / base, base);
    if a < base {
      assert a / base == 0 && a % base == a;
    } else {
      DivSmaller(a, base);
      BackwardsReversed(a / base, base);
    }
  }

  /** The second loop of `bprintu32`: reversal in place by XOR. */
  method ReverseInPlace(buf: array<Char>, off: nat, n: nat)
    requires off + n <= buf.Length
    modifies buf
    ensures buf[off..off + n] == Reverse(old(buf[off..off + n]))
    ensures forall x | 0 <= x < buf.Length && !(off <= x < off + n) :: buf[x] == old(buf[x])
  {
    ghost var top := 2 * off + n - 1;
    for i := 0 to n / 2
      invariant forall x | off <= x < off + i || off + n - i <= x < off + n :: buf[x] == old(buf[top - x])
      invariant forall x | off + i <= x < off + n - i :: buf[x] == old(buf[x])
      invariant forall x | 0 <= x < buf.Length && !(off <= x < off + n) :: buf[x] == old(buf[x])
    {
      SwapXor(buf, off + i, off + n - i - 1);
    }
    forall x | off <= x < off + n ensures buf[x] == old(buf[top - x]) {
      if off + n / 2 <= x < off + n - n / 2 { assert top - x == x; }
    }
    ghost var r, w := buf[off..off + n], old(buf[off..off + n]);
    forall i | 0 <= i < n ensures r[i] == w[n - 1 - i] { assert r[i] == buf[off + i] == old(buf[top - (off + i)]); }
    ReverseIs(r, w);
  }

  function Xor(a: Char, b: Char): Char { a ^ b }

  lemma XorSwaps(a: Char, b: Char)
    ensures Xor(b, Xor(a, b)) == a && Xor(Xor(a, b), a) == b
  {
  }

  method SwapXor(buf: array<Char>, i: nat, j: nat)
    requires i < j < buf.Length
    modifies buf
    ensures buf[i] == old(buf[j]) && buf[j] == old(buf[i])
    ensures forall k | 0 <= k < buf.Length && k != i && k != j :: buf[k] == old(buf[k])
  {
    ghost var a, b := buf[i], buf[j];
    XorInto(buf, i, j, a, b);
    XorInto(buf, j, i, b, Xor(a, b));
    XorSwaps(a, b);
    XorInto(buf, i, j, Xor(a, b), a);
  }

  method XorInto(buf: array<Char>, i: nat, j: nat, ghost a: Char, ghost b: Char)
    requires i < buf.Length && j < buf.Length && i != j && buf[i] == a && buf[j] == b
    modifies buf
    ensures buf[i] == Xor(a, b)
    ensures forall k | 0 <= k < buf.Length && k != i :: buf[k] == old(buf[k])
  {
    buf[i] := buf[i] ^ buf[j];
  }

  /** `bprintu32`, writing from index `off` on */
  method PrintU32(buf: array<Char>, off: nat, a: nat, base: nat) returns (size: nat)
    requires 2 <= base <= 16 && off + |Numeral(a, base)| <= buf.Length
    modifies buf
    ensures size == |Numeral(a, base)| && buf[off..off + size] == Numeral(a, base)
    ensures forall i | 0 <= i < buf.Length && !(off <= i < off + size) :: buf[i] == old(buf[i])
  {
    if a == 0 {
      buf[off] := 48;
      return 1;
    }
    BackwardsReversed(a, base);
    size := PrintBackwards(buf, off, a, base, Backwards(a, base));
    ReverseInPlace(buf, off, size);
  }

  lemma BackwardsStep(done: seq<Char>, rest: nat, base: nat, all: seq<Char>)
    requires 2 <= base <= 16 && rest > 0 && done + Backwards(rest, base) == all
    ensures |done| < |all| && done + [Digit(rest % base)] + Backwards(rest / base, base) == all
  {
    Reassociate(done, [Digit(rest % base)], Backwards(rest / base, base));
  }

  lemma Reassociate(a: seq<Char>, b: seq<Char>, c: seq<Char>)
    ensures a + (b + c) == a + b + c
  {
  }

  lemma DivDecreases(a: nat, base: nat)
    requires 2 <= base && a > 0
    ensures 0 <= a / base < a && 0 <= a % base < base
  {
  }

  /** The first loop of `bprintu32`. */
  method PrintBackwards(buf: array<Char>, off: nat, a: nat, base: nat, ghost all: seq<Char>) returns (bytes: nat)
    requires 2 <= base <= 16 && all == Backwards(a, base) && off + |all| <= buf.Length
    modifies buf
    ensures bytes == |all| && buf[off..off + bytes] == all
    ensures forall x | 0 <= x < buf.Length && !(off <= x < off + bytes) :: buf[x] == old(buf[x])
  {
    var rest: nat := a;
    bytes := 0;
    assert [] + Backwards(rest, base) == all;
    while rest > 0
      invariant bytes <= |all|
      invariant buf[off..off + bytes] + Backwards(rest, base) == all
      invariant forall x | 0 <= x < buf.Length && !(off <= x < off + bytes) :: buf[x] == old(buf[x])
      decreases rest
    {
      BackwardsStep(buf[off..off + bytes], rest, base, all);
      DivDecreases(rest, base);
      var d;
      d, rest := rest % base, rest / base;
      bytes := AppendDigit(buf, off, bytes, d);
    }
    assert buf[off..off + bytes] + [] == all;
  }

  method AppendDigit(buf: array<Char>, off: nat, bytes: nat, d: nat) returns (bytes': nat)
    requires off + bytes < buf.Length && d < 16
    modifies buf
    ensures bytes' == bytes + 1 && buf[off..off + bytes'] == old(buf[off..off + bytes]) + [Digit(d)]
    ensures forall x | 0 <= x < buf.Length && x != off + bytes :: buf[x] == old(buf[x])
  {
    buf[off + bytes] := Digit(d);
    bytes' := bytes + 1;
  }

  // ---------------------------------------------------------------- signed numbers and pointers

  const MINUS: Char := 45

  /** A minus sign and the numeral of the magnitude; INT_MIN has magnitude 2^31. */
  function Signed(a: int, base: nat): seq<Char>
    requires 2 <= base <= 16
  {
    if a < 0 then [MINUS] + Numeral(-a, base) else Numeral(a, base)
  }

  /** A signed numeral determines its number, sign included. */
  lemma {:induction false} SignedRoundTrip(a: int, base: nat)
    requires 2 <= base <= 16
    ensures a < 0 <==> Signed(a, base)[0] == MINUS
    ensures a == if a < 0 then 0 - Parse(Signed(a, base)[1..], base) else Parse(Signed(a, base), base)
  {
    var m: nat := if a < 0 then -a else a;
    NumeralRoundTrip(m, base);
    NoLeadingZero(m, base);
    AfterSign(Numeral(m, base));
  }

  lemma AfterSign(s: seq<Char>)
    ensures ([MINUS] + s)[1..] == s
  {
  }

  const NIL: seq<Char> := [40, 110, 105, 108, 41]      // "(nil)"
  const HEX_PREFIX: seq<Char> := [48, 120]             // "0x"

  /** `%p` */
  function Pointer(a: nat): seq<Char> {
    if a == 0 then NIL else HEX_PREFIX + Numeral(a, 16)
  }

  const PRINTK_BUF_SIZE: nat := 11

  /** Every rendering of a 32-bit value fits the buffer of `vprintk`, and `%d` fills it for the least numbers. */
  lemma RenderingsFit(v: nat)
    requires v < 0x1_0000_0000
    ensures |Numeral(v, 10)| <= PRINTK_BUF_SIZE && |Numeral(v, 16)| <= PRINTK_BUF_SIZE
    ensures |Signed(AsInt32(v), 10)| <= PRINTK_BUF_SIZE && |Pointer(v)| <= PRINTK_BUF_SIZE
  {
    WordLength(v);
    if AsInt32(v) < 0 { WordLength(-AsInt32(v)); }
  }

  /** The two's-complement reading of 32 bits. */
  function AsInt32(v: nat): int {
    if v < 0x8000_0000 then v else v - 0x1_0000_0000
  }

  /** 32-bit negation of a negative number: 2^32 minus its unsigned reading. */
  function Negated(a: int): (r: nat)
    requires -0x8000_0000 <= a < 0
    ensures r == -a
  {
    0x1_0000_0000 - (0x1_0000_0000 + a)
  }

  lemma JoinFirst(s: seq<Char>, c: Char, t: seq<Char>)
    requires |s| == 1 + |t| && s[0] == c && s[1..] == t
    ensures s == [c] + t
  {
  }

  /** `bprints32`; the negation wraps, so INT_MIN becomes 2^31 */
  method PrintS32(buf: array<Char>, a: int, base: nat) returns (size: nat)
    requires 2 <= base <= 16 && -0x8000_0000 <= a < 0x8000_0000 && |Signed(a, base)| <= buf.Length
    modifies buf
    ensures size == |Signed(a, base)| && buf[..size] == Signed(a, base)
  {
    ghost var m := if a < 0 then Negated(a) else a;
    assert Signed(a, base) == (if a < 0 then [MINUS] else []) + Numeral(m, base);
    if a < 0 {
      size := PrintAfterSign(buf, Negated(a), base);
    } else {
      size := PrintFromStart(buf, a, base);
    }
  }

  method PrintFromStart(buf: array<Char>, magnitude: nat, base: nat) returns (size: nat)
    requires 2 <= base <= 16 && |Numeral(magnitude, base)| <= buf.Length
    modifies buf
    ensures size == |Numeral(magnitude, base)| && buf[..size] == Numeral(magnitude, base)
  {
    size := PrintU32(buf, 0, magnitude, base);
    assert buf[..size] == buf[0..0 + size];
  }

  method PrintAfterSign(buf: array<Char>, magnitude: nat, base: nat) returns (size: nat)
    requires 2 <= base <= 16 && 1 + |Numeral(magnitude, base)| <= buf.Length
    modifies buf
    ensures size == 1 + |Numeral(magnitude, base)| && buf[..size] == [MINUS] + Numeral(magnitude, base)
  {
    buf[0] := MINUS;
    var n := PrintU32(buf, 1, magnitude, base);
    size := 1 + n;
    JoinFirst(buf[..size], MINUS, Numeral(magnitude, base));
  }

  /** `bprintstr` */
  method PrintStr(buf: array<Char>, str: seq<Char>) returns (length: nat)
    requires |str| <= buf.Length
    modifies buf
    ensures length == |str| && buf[..length] == str
    ensures forall x | length <= x < buf.Length :: buf[x] == old(buf[x])
  {
    length := 0;
    while length < |str|
      invariant length <= |str| && buf[..length] == str[..length]
      invariant forall x | length <= x < buf.Length :: buf[x] == old(buf[x])
    {
      buf[length] := str[length];
      length := length + 1;
    }
  }

  /** `bprintptr` */
  method PrintPtr(buf: array<Char>, a: nat) returns (size: nat)
    requires a < 0x1_0000_0000 && |Pointer(a)| <= buf.Length
    modifies buf
    ensures size == |Pointer(a)| && buf[..size] == Pointer(a)
  {
    if a == 0 {
      size := PrintStr(buf, NIL);
    } else {
      var bytes := PrintStr(buf, HEX_PREFIX);
      ghost var prefix := buf[..2];
      var n := PrintU32(buf, bytes, a, 16);
      size := bytes + n;
      assert buf[..2] == prefix;
      assert buf[..size] == buf[..2] + buf[2..size];
    }
  }

  // ---------------------------------------------------------------- vprintk

  /** A variable argument: 32 bits, or a pointer to a string. */
  datatype Arg = Num(v: nat) | Str(s: seq<Char>)

  const PERCENT: Char := 37
  const U: Char := 117
  const X: Char := 120
  const D: Char := 100
  const P: Char := 112
  const S: Char := 115

  predicate IsSpec(c: Char) { c == U || c == X || c == D || c == P || c == S }

  /** The argument has the type its specifier reads. */
  predicate Fitting(c: Char, arg: Arg) {
    if c == S then arg.Str? else arg.Num? && arg.v < 0x1_0000_0000
  }

  /** What one specifier prints. */
  function RenderArg(c: Char, arg: Arg): seq<Char>
    requires IsSpec(c) && Fitting(c, arg)
  {
    if c == U then Numeral(arg.v, 10)
    else if c == X then Numeral(arg.v, 16)
    else if c == D then Signed(AsInt32(arg.v), 10)
    else if c == P then Pointer(arg.v)
    else arg.s
  }

  /** The arguments suit the format: enough of them, each of the right type. */
  predicate ArgsMatch(fmt: seq<Char>, args: seq<Arg>) {
    if fmt == [] then true
    else if fmt[0] != PERCENT then ArgsMatch(fmt[1..], args)
    else if |fmt| == 1 then true
    else if IsSpec(fmt[1]) then args != [] && Fitting(fmt[1], args[0]) && ArgsMatch(fmt[2..], args[1..])
    else ArgsMatch(fmt[2..], args)
  }

  /**
   The text of a format: a percent sign takes the next character as a specifier;
   an unknown or missing one prints nothing.
   */
  function Render(fmt: seq<Char>, args: seq<Arg>): seq<Char>
    requires ArgsMatch(fmt, args)
  {
    if fmt == [] then []
    else if fmt[0] != PERCENT then [fmt[0]] + Render(fmt[1..], args)
    else if |fmt| == 1 then []
    else if IsSpec(fmt[1]) then RenderArg(fmt[1], args[0]) + Render(fmt[2..], args[1..])
    else Render(fmt[2..], args)
  }

  /** Number of arguments a format takes. */
  function Specs(fmt: seq<Char>): nat {
    if |fmt| < 2 then 0
    else if fmt[0] != PERCENT then Specs(fmt[1..])
    else (if IsSpec(fmt[1]) then 1 else 0) + Specs(fmt[2..])
  }

  const COLOR: bv8 := 7

  // ---------------------------------------------------------------- what a format means

  /** `text` is the canonical numeral of `v`: digits of the base, no leading zero, and it reads back as `v`. */
  predicate IsNumeral(text: seq<Char>, v: nat, base: nat) {
    text != [] && DigitsOf(text, base) && Parse(text, base) == v && (text[0] == 48 ==> v == 0 && |text| == 1)
  }

  /** What a specifier stands for, said by the characters themselves. */
  predicate Means(c: Char, arg: Arg, text: seq<Char>) {
    if c == 117 then arg.Num? && IsNumeral(text, arg.v, 10)                                   // %u
    else if c == 120 then arg.Num? && IsNumeral(text, arg.v, 16)                              // %x
    else if c == 100 then arg.Num? && IsSigned(text, arg.v)                                   // %d
    else if c == 112 then arg.Num? && IsPointer(text, arg.v)                                  // %p
    else if c == 115 then arg.Str? && text == arg.s                                           // %s
    else false
  }

  /** The decimal numeral of 32 bits read in two's complement, after a minus sign if the highest bit is set. */
  predicate IsSigned(text: seq<Char>, v: nat) {
    if v < 0x8000_0000 then IsNumeral(text, v, 10)
    else text != [] && text[0] == 45 && v <= 0x1_0000_0000 && IsNumeral(text[1..], 0x1_0000_0000 - v, 10)
  }

  /** "(nil)" for NULL, otherwise "0x" and a hexadecimal numeral. */
  predicate IsPointer(text: seq<Char>, v: nat) {
    if v == 0 then text == [40, 110, 105, 108, 41]
    else |text| > 2 && text[0] == 48 && text[1] == 120 && IsNumeral(text[2..], v, 16)
  }

  lemma NumeralIs(v: nat, base: nat)
    requires 2 <= base <= 16
    ensures IsNumeral(Numeral(v, base), v, base)
  {
    NumeralRoundTrip(v, base);
    NoLeadingZero(v, base);
  }

  /** A format of one known specifier prints what the specifier stands for, and takes its argument. */
  lemma {:induction false} OneSpecifier(c: Char, arg: Arg)
    requires (c == 115 && arg.Str?) || (c in {117, 120, 100, 112} && arg.Num? && arg.v < 0x1_0000_0000)
    ensures ArgsMatch([37, c], [arg]) && Means(c, arg, Render([37, c], [arg])) && Specs([37, c]) == 1
  {
    SpecifierText(c, arg);
    assert [37, c][2..] == [] && [arg][1..] == [] && [37, c][1] == c;
    var text := RenderArg(c, arg);
    assert text + [] == text;
    SpecifierMeans(c, arg);
  }

  lemma SpecifierText(c: Char, arg: Arg)
    requires (c == 115 && arg.Str?) || (c in {117, 120, 100, 112} && arg.Num? && arg.v < 0x1_0000_0000)
    ensures IsSpec(c) && Fitting(c, arg)
  {
  }

  lemma SpecifierMeans(c: Char, arg: Arg)
    requires IsSpec(c) && Fitting(c, arg)
    ensures Means(c, arg, RenderArg(c, arg))
  {
    if arg.Num? {
      NumeralIs(arg.v, 10);
      NumeralIs(arg.v, 16);
      SignedIs(arg.v);
      PointerIs(arg.v);
    }
  }

  lemma SignedIs(v: nat)
    requires v < 0x1_0000_0000
    ensures IsSigned(Signed(AsInt32(v), 10), v)
  {
    var m := if v < 0x8000_0000 then v else 0x1_0000_0000 - v;
    NumeralIs(m, 10);
    AfterSign(Numeral(m, 10));
  }

  lemma PointerIs(v: nat)
    requires v < 0x1_0000_0000
    ensures IsPointer(Pointer(v), v)
  {
    NumeralIs(v, 16);
    assert (HEX_PREFIX + Numeral(v, 16))[2..] == Numeral(v, 16);
  }

  /** A percent sign before any other character, or at the end of the format, prints nothing and takes nothing. */
  lemma {:induction false} UnknownSpecifier(c: Char, args: seq<Arg>)
    requires c !in {117, 120, 100, 112, 115}
    ensures ArgsMatch([37, c], args) && Render([37, c], args) == [] && Specs([37, c]) == 0
    ensures ArgsMatch([37], args) && Render([37], args) == [] && Specs([37]) == 0
  {
    assert [37, c][2..] == [] && [37, c][1] == c;
  }

  /** A format that does not end inside a specifier: every percent sign is followed by its character. */
  predicate Complete(fmt: seq<Char>) {
    if fmt == [] then true else if fmt[0] != 37 then Complete(fmt[1..]) else |fmt| > 1 && Complete(fmt[2..])
  }

  lemma {:induction false} PlainHead(c: Char, rest: seq<Char>, args: seq<Arg>)
    requires c != 37
    ensures ArgsMatch([c] + rest, args) == ArgsMatch(rest, args) && Specs([c] + rest) == Specs(rest)
    ensures ArgsMatch(rest, args) ==> Render([c] + rest, args) == [c] + Render(rest, args)
  {
    assert ([c] + rest)[1..] == rest;
  }

  lemma {:induction false} SpecHead(c: Char, rest: seq<Char>, arg: Arg, args: seq<Arg>)
    requires IsSpec(c) && Fitting(c, arg)
    ensures ArgsMatch([37, c] + rest, [arg] + args) == ArgsMatch(rest, args) && Specs([37, c] + rest) == 1 + Specs(rest)
    ensures ArgsMatch(rest, args) ==> Render([37, c] + rest, [arg] + args) == RenderArg(c, arg) + Render(rest, args)
  {
    assert ([37, c] + rest)[2..] == rest && ([arg] + args)[1..] == args;
  }

  lemma {:induction false} UnknownHead(c: Char, rest: seq<Char>, args: seq<Arg>)
    requires !IsSpec(c)
    ensures ArgsMatch([37, c] + rest, args) == ArgsMatch(rest, args) && Specs([37, c] + rest) == Specs(rest)
    ensures ArgsMatch(rest, args) ==> Render([37, c] + rest, args) == Render(rest, args)
  {
    assert ([37, c] + rest)[2..] == rest;
  }

  /** Two formats one after the other print one text after the other. */
  ghost predicate Joins(f: seq<Char>, g: seq<Char>, a: seq<Arg>, b: seq<Arg>) {
    && ArgsMatch(f, a) && ArgsMatch(g, b) && ArgsMatch(f + g, a + b)
    && Render(f + g, a + b) == Render(f, a) + Render(g, b) && Specs(f + g) == Specs(f) + Specs(g)
  }

  /** What is printed in front of both `f` and `f + g` is printed in front of the join. */
  lemma {:induction false} JoinsBehind(out: seq<Char>, h: seq<Char>, f: seq<Char>, g: seq<Char>,
                                       ha: seq<Arg>, a: seq<Arg>, b: seq<Arg>)
    requires Joins(f, g, a, b) && ArgsMatch(h, ha) && ArgsMatch(h + g, ha + b)
    requires Render(h, ha) == out + Render(f, a) && Render(h + g, ha + b) == out + Render(f + g, a + b)
    requires Specs(h + g) - Specs(h) == Specs(f + g) - Specs(f)
    ensures Joins(h, g, ha, b)
  {
    Reassociate(out, Render(f, a), Render(g, b));
  }

  lemma {:induction false} PlainJoins(c: Char, f: seq<Char>, g: seq<Char>, a: seq<Arg>, b: seq<Arg>)
    requires c != 37 && Joins(f, g, a, b)
    ensures Joins([c] + f, g, a, b)
  {
    PlainHead(c, f, a);
    PlainHead(c, f + g, a + b);
    assert [c] + f + g == [c] + (f + g);
    JoinsBehind([c], [c] + f, f, g, a, a, b);
  }

  lemma {:induction false} SpecJoins(c: Char, f: seq<Char>, g: seq<Char>, arg: Arg, a: seq<Arg>, b: seq<Arg>)
    requires IsSpec(c) && Fitting(c, arg) && Joins(f, g, a, b)
    ensures Joins([37, c] + f, g, [arg] + a, b)
  {
    SpecBoth(c, f, g, [37, c] + f, arg, a, b, [arg] + a, RenderArg(c, arg));
    JoinsBehind(RenderArg(c, arg), [37, c] + f, f, g, [arg] + a, a, b);
  }

  lemma {:induction false} SpecBoth(c: Char, f: seq<Char>, g: seq<Char>, h: seq<Char>, arg: Arg,
                                    a: seq<Arg>, b: seq<Arg>, ha: seq<Arg>, out: seq<Char>)
    requires IsSpec(c) && Fitting(c, arg) && h == [37, c] + f && ha == [arg] + a && out == RenderArg(c, arg)
    requires ArgsMatch(f, a) && ArgsMatch(f + g, a + b)
    ensures ArgsMatch(h, ha) && Render(h, ha) == out + Render(f, a) && Specs(h) == 1 + Specs(f)
    ensures ArgsMatch(h + g, ha + b) && Render(h + g, ha + b) == out + Render(f + g, a + b)
    ensures Specs(h + g) == 1 + Specs(f + g)
  {
    SpecHead(c, f, arg, a);
    SpecHead(c, f + g, arg, a + b);
    assert h + g == [37, c] + (f + g) && ha + b == [arg] + (a + b);
  }

  lemma {:induction false} UnknownJoins(c: Char, f: seq<Char>, g: seq<Char>, a: seq<Arg>, b: seq<Arg>)
    requires !IsSpec(c) && Joins(f, g, a, b)
    ensures Joins([37, c] + f, g, a, b)
  {
    UnknownHead(c, f, a);
    UnknownHead(c, f + g, a + b);
    assert [37, c] + f + g == [37, c] + (f + g);
  }

  /** Formats are rendered piece by piece, each with the arguments it takes. */
  lemma {:induction false} RenderConcat(f: seq<Char>, g: seq<Char>, a: seq<Arg>, b: seq<Arg>)
    requires Complete(f) && ArgsMatch(f, a) && |a| == Specs(f) && ArgsMatch(g, b)
    ensures Joins(f, g, a, b)
    decreases |f|
  {
    if f == [] {
      assert f + g == g && a + b == b && [] + Render(g, b) == Render(g, b);
    } else if f[0] != 37 {
      assert f == [f[0]] + f[1..];
      PlainHead(f[0], f[1..], a);
      RenderConcat(f[1..], g, a, b);
      PlainJoins(f[0], f[1..], g, a, b);
    } else if IsSpec(f[1]) {
      assert f == [37, f[1]] + f[2..] && a == [a[0]] + a[1..];
      SpecHead(f[1], f[2..], a[0], a[1..]);
      RenderConcat(f[2..], g, a[1..], b);
      SpecJoins(f[1], f[2..], g, a[0], a[1..], b);
    } else {
      assert f == [37, f[1]] + f[2..];
      UnknownHead(f[1], f[2..], a);
      RenderConcat(f[2..], g, a, b);
      UnknownJoins(f[1], f[2..], g, a, b);
    }
  }

  /** A format without percent signs is printed as it is. */
  lemma {:induction false} PlainFormat(f: seq<Char>)
    requires 37 !in f
    ensures Complete(f) && ArgsMatch(f, []) && Render(f, []) == f && Specs(f) == 0
  {
    if f != [] {
      PlainFormat(f[1..]);
      assert f == [f[0]] + f[1..];
    }
  }

  /** The rendering of one specifier goes to the console. */
  method PrintSpec(con: Console, buf: array<Char>, c: Char, arg: Arg)
    requires con.Valid() && buf != con.buffer as object && buf.Length == PRINTK_BUF_SIZE && IsSpec(c) && Fitting(c, arg)
    modifies con, con.buffer, buf
    ensures con.Valid() && con.View() == Write(old(con.View()), RenderArg(c, arg), COLOR)
  {
    if c == S {
      con.WriteChars(arg.s, COLOR);
      return;
    }
    RenderingsFit(arg.v);
    var size;
    if c == U { size := PrintU32(buf, 0, arg.v, 10); }
    else if c == X { size := PrintU32(buf, 0, arg.v, 16); }
    else if c == D { size := PrintS32(buf, AsInt32(arg.v), 10); }
    else { size := PrintPtr(buf, arg.v); }
    if size > 0 { con.WriteChars(buf[..size], COLOR); }
  }

  /** After `text` was written and `taken` arguments were used, the format is rendered up to index `at`. */
  ghost predicate Rendered(fmt: seq<Char>, args: seq<Arg>, at: nat, taken: nat, text: seq<Char>)
    requires ArgsMatch(fmt, args)
  {
    && at <= |fmt| && taken <= |args| && ArgsMatch(fmt[at..], args[taken..])
    && Specs(fmt) == taken + Specs(fmt[at..])
    && text + Render(fmt[at..], args[taken..]) == Render(fmt, args)
  }

  lemma PlainStep(fmt: seq<Char>, args: seq<Arg>, at: nat, taken: nat, text: seq<Char>)
    requires ArgsMatch(fmt, args) && Rendered(fmt, args, at, taken, text) && at < |fmt| && fmt[at] != PERCENT
    ensures Rendered(fmt, args, at + 1, taken, text + [fmt[at]])
  {
    var rest := fmt[at..];
    assert rest[1..] == fmt[at + 1..];
    assert text + ([fmt[at]] + Render(fmt[at + 1..], args[taken..]))
           == text + [fmt[at]] + Render(fmt[at + 1..], args[taken..]);
  }

  lemma UnknownStep(fmt: seq<Char>, args: seq<Arg>, at: nat, taken: nat, text: seq<Char>)
    requires ArgsMatch(fmt, args) && Rendered(fmt, args, at, taken, text)
    requires at + 1 < |fmt| && fmt[at] == PERCENT && !IsSpec(fmt[at + 1])
    ensures Rendered(fmt, args, at + 2, taken, text)
  {
    var rest := fmt[at..];
    assert rest[1] == fmt[at + 1] && rest[2..] == fmt[at + 2..];
  }

  lemma SpecStep(fmt: seq<Char>, args: seq<Arg>, at: nat, taken: nat, text: seq<Char>)
    requires ArgsMatch(fmt, args) && Rendered(fmt, args, at, taken, text)
    requires at + 1 < |fmt| && fmt[at] == PERCENT && IsSpec(fmt[at + 1])
    ensures taken < |args| && Fitting(fmt[at + 1], args[taken])
    ensures Rendered(fmt, args, at + 2, taken + 1, text + RenderArg(fmt[at + 1], args[taken]))
  {
    var rest, more := fmt[at..], args[taken..];
    assert rest[1] == fmt[at + 1] && rest[2..] == fmt[at + 2..] && more[0] == args[taken]
           && more[1..] == args[taken + 1..];
    var out := RenderArg(rest[1], more[0]);
    assert text + (out + Render(rest[2..], more[1..])) == text + out + Render(rest[2..], more[1..]);
  }

  lemma EndStep(fmt: seq<Char>, args: seq<Arg>, at: nat, taken: nat, text: seq<Char>)
    requires ArgsMatch(fmt, args) && Rendered(fmt, args, at, taken, text)
    requires at == |fmt| || (at == |fmt| - 1 && fmt[at] == PERCENT)
    ensures text == Render(fmt, args) && taken == Specs(fmt)
  {
    assert text + [] == text;
  }

  /**
   `vprintk`: the console ends up as after one write of the rendered text in light
   grey on black (7), and exactly one argument per specifier was taken.
   */
  method VPrintk(con: Console, fmt: seq<Char>, args: seq<Arg>) returns (taken: nat)
    requires con.Valid() && ArgsMatch(fmt, args)
    modifies con, con.buffer
    ensures con.Valid() && con.View() == Write(old(con.View()), Render(fmt, args), 7)
    ensures taken == Specs(fmt) <= |args|
  {
    taken := Interpret(con, fmt, args);
  }

  /** The console shows `text`, which is the rendering of the format up to index `at`. */
  ghost predicate Shown(con: Console, s0: Screen, fmt: seq<Char>, args: seq<Arg>, at: nat, taken: nat, text: seq<Char>)
    requires Fits(s0) && ArgsMatch(fmt, args)
    reads con, con.buffer
  {
    con.Valid() && con.View() == Write(s0, text, COLOR) && Rendered(fmt, args, at, taken, text)
  }

  /** A character outside a specifier. */
  method PlainChar(con: Console, c: Char, ghost s0: Screen, ghost fmt: seq<Char>, ghost args: seq<Arg>,
                   ghost at: nat, ghost taken: nat, ghost text: seq<Char>)
    requires Fits(s0) && ArgsMatch(fmt, args) && Shown(con, s0, fmt, args, at, taken, text)
    requires at < |fmt| && fmt[at] == c && c != PERCENT
    modifies con, con.buffer
    ensures Shown(con, s0, fmt, args, at + 1, taken, text + [c])
  {
    con.WriteChars([c], COLOR);
    WriteConcat(s0, text, [c], COLOR);
    PlainStep(fmt, args, at, taken, text);
  }

  /** The character after a percent sign: it takes an argument if it is a known specifier. */
  method SpecChar(con: Console, buf: array<Char>, c: Char, args: seq<Arg>, taken: nat,
                  ghost s0: Screen, ghost fmt: seq<Char>, ghost at: nat, ghost text: seq<Char>)
    returns (taken': nat, ghost text': seq<Char>)
    requires Fits(s0) && ArgsMatch(fmt, args) && Shown(con, s0, fmt, args, at, taken, text)
    requires at + 1 < |fmt| && fmt[at] == PERCENT && fmt[at + 1] == c
    requires buf != con.buffer as object && buf.Length == PRINTK_BUF_SIZE
    modifies con, con.buffer, buf
    ensures Shown(con, s0, fmt, args, at + 2, taken', text')
  {
    taken', text' := taken, text;
    if IsSpec(c) {
      SpecStep(fmt, args, at, taken, text);
      PrintSpec(con, buf, c, args[taken]);
      WriteConcat(s0, text, RenderArg(c, args[taken]), COLOR);
      taken', text' := taken + 1, text + RenderArg(c, args[taken]);
    } else {
      UnknownStep(fmt, args, at, taken, text);
    }
  }

  /** The loop of `vprintk`. */
  method Interpret(con: Console, fmt: seq<Char>, args: seq<Arg>) returns (taken: nat)
    requires con.Valid() && ArgsMatch(fmt, args)
    modifies con, con.buffer
    ensures con.Valid() && con.View() == Write(old(con.View()), Render(fmt, args), COLOR)
    ensures taken == Specs(fmt) <= |args|
  {
    var buf := new Char[PRINTK_BUF_SIZE];
    var cursor, idle := 0, true;
    taken := 0;
    ghost var at, text := 0, [];
    ghost var s0 := con.View();
    assert fmt[0..] == fmt && args[0..] == args && [] + Render(fmt, args) == Render(fmt, args);
    while cursor < |fmt|
      invariant cursor <= |fmt| && cursor == (if idle then at else at + 1) && (!idle ==> fmt[at] == PERCENT)
      invariant Shown(con, s0, fmt, args, at, taken, text)
    {
      var c := fmt[cursor];
      if idle {
        if c != PERCENT {
          PlainChar(con, c, s0, fmt, args, at, taken, text);
          at, text := at + 1, text + [c];
        } else {
          idle := false;
        }
      } else {
        taken, text := SpecChar(con, buf, c, args, taken, s0, fmt, at, text);
        at := at + 2;
        idle := true;
      }
      cursor := cursor + 1;
    }
    EndStep(fmt, args, at, taken, text);
  }
}
