/**
 * Number formatting used by the 8086 disassembler: the uppercase,
 * zero-padded `%02X` and `%04X` conversions, the little-endian word
 * assembly of `e86_mk_uint16` and the signed-byte add of `e86_add_sint8`.
 * Each formatter has a parser beside it, and the round trip is proved.
 */
module Hex {

  /** An `unsigned char` of the source. */
  type byte = b: int | 0 <= b < 0x100

  /** An `unsigned short` of the source. */
  type u16 = w: int | 0 <= w < 0x1_0000

  /** The digit `%X` prints for a value 0..15 (upper case). */
  function Digit(n: int): (c: char)
    requires 0 <= n < 16
    ensures IsHexDigit(c)
  {
    if n < 10 then ('0' as int + n) as char else ('A' as int + n - 10) as char
  }

  predicate IsHexDigit(c: char) {
    '0' <= c <= '9' || 'A' <= c <= 'F'
  }

  predicate IsHex(s: string) {
    forall i :: 0 <= i < |s| ==> IsHexDigit(s[i])
  }

  /** The value of one uppercase hex digit; the inverse of Digit. */
  function DigitValue(c: char): (n: int)
    requires IsHexDigit(c)
    ensures 0 <= n < 16 && Digit(n) == c
  {
    if c <= '9' then c as int - '0' as int else c as int - 'A' as int + 10
  }

  /** The value of a string of hex digits, most significant digit first. */
  function ParseHex(s: string): (n: nat)
    requires IsHex(s)
  {
    if s == [] then 0 else ParseHex(s[..|s| - 1]) * 16 + DigitValue(s[|s| - 1])
  }

  /** `sprintf ("%02X", b)` for an unsigned char. */
  function Hex2(b: byte): (s: string)
    ensures |s| == 2 && IsHex(s)
  {
    [Digit(b / 16), Digit(b % 16)]
  }

  /** `sprintf ("%04X", w)` for an unsigned short. */
  function Hex4(w: u16): (s: string)
    ensures |s| == 4 && IsHex(s)
  {
    Hex2(w / 0x100) + Hex2(w % 0x100)
  }

  lemma {:induction false} ParseHexSnoc(s: string, c: char)
    requires IsHex(s) && IsHexDigit(c)
    ensures IsHex(s + [c]) && ParseHex(s + [c]) == ParseHex(s) * 16 + DigitValue(c)
  {
    assert (s + [c])[..|s + [c]| - 1] == s;
  }

  /** Reading two printed digits back gives the byte. */
  lemma {:induction false} Hex2RoundTrip(b: byte)
    ensures ParseHex(Hex2(b)) == b
  {
    var s := Hex2(b);
    assert s == [Digit(b / 16)] + [Digit(b % 16)];
    ParseHexSnoc([Digit(b / 16)], Digit(b % 16));
    ParseHexSnoc([], Digit(b / 16));
    assert [] + [Digit(b / 16)] == [Digit(b / 16)];
  }

  /** Reading four printed digits back gives the word. */
  lemma {:induction false} Hex4RoundTrip(w: u16)
    ensures ParseHex(Hex4(w)) == w
  {
    var hi, lo := Hex2(w / 0x100), Hex2(w % 0x100);
    Hex2RoundTrip(w / 0x100);
    assert hi + [lo[0]] + [lo[1]] == Hex4(w);
    ParseHexSnoc(hi, lo[0]);
    ParseHexSnoc(hi + [lo[0]], lo[1]);
    assert lo == [lo[0]] + [lo[1]];
    ParseHexSnoc([], lo[0]);
    assert [] + [lo[0]] == [lo[0]];
    ParseHexSnoc([lo[0]], lo[1]);
    Hex2RoundTrip(w % 0x100);
  }

  /** Distinct words print differently, so the text identifies the value. */
  lemma Hex4Injective(v: u16, w: u16)
    requires Hex4(v) == Hex4(w)
    ensures v == w
  {
    Hex4RoundTrip(v);
    Hex4RoundTrip(w);
  }

  /** `e86_mk_uint16 (lo, hi)`: a word from its low and high byte. */
  function MkUint16(lo: byte, hi: byte): (w: u16)
    ensures w % 0x100 == lo && w / 0x100 == hi
  {
    lo + 0x100 * hi
  }

  /** The printed word is the high byte's digits followed by the low byte's. */
  lemma {:induction false} Hex4LittleEndian(lo: byte, hi: byte)
    ensures Hex4(MkUint16(lo, hi)) == Hex2(hi) + Hex2(lo)
  {
    var w := MkUint16(lo, hi);
    assert w / 0x100 == hi && w % 0x100 == lo;
  }

  /** The two's-complement value of a byte. */
  function SignExt8(b: byte): (v: int)
    ensures -0x80 <= v < 0x80
    ensures (v + 0x100) % 0x100 == b
    ensures (v < 0) == (b >= 0x80)
  {
    if b < 0x80 then b else b - 0x100
  }

  /** `e86_add_sint8 (w, b)`: w plus the sign-extended byte, modulo 2^16. */
  function AddSInt8(w: u16, b: byte): (r: u16)
    ensures (r - w - SignExt8(b)) % 0x1_0000 == 0
  {
    (w + SignExt8(b)) % 0x1_0000
  }

  /** The two's-complement value of a word. */
  function SignExt16(w: u16): (v: int)
    ensures -0x8000 <= v < 0x8000
    ensures (v + 0x1_0000) % 0x1_0000 == w
    ensures (v < 0) == (w >= 0x8000)
  {
    if w < 0x8000 then w else w - 0x1_0000
  }

  /** Taking 2^16 away does not change a value modulo 2^16. */
  lemma WrapDown(x: int)
    ensures (x - 0x1_0000) % 0x1_0000 == x % 0x1_0000
  {
  }

  /**
   * The target of a relative transfer: the address after the instruction
   * (ip plus its length) plus the signed displacement, modulo 2^16.
   */
  function RelTarget(ip: u16, len: nat, disp: int): u16
  {
    (ip + len + disp) % 0x1_0000
  }
}
