/**
 * Arithmetic shared by the two HID report decoders: hexadecimal digits and
 * bit fields read LSB-first out of a byte string. Bytes are integers in
 * 0..255; a C shift-and-mask is written as division and remainder by powers of two.
 */
module HidField {
  import Signals
  import opened Arith

  type Byte = Signals.Byte

  // ---------------------------------------------------------------------------
  // Hexadecimal digits.
  // ---------------------------------------------------------------------------

  predicate IsHexChar(c: char)
  {
    '0' <= c <= '9' || 'a' <= c <= 'f' || 'A' <= c <= 'F'
  }

  /** The digit's value in either case, or -1 for a character that is not a hex digit. */
  function HexValue(c: char): (v: int)
    ensures -1 <= v < 16
    ensures v >= 0 <==> IsHexChar(c)
  {
    if '0' <= c <= '9' then c as int - '0' as int
    else if 'a' <= c <= 'f' then 10 + (c as int - 'a' as int)
    else if 'A' <= c <= 'F' then 10 + (c as int - 'A' as int)
    else -1
  }

  /** The lower-case digit for a nibble: the inverse of `HexValue` on 0..15. */
  function HexChar(v: nat): (c: char)
    requires v < 16
    ensures IsHexChar(c)
  {
    if v < 10 then ('0' as int + v) as char else ('a' as int + (v - 10)) as char
  }

  lemma HexValueOfHexChar(v: nat)
    requires v < 16
    ensures HexValue(HexChar(v)) == v
  {
  }

  /** The upper-case digits read as the lower-case ones. */
  lemma HexValueUpper(v: nat)
    requires 10 <= v < 16
    ensures HexValue(('A' as int + (v - 10)) as char) == v
  {
  }

  /** Two nibbles as one byte: for 4-bit values `(hi << 4) | lo` is `hi * 16 + lo`. */
  function PairByte(hi: int, lo: int): (b: Byte)
    requires 0 <= hi < 16 && 0 <= lo < 16
    ensures b / 16 == hi && b % 16 == lo
  {
    hi * 16 + lo
  }

  // ---------------------------------------------------------------------------
  // Bit fields, least significant bit first within each byte.
  // ---------------------------------------------------------------------------

  /** Bit `g` of the byte string: bit `g % 8` of byte `g / 8`; 0 before the start or past the end. */
  function BitAt(bytes: seq<Byte>, g: int): (b: nat)
    ensures b < 2
  {
    if g < 0 || g / 8 >= |bytes| then 0 else (bytes[g / 8] / Pow2(g % 8)) % 2
  }

  /** The `n` bits starting at `start`, bit `i` of the field placed at weight `2^i`. */
  function FieldValue(bytes: seq<Byte>, start: int, n: nat): (v: nat)
    ensures v < Pow2(n)
  {
    if n == 0 then 0 else FieldValue(bytes, start, n - 1) + BitAt(bytes, start + n - 1) * Pow2(n - 1)
  }

  /** One more bit of a field adds the byte string's next bit at weight `2^n`. */
  lemma FieldValueNext(bytes: seq<Byte>, start: int, n: nat)
    ensures FieldValue(bytes, start, n + 1) == FieldValue(bytes, start, n) + BitAt(bytes, start + n) * Pow2(n)
  {
  }

  /** Bit `i` of a field is the byte string's bit `start + i`: the field reads each bit exactly once. */
  lemma {:induction false} FieldBit(bytes: seq<Byte>, start: int, n: nat, i: nat)
    requires i < n
    ensures (FieldValue(bytes, start, n) / Pow2(i)) % 2 == BitAt(bytes, start + i)
  {
    var v, rest := FieldValue(bytes, start, n), FieldValue(bytes, start, n - 1);
    var b := BitAt(bytes, start + n - 1);
    assert v == rest + b * Pow2(n - 1);
    if i == n - 1 {
      TopBit(v, rest, b, Pow2(i));
    } else {
      FieldBit(bytes, start, n - 1, i);
      ParityBelow(v, rest, b, i, n - 1);
    }
  }

  /** A bit placed just above a smaller value is read back from there. */
  lemma TopBit(v: nat, x: nat, b: nat, p: nat)
    requires v == x + b * p && x < p && b < 2
    ensures (v / p) % 2 == b
  {
    DivOfShifted(x, b, p);
    SmallDiv(x, p);
  }

  /** Adding a multiple of `2^m` leaves every bit below `m` alone. */
  lemma ParityBelow(v: nat, x: nat, b: nat, i: nat, m: nat)
    requires v == x + b * Pow2(m) && i < m
    ensures (v / Pow2(i)) % 2 == (x / Pow2(i)) % 2
  {
    var k: nat := m - i;
    var p, h := Pow2(i), Pow2(k - 1);
    Pow2Add(k, i);
    assert Pow2(k) == 2 * h;
    assert Pow2(m) == (2 * h) * p;
    ParityOfShifted(x, b, h, p);
  }

  /** Two fields over the same bits are equal: a field depends on nothing but its own bits. */
  lemma {:induction false} FieldValueSameBits(a: seq<Byte>, b: seq<Byte>, start: int, n: nat)
    requires forall g :: start <= g < start + n ==> BitAt(a, g) == BitAt(b, g)
    ensures FieldValue(a, start, n) == FieldValue(b, start, n)
  {
    if n > 0 {
      FieldValueSameBits(a, b, start, n - 1);
    }
  }
}
