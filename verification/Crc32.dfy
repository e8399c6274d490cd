/** CRC-32 as defined in section 8 of RFC 1952, one character at a time. */
module Crc32 {

  /** The register between two characters; the checksum is its complement. */
  type Register = bv32

  const START: Register := 0xFFFF_FFFF
  const BITS_PER_BYTE: nat := 8
  const POLYNOMIAL: Register := 0xEDB8_8320

  function ShiftBit(r: Register): Register {
    if r & 1 == 1 then (r >> 1) ^ POLYNOMIAL else r >> 1
  }

  function Shift(r: Register, bits: nat): Register {
    if bits == 0 then r else ShiftBit(Shift(r, bits - 1))
  }

  function ProcessByte(r: Register, c: char): Register {
    Shift(r ^ Ascii(c), BITS_PER_BYTE)
  }

  /** The byte of a digit; nothing else is ever fed. */
  function Ascii(c: char): bv32 {
    match c
    case '0' => 0x30 case '1' => 0x31 case '2' => 0x32 case '3' => 0x33 case '4' => 0x34
    case '5' => 0x35 case '6' => 0x36 case '7' => 0x37 case '8' => 0x38 case '9' => 0x39
    case _ => 0x00
  }

  /** The byte of a digit is its character code. */
  lemma {:induction false} DigitByte(c: char)
    requires '0' <= c <= '9'
    ensures Ascii(c) as int == c as int
  {
    match c
    case '0' => case '1' => case '2' => case '3' => case '4' =>
    case '5' => case '6' => case '7' => case '8' => case '9' =>
    case _ =>
  }

  /** The register after the first n characters of a text. */
  function ProcessFirst(r: Register, text: string, n: nat): Register
    requires n <= |text|
  {
    if n == 0 then r else ProcessByte(ProcessFirst(r, text, n - 1), text[n - 1])
  }

  function Process(r: Register, text: string): Register {
    ProcessFirst(r, text, |text|)
  }

  function Checksum(r: Register): bv64 {
    (r ^ 0xFFFF_FFFF) as bv64
  }

  lemma {:induction false} ProcessPrefix(r: Register, a: string, b: string, n: nat)
    requires n <= |a|
    ensures ProcessFirst(r, a + b, n) == ProcessFirst(r, a, n)
  {
    if n > 0 {
      ProcessPrefix(r, a, b, n - 1);
    }
  }

  lemma {:induction false} ProcessBehind(r: Register, a: string, b: string, n: nat)
    requires n <= |b|
    ensures ProcessFirst(r, a + b, |a| + n) == ProcessFirst(Process(r, a), b, n)
  {
    if n > 0 {
      ProcessBehind(r, a, b, n - 1);
    } else {
      ProcessPrefix(r, a, b, |a|);
    }
  }

  /** Feeding two texts one after the other is feeding their concatenation. */
  lemma {:induction false} ProcessConcat(r: Register, a: string, b: string)
    ensures Process(r, a + b) == Process(Process(r, a), b)
  {
    ProcessBehind(r, a, b, |b|);
  }

  lemma {:induction false} ProcessThree(r: Register, a: string, b: string, c: string)
    ensures Process(Process(Process(r, a), b), c) == Process(r, a + (b + c))
  {
    ProcessConcat(r, a, b + c);
    ProcessConcat(Process(r, a), b, c);
  }

  lemma {:induction false} ProcessNext(r: Register, a: string, c: char)
    ensures Process(r, a + [c]) == ProcessByte(Process(r, a), c)
  {
    ProcessPrefix(r, a, [c], |a|);
  }

  // ---- What differs stays different ----

  lemma {:induction false} BitInjective(a: Register, b: Register)
    requires ShiftBit(a) == ShiftBit(b)
    ensures a == b
  {
  }

  lemma {:induction false} ShiftInjective(r: Register, s: Register, bits: nat)
    requires r != s
    ensures Shift(r, bits) != Shift(s, bits)
  {
    if bits > 0 {
      ShiftInjective(r, s, bits - 1);
      if ShiftBit(Shift(r, bits - 1)) == ShiftBit(Shift(s, bits - 1)) {
        BitInjective(Shift(r, bits - 1), Shift(s, bits - 1));
      }
    }
  }

  lemma {:induction false} MixInjective(r: Register, s: Register, b: bv32)
    requires r != s
    ensures r ^ b != s ^ b
  {
  }

  lemma {:induction false} ByteInjective(r: Register, s: Register, c: char)
    requires r != s
    ensures ProcessByte(r, c) != ProcessByte(s, c)
  {
    MixInjective(r, s, Ascii(c));
    ShiftInjective(r ^ Ascii(c), s ^ Ascii(c), BITS_PER_BYTE);
  }

  /** Registers that differ still differ after the same text. */
  lemma {:induction false} ProcessInjective(r: Register, s: Register, text: string, n: nat)
    requires r != s && n <= |text|
    ensures ProcessFirst(r, text, n) != ProcessFirst(s, text, n)
  {
    if n > 0 {
      ProcessInjective(r, s, text, n - 1);
      ByteInjective(ProcessFirst(r, text, n - 1), ProcessFirst(s, text, n - 1), text[n - 1]);
    }
  }

  lemma {:induction false} ChecksumInjective(r: Register, s: Register)
    requires r != s
    ensures Checksum(r) != Checksum(s)
  {
    MixInjective(r, s, 0xFFFF_FFFF);
  }
}
