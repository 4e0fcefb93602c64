/**
 * Session ids: "sess_" and the sixteen hexadecimal digits of a 64-bit number
 * that mixes a counter with a pseudo-random number.
 */
module SessionIds {
  import opened JsonValues
  import opened Protocol
  import opened Powers

  const HEX := "0123456789abcdef"
  const PREFIX := "sess_"
  const DIGITS := 16

  type uint32 = x: int | 0 <= x < 0x1_0000_0000

  /** `(id << 32) ^ rnd` in 64 bits: the shift drops the high half of the counter. */
  function Mix(counter: nat, rnd: uint32): uint64 {
    counter % 0x1_0000_0000 * 0x1_0000_0000 + rnd
  }

  // ----- Mix is the bit operation of the source

  /** Exclusive or, bit by bit. */
  function Xor(a: nat, b: nat): nat {
    if a == 0 && b == 0 then 0 else (a + b) % 2 + 2 * Xor(a / 2, b / 2)
  }

  /** `<<` on `uint64_t`. */
  function ShiftLeft(a: nat, bits: nat): uint64 {
    ToUint64(a * Pow2(bits))
  }

  lemma {:induction false} XorZero(a: nat)
    ensures Xor(a, 0) == a
  {
    if a == 0 {
    } else {
      XorZero(a / 2);
    }
  }

  lemma Halved(a: nat, p: nat)
    ensures (a * (2 * p)) % 2 == 0 && a * (2 * p) / 2 == a * p
  {
    assert a * (2 * p) == 2 * (a * p);
  }

  /** Below a shifted number there is room for another, and the exclusive or is a sum. */
  lemma {:induction false} XorIsSum(a: nat, b: nat, bits: nat)
    requires b < Pow2(bits)
    ensures Xor(a * Pow2(bits), b) == a * Pow2(bits) + b
  {
    if bits == 0 {
      XorZero(a);
    } else {
      Halved(a, Pow2(bits - 1));
      XorIsSum(a, b / 2, bits - 1);
      if a * Pow2(bits) > 0 || b > 0 {
        XorStep(a * Pow2(bits), b);
      }
    }
  }

  lemma ParityOfSum(x: nat, b: nat)
    requires x % 2 == 0
    ensures (x + b) % 2 == b % 2
  {
  }

  lemma {:induction false} XorStep(x: nat, b: nat)
    requires x % 2 == 0 && (x > 0 || b > 0)
    ensures Xor(x, b) == b % 2 + 2 * Xor(x / 2, b / 2)
  {
    ParityOfSum(x, b);
  }

  lemma Pow32()
    ensures Pow2(32) == 0x1_0000_0000
  {
    assert Pow2(8) == 256;
    assert Pow2(16) == 65536 by { assert Pow2(12) == 4096; }
    assert Pow2(24) == 0x100_0000 by { assert Pow2(20) == 0x10_0000; }
    assert Pow2(28) == 0x1000_0000;
  }

  lemma ShiftDropsHighHalf(counter: nat)
    ensures counter * 0x1_0000_0000 % 0x1_0000_0000_0000_0000 == counter % 0x1_0000_0000 * 0x1_0000_0000
  {
  }

  lemma MixIsXor(counter: nat, rnd: uint32)
    ensures Mix(counter, rnd) == Xor(ShiftLeft(counter, 32), rnd)
  {
    Pow32();
    ShiftDropsHighHalf(counter);
    XorIsSum(counter % 0x1_0000_0000, rnd, 32);
  }

  // ----- hexadecimal

  function Hex(v: nat, digits: nat): string {
    if digits == 0 then "" else Hex(v / 16, digits - 1) + [HEX[v % 16]]
  }

  /** Shifting right by 4n bits divides by this. */
  function Pow16(n: nat): (p: nat)
    ensures p > 0
  {
    if n == 0 then 1 else 16 * Pow16(n - 1)
  }

  function DigitValue(c: char): nat {
    if '0' <= c <= '9' then (c - '0') as nat else if 'a' <= c <= 'f' then (c - 'a') as nat + 10 else 0
  }

  function ParseHex(s: string): nat {
    if s == "" then 0 else 16 * ParseHex(s[..|s| - 1]) + DigitValue(s[|s| - 1])
  }

  lemma HexDigit(d: nat)
    requires d < 16
    ensures DigitValue(HEX[d]) == d && SessionIdChar(HEX[d])
  {
  }

  /** Decoding inverts encoding for every number that fits the digits. */
  lemma {:induction false} ParseHexInvertsHex(v: nat, digits: nat)
    requires v < Pow16(digits)
    ensures |Hex(v, digits)| == digits && ParseHex(Hex(v, digits)) == v
  {
    if digits == 0 {
    } else {
      ParseHexInvertsHex(v / 16, digits - 1);
      HexDigit(v % 16);
      assert Hex(v, digits)[..digits - 1] == Hex(v / 16, digits - 1);
    }
  }

  lemma {:induction false} HexChars(v: nat, digits: nat)
    ensures |Hex(v, digits)| == digits
    ensures forall k :: 0 <= k < digits ==> SessionIdChar(Hex(v, digits)[k])
  {
    if digits == 0 {
    } else {
      HexChars(v / 16, digits - 1);
      HexDigit(v % 16);
    }
  }

  lemma DivDiv(v: nat, p: nat)
    requires p > 0
    ensures v / 16 / p == v / (16 * p)
  {
    var a := v / 16;
    var q, r := a / p, a % p;
    assert a == p * q + r && v == 16 * a + v % 16;
    assert v == 16 * p * q + (16 * r + v % 16);
    assert 16 * r + v % 16 < 16 * p;
    QuotientIs(v, 16 * p, q, 16 * r + v % 16);
  }

  lemma QuotientIs(v: nat, d: nat, q: nat, r: nat)
    requires v == d * q + r && r < d
    ensures v / d == q
  {
    var q', r' := v / d, v % d;
    assert d * (q - q') == r' - r;
    SmallMultiple(d, q - q');
    SmallMultiple(d, q' - q);
  }

  lemma SmallMultiple(d: int, k: int)
    requires d > 0
    ensures d * k < d ==> k < 1
  {
    if k >= 1 {
      assert d * k == d + d * (k - 1);
    }
  }

  /** Digit `k` is what shifting and masking extract. */
  lemma {:induction false} HexAt(v: nat, digits: nat, k: nat)
    requires k < digits
    ensures |Hex(v, digits)| == digits && Hex(v, digits)[k] == HEX[v / Pow16(digits - 1 - k) % 16]
  {
    HexChars(v, digits);
    HexChars(v / 16, digits - 1);
    if k < digits - 1 {
      HexAt(v / 16, digits - 1, k);
      DivDiv(v, Pow16(digits - 2 - k));
    }
  }

  // ----- ids

  function SessionId(counter: nat, rnd: uint32): string {
    PREFIX + Hex(Mix(counter, rnd), DIGITS)
  }

  lemma PowDigits()
    ensures Pow16(DIGITS) == TWO_TO_THE_64
  {
    assert Pow16(4) == 65536;
    assert Pow16(8) == 0x1_0000_0000 by { assert Pow16(6) == 256 * Pow16(4); }
    assert Pow16(12) == 65536 * Pow16(8) by { assert Pow16(10) == 256 * Pow16(8); }
    assert Pow16(16) == 65536 * Pow16(12) by { assert Pow16(14) == 256 * Pow16(12); }
  }

  /** The loop of generate_session_id fills the buffer with exactly these digits. */
  method GenerateSessionId(counter: nat, rnd: uint32) returns (id: string)
    ensures id == SessionId(counter, rnd)
  {
    var mixed := Mix(counter, rnd);
    var buf := new char[21];
    buf[0], buf[1], buf[2], buf[3], buf[4] := 's', 'e', 's', 's', '_';
    HexChars(mixed, DIGITS);
    for i := 0 to 16
      invariant buf[..5] == PREFIX
      invariant buf[5..5 + i] == Hex(mixed, DIGITS)[..i]
    {
      HexAt(mixed, DIGITS, i);
      buf[5 + i] := HEX[mixed / Pow16(15 - i) % 16];
      assert Hex(mixed, DIGITS)[..i + 1] == Hex(mixed, DIGITS)[..i] + [Hex(mixed, DIGITS)[i]];
      assert buf[5..5 + (i + 1)] == buf[5..5 + i] + [buf[5 + i]];
    }
    assert buf[..] == buf[..5] + buf[5..21];
    id := buf[..];
  }

  /** The counter that went into an id, modulo 2^32. */
  function CounterOf(id: string): nat {
    if |id| == 21 then ParseHex(id[5..]) / 0x1_0000_0000 else 0
  }

  /** An id passes the protocol's own format check and tells the counter it was made from. */
  lemma IdIsValidAndDecodes(counter: nat, rnd: uint32)
    ensures var id := SessionId(counter, rnd);
            && ValidSessionId(id) && |id| == 21
            && ParseHex(id[5..]) == Mix(counter, rnd)
            && CounterOf(id) == counter % TWO_TO_THE_32
  {
    PowDigits();
    ParseHexInvertsHex(Mix(counter, rnd), DIGITS);
    HexChars(Mix(counter, rnd), DIGITS);
    var id := SessionId(counter, rnd);
    assert id[..5] == PREFIX && id[5..] == Hex(Mix(counter, rnd), DIGITS);
    assert forall k :: 5 <= k < |id| ==> id[k] == id[5..][k - 5];
  }

  /** Two ids are equal exactly when both counters modulo 2^32 and both random numbers are. */
  lemma IdsEqualExactly(counter1: nat, rnd1: uint32, counter2: nat, rnd2: uint32)
    ensures SessionId(counter1, rnd1) == SessionId(counter2, rnd2)
            <==> counter1 % TWO_TO_THE_32 == counter2 % TWO_TO_THE_32 && rnd1 == rnd2
  {
    IdIsValidAndDecodes(counter1, rnd1);
    IdIsValidAndDecodes(counter2, rnd2);
  }
}
