/**
 * The static byte and nybble helpers of the processor (toSignedByte, LowByte,
 * HighByte, MakeWord and the nybble functions). Each is defined by what it
 * computes in plain arithmetic, and a lemma beside it proves that the
 * JavaScript operator expression the processor uses computes exactly that, for
 * every integer: none of them masks its argument first.
 */
module Bytes {
  import opened Bits

  /** Bit k of v is set exactly when v modulo 2^(k+1) is at least 2^k. */
  lemma {:induction false} BitIsHighHalf(v: int, k: nat)
    ensures Bit(v, k) == (v % Pow2(k + 1) >= Pow2(k))
    decreases k
  {
    if k > 0 {
      BitIsHighHalf(v / 2, k - 1);
      ModTwice(v, Pow2(k));
    }
  }

  /** Bit 7, the sign bit of a byte, is set exactly when the low byte is at least 0x80. */
  lemma Bit7(v: int)
    ensures Bit(v, 7) == (v % 256 >= 128)
  {
    BitIsHighHalf(v, 7);
    Pow2Values();
  }

  /** Bit 6, the overflow bit BIT copies, is set exactly when v modulo 0x80 is at least 0x40. */
  lemma Bit6(v: int)
    ensures Bit(v, 6) == (v % 128 >= 64)
  {
    BitIsHighHalf(v, 6);
    Pow2Values();
  }

  /** toSignedByte: the two's-complement value of the low byte of v. */
  function SignedByte(v: int): (r: int)
    ensures -128 <= r <= 127 && (r - v) % 256 == 0
    ensures r < 0 <==> Bit(v, 7)
  {
    Bit7(v);
    LowByteCongruent(v);
    var low := v % 256;
    if low >= 128 then low - 256 else low
  }

  /** The low byte, and the low byte less 256, differ from v by multiples of 256. */
  lemma LowByteCongruent(v: int)
    ensures (v % 256 - v) % 256 == 0 && (v % 256 - 256 - v) % 256 == 0
  {
    var q := v / 256;
    assert v == q * 256 + v % 256;
    DivModUnique(v % 256 - v, 256, -q, 0);
    DivModUnique(v % 256 - 256 - v, 256, -q - 1, 0);
  }

  /** `(value & 0x7f) - (value & 0x80)` is the signed byte, for every integer. */
  lemma SignedByteIsJs(v: int)
    ensures And(v, 0x7f) - And(v, 0x80) == SignedByte(v)
  {
    Pow2Values();
    AndLowMask(v, 7);
    AndSingleBit(v, 7);
    Bit7(v);
    SplitByte(v);
  }

  /** The low byte is the low seven bits plus 0x80 when bit 7 is set. */
  lemma SplitByte(v: int)
    ensures v % 256 == v % 128 + (if v % 256 >= 128 then 128 else 0)
  {
    var q := v / 128;
    assert v == 128 * q + v % 128;
    if q % 2 == 0 {
      DivModUnique(v, 256, q / 2, v % 128);
    } else {
      DivModUnique(v, 256, q / 2, v % 128 + 128);
    }
  }

  /** LowByte: the low eight bits. */
  function LowByte(v: int): (r: int)
    ensures 0 <= r <= 0xff && (v - r) % 256 == 0
  {
    v % 256
  }

  /** `value & 0xff` is the low byte. */
  lemma LowByteIsJs(v: int)
    ensures And(v, 0xff) == LowByte(v)
  {
    Pow2Values();
    AndLowMask(v, 8);
  }

  /** HighByte: everything above the low byte of the signed 32-bit value. */
  function HighByte(v: int): int {
    ToInt32(v) / 256
  }

  /** For values within 32 bits, the high byte is the quotient by 256. */
  lemma HighByteIsQuotient(v: int)
    ensures -Pow31 <= v < Pow31 ==> HighByte(v) == v / 256
  {
    SmallIsInt32Range(v);
  }

  lemma SmallIsInt32Range(v: int)
    ensures -Pow31 <= v < Pow31 ==> ToInt32(v) == v
  {
    if 0 <= v < Pow31 {
      SmallIsInt32(v);
    }
  }

  /** `(value & ~0xff) >> 8` is the high byte. */
  lemma HighByteIsJs(v: int)
    ensures Shr(And(v, Not(0xff)), 8) == HighByte(v)
  {
    var u := ToUint32(v);
    HighMaskValue();
    assert And(v, Not(0xff)) == ToInt32(NatAnd(u, Pow32 - 256));
    ClearLowByte(u);
    ClearedLowByte(u);
    assert v == u + Pow32 * (v / Pow32);
    CongruentInt32(v, u, v / Pow32);
    var c := ToInt32(u - u % 256);
    assert Shr(c, 8) == ToInt32(c) / 256 by {
      Pow2Values();
    }
  }

  /** `~0xff` is -256, whose 32-bit pattern is 2^32 - 256. */
  lemma HighMaskValue()
    ensures Not(0xff) == -256 && ToUint32(-256) == Pow32 - 256
  {
  }

  lemma ClearLowByte(u: int)
    requires 0 <= u < Pow32
    ensures NatAnd(u, Pow32 - 256) == u - u % 256
  {
    Pow2Values();
    NatAndHighMask(u, 32, 8);
  }

  lemma ClearedLowByte(u: int)
    requires 0 <= u < Pow32
    ensures ToInt32(ToInt32(u - u % 256)) / 256 == ToInt32(u) / 256
  {
    var q := u / 256;
    var c := u - u % 256;
    assert c == 256 * q;
    if u < Pow31 {
      SmallIsInt32(c);
      SmallIsInt32(u);
      DivModUnique(u, 256, q, u % 256);
    } else {
      Int32OfWrapped(c);
      Int32OfWrapped(u);
      assert ToInt32(c) == 256 * (q - 0x100_0000);
      SmallIsInt32Range(ToInt32(c));
      DivModUnique(u - Pow32, 256, q - 0x100_0000, u % 256);
    }
  }

  /** MakeWord: the high byte shifted up eight bits (wrapped to 32 bits), plus the low byte. */
  function MakeWord(low: int, high: int): (r: int)
    ensures -0x80_0000 <= high < 0x80_0000 ==> r == high * 256 + low
  {
    SmallIsInt32Range(high * 256);
    ToInt32(high * 256) + low
  }

  /** `(high << 8) + low` is MakeWord. */
  lemma MakeWordIsJs(low: int, high: int)
    ensures Shl(high, 8) + low == MakeWord(low, high)
  {
    Pow2Values();
    ShlIsMultiply(high, 8);
  }

  /** LowNybble: the low four bits. */
  function LowNybble(v: int): (r: int)
    ensures 0 <= r <= 0xf && (v - r) % 16 == 0
  {
    v % 16
  }

  /** `value & 0xf` is the low nybble. */
  lemma LowNybbleIsJs(v: int)
    ensures And(v, 0xf) == LowNybble(v)
  {
    Pow2Values();
    AndLowMask(v, 4);
  }

  /** HighNybble (DemoteNybble): the signed 32-bit value shifted down four bits. */
  function HighNybble(v: int): (r: int)
    ensures -Pow31 <= v < Pow31 ==> r == v / 16
  {
    SmallIsInt32Range(v);
    ToInt32(v) / 16
  }

  /** `value >> 4` is the high nybble. */
  lemma HighNybbleIsJs(v: int)
    ensures Shr(v, 4) == HighNybble(v)
  {
    Pow2Values();
  }

  /** PromoteNybble: v shifted up four bits, wrapped to 32 bits. */
  function PromoteNybble(v: int): (r: int)
    ensures -0x800_0000 <= v < 0x800_0000 ==> r == v * 16
  {
    SmallIsInt32Range(v * 16);
    ToInt32(v * 16)
  }

  /** `value << 4` is PromoteNybble. */
  lemma PromoteNybbleIsJs(v: int)
    ensures Shl(v, 4) == PromoteNybble(v)
  {
    Pow2Values();
    ShlIsMultiply(v, 4);
  }

  /** A 16-bit word survives being split into its bytes and joined again. */
  lemma WordRoundTrip(w: int)
    requires 0 <= w <= 0xffff
    ensures 0 <= HighByte(w) <= 0xff
    ensures MakeWord(LowByte(w), HighByte(w)) == w
  {
    DivModUnique(w, 256, w / 256, w % 256);
  }

  /** Two bytes survive being joined into a word and split again. */
  lemma BytesRoundTrip(low: int, high: int)
    requires 0 <= low <= 0xff && 0 <= high <= 0xff
    ensures 0 <= MakeWord(low, high) <= 0xffff
    ensures LowByte(MakeWord(low, high)) == low && HighByte(MakeWord(low, high)) == high
  {
    var w := MakeWord(low, high);
    assert w == high * 256 + low;
    DivModUnique(w, 256, high, low);
  }
}
