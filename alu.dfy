/**
 * The arithmetic and logic of the processor as functions on values: each
 * takes the operands and the status flags before the operation and gives the
 * result and the flags after it, computing exactly what the processor's
 * helper computes (with JavaScript's operators, on unmasked numbers). The
 * contracts and lemmas state what those computations mean: the flag
 * equations, and for byte operands the carries, borrows and decimal digits.
 */
module Alu {
  import opened Bits
  import opened Bytes
  import opened StatusRegister
  import Instructions

  /** A result value together with the flags the operation leaves behind. */
  datatype AluResult = AluResult(value: int, flags: Flags)

  predicate IsByte(v: int) {
    0 <= v <= 0xff
  }

  /** Whether a byte is negative as a two's-complement byte (its bit 7). */
  predicate SignBit(v: int) {
    v % 256 >= 128
  }

  /**
   * UpdateZeroNegativeFlags: Zero exactly when the datum is 0 (nothing is
   * masked); Negative exactly when it is not 0 and bit 7 is set.
   */
  function ZeroNegative(f: Flags, datum: int): (r: Flags)
    ensures r == f.(zero := datum == 0, negative := datum != 0 && SignBit(datum))
  {
    Bit7(datum);
    var zero := datum == 0;
    f.(zero := zero, negative := if zero then false else SignedByte(datum) < 0)
  }

  /** SignBit agrees with bit 7 of the two's-complement pattern. */
  lemma SignBitIsBit7(v: int)
    ensures SignBit(v) == Bit(v, 7)
  {
    Bit7(v);
  }

  // ---------------------------------------------------------------------
  // Logic

  /** ORA: A | data, with Zero and Negative from the result. */
  function Ora(a: int, data: int, f: Flags): (r: AluResult)
    ensures forall k: nat | k < 32 :: Bit(r.value, k) == (Bit(a, k) || Bit(data, k))
    ensures r.flags == ZeroNegative(f, r.value)
  {
    OpsBits(a, data);
    var result := Or(a, data);
    AluResult(result, ZeroNegative(f, result))
  }

  /** AND: A & data, with Zero and Negative from the result. */
  function AndOp(a: int, data: int, f: Flags): (r: AluResult)
    ensures forall k: nat | k < 32 :: Bit(r.value, k) == (Bit(a, k) && Bit(data, k))
    ensures r.flags == ZeroNegative(f, r.value)
  {
    OpsBits(a, data);
    var result := And(a, data);
    AluResult(result, ZeroNegative(f, result))
  }

  /** EOR: A ^ data, with Zero and Negative from the result. */
  function Eor(a: int, data: int, f: Flags): (r: AluResult)
    ensures forall k: nat | k < 32 :: Bit(r.value, k) == (Bit(a, k) != Bit(data, k))
    ensures r.flags == ZeroNegative(f, r.value)
  {
    OpsBits(a, data);
    var result := Xor(a, data);
    AluResult(result, ZeroNegative(f, result))
  }

  lemma OpsBits(a: int, b: int)
    ensures forall k: nat | k < 32 :: Bit(And(a, b), k) == (Bit(a, k) && Bit(b, k))
    ensures forall k: nat | k < 32 :: Bit(Or(a, b), k) == (Bit(a, k) || Bit(b, k))
    ensures forall k: nat | k < 32 :: Bit(Xor(a, b), k) == (Bit(a, k) != Bit(b, k))
    ensures forall k: nat | k < 32 :: Bit(Not(a), k) == !Bit(a, k)
  {
    forall k: nat | k < 32
      ensures Bit(And(a, b), k) == (Bit(a, k) && Bit(b, k))
      ensures Bit(Or(a, b), k) == (Bit(a, k) || Bit(b, k))
      ensures Bit(Xor(a, b), k) == (Bit(a, k) != Bit(b, k))
      ensures Bit(Not(a), k) == !Bit(a, k)
    {
      BitOfOps(a, b, k);
    }
  }

  /** Two bytes share no set bit. */
  predicate NoCommonBit(a: int, b: int) {
    forall k: nat | k < 8 :: !(Bit(a, k) && Bit(b, k))
  }

  /** For bytes, `a & b` is zero exactly when they share no set bit. */
  lemma AndZeroMeaning(a: int, b: int)
    ensures IsByte(a) && IsByte(b) ==> ((And(a, b) == 0) <==> NoCommonBit(a, b))
  {
    if IsByte(a) && IsByte(b) {
      AndZeroBytes(a, b);
    }
  }

  lemma AndZeroBytes(a: int, b: int)
    requires IsByte(a) && IsByte(b)
    ensures (And(a, b) == 0) <==> NoCommonBit(a, b)
  {
    Pow2Values();
    SmallOps(a, b, 8);
    var n := NatAnd(a, b);
    if n == 0 {
      forall k: nat | k < 8 ensures !(Bit(a, k) && Bit(b, k)) {
        BitOfNatAnd(a, b, k);
        ZeroHasNoBits(k);
      }
    }
    if NoCommonBit(a, b) {
      forall k: nat | k < 8 ensures Bit(n, k) == Bit(0, k) {
        BitOfNatAnd(a, b, k);
        ZeroHasNoBits(k);
      }
      SameBits(n, 0, 8);
    }
  }

  /** BIT_immediate: Zero from A & data; no other flag changes. */
  function BitImmediate(a: int, data: int, f: Flags): (r: Flags)
    ensures IsByte(a) && IsByte(data) ==> (r.zero <==> NoCommonBit(a, data))
    ensures r.(zero := f.zero) == f
  {
    AndZeroMeaning(a, data);
    f.(zero := And(a, data) == 0)
  }

  /** BIT: Zero from A & data, Negative from bit 7 and Overflow from bit 6 of the operand. */
  function BitTest(a: int, data: int, f: Flags): (r: Flags)
    ensures IsByte(a) && IsByte(data) ==> (r.zero <==> NoCommonBit(a, data))
    ensures r.negative == Bit(data, 7) && r.overflow == Bit(data, 6)
    ensures r.(zero := f.zero, negative := f.negative, overflow := f.overflow) == f
  {
    Pow2Values();
    AndSingleBit(data, 7);
    AndSingleBit(data, 6);
    BitImmediate(a, data, f).(negative := And(data, 0x80) != 0, overflow := And(data, 0x40) != 0)
  }

  /** TSB: the content with every bit of A set; Zero as BIT_immediate of the old content. */
  function TestAndSet(a: int, content: int, f: Flags): (r: AluResult)
    ensures forall k: nat | k < 32 :: Bit(r.value, k) == (Bit(content, k) || Bit(a, k))
    ensures r.flags == BitImmediate(a, content, f)
  {
    OpsBits(content, a);
    AluResult(Or(content, a), BitImmediate(a, content, f))
  }

  /** TRB: the content with every bit of A cleared; Zero as BIT_immediate of the old content. */
  function TestAndReset(a: int, content: int, f: Flags): (r: AluResult)
    ensures forall k: nat | k < 32 :: Bit(r.value, k) == (Bit(content, k) && !Bit(a, k))
    ensures r.flags == BitImmediate(a, content, f)
  {
    OpsBits(content, a);
    OpsBits(a, a);
    BitsOfAndNot(content, a);
    AluResult(And(content, Not(a)), BitImmediate(a, content, f))
  }

  lemma BitsOfAndNot(x: int, y: int)
    ensures forall k: nat | k < 32 :: Bit(And(x, Not(y)), k) == (Bit(x, k) && !Bit(y, k))
  {
    forall k: nat | k < 32 ensures Bit(And(x, Not(y)), k) == (Bit(x, k) && !Bit(y, k)) {
      BitOfOps(x, Not(y), k);
      BitOfOps(y, y, k);
    }
  }

  /** RMB: the byte with the flag's bits cleared (`data & ~flag`). */
  function ResetBits(data: int, flag: int): (r: int)
    ensures forall k: nat | k < 32 :: Bit(r, k) == (Bit(data, k) && !Bit(flag, k))
  {
    BitsOfAndNot(data, flag);
    And(data, Not(flag))
  }

  /** SMB: the byte with the flag's bits set (`data | flag`). */
  function SetBits(data: int, flag: int): (r: int)
    ensures forall k: nat | k < 32 :: Bit(r, k) == (Bit(data, k) || Bit(flag, k))
  {
    OpsBits(data, flag);
    Or(data, flag)
  }

  /** RMBn and SMBn (flag 2^n) change bit n of the byte and no other bit. */
  lemma SingleBitChanged(data: int, n: nat)
    requires n < 8
    ensures forall k: nat | k < 32 :: Bit(ResetBits(data, Pow2(n)), k) == (k != n && Bit(data, k))
    ensures forall k: nat | k < 32 :: Bit(SetBits(data, Pow2(n)), k) == (k == n || Bit(data, k))
  {
    forall k: nat | k < 32 ensures Bit(Pow2(n), k) == (n == k) {
      BitOfPow2(n, k);
    }
  }

  // ---------------------------------------------------------------------
  // Shifts and rotations

  /** ASL_data: data << 1; Zero and Negative from the result; Carry from bit 7 of the operand. */
  function Asl(data: int, f: Flags): (r: AluResult)
    ensures 0 <= data < 0x4000_0000 ==> r.value == 2 * data
    ensures r.flags.carry == Bit(data, 7)
    ensures r.flags == ZeroNegative(f, r.value).(carry := r.flags.carry)
  {
    Pow2Values();
    ShlIsMultiply(data, 1);
    AndSingleBit(data, 7);
    var result := Shl(data, 1);
    AluResult(result, ZeroNegative(f, result).(carry := And(data, 0x80) != 0))
  }

  /** LSR_data: data >> 1; Carry from bit 0 of the operand; Zero and Negative from the result. */
  function Lsr(data: int, f: Flags): (r: AluResult)
    ensures -Pow31 <= data < Pow31 ==> r.value == data / 2
    ensures r.flags.carry == (data % 2 == 1)
    ensures r.flags == ZeroNegative(f, r.value).(carry := r.flags.carry)
  {
    Pow2Values();
    AndSingleBit(data, 0);
    SmallIsInt32Range(data);
    var carry := And(data, 1) != 0;
    var result := Shr(data, 1);
    AluResult(result, ZeroNegative(f.(carry := carry), result))
  }

  /** ROL_data: data << 1 with the old Carry in bit 0; the new Carry from bit 7 of the operand. */
  function Rol(data: int, f: Flags): (r: AluResult)
    ensures 0 <= data < 0x4000_0000 ==> r.value == 2 * data + (if f.carry then 1 else 0)
    ensures r.flags.carry == Bit(data, 7)
    ensures r.flags == ZeroNegative(f, r.value).(carry := r.flags.carry)
  {
    Pow2Values();
    AndSingleBit(data, 7);
    var carry := And(data, 0x80) != 0;
    var shifted := Shl(data, 1);
    var result := if f.carry then Or(shifted, 1) else shifted;
    RolArithmetic(data);
    AluResult(result, ZeroNegative(f.(carry := carry), result))
  }

  /** ROR_data: data >> 1 with the old Carry in bit 7; the new Carry from bit 0 of the operand. */
  function Ror(data: int, f: Flags): (r: AluResult)
    ensures IsByte(data) ==> r.value == data / 2 + (if f.carry then 0x80 else 0)
    ensures r.flags.carry == (data % 2 == 1)
    ensures r.flags == ZeroNegative(f, r.value).(carry := r.flags.carry)
  {
    Pow2Values();
    AndSingleBit(data, 0);
    var carry := And(data, 1) != 0;
    var shifted := Shr(data, 1);
    var result := if f.carry then Or(shifted, 0x80) else shifted;
    RorArithmetic(data);
    AluResult(result, ZeroNegative(f.(carry := carry), result))
  }

  lemma RolArithmetic(data: int)
    ensures 0 <= data < 0x4000_0000 ==> Shl(data, 1) == 2 * data && Or(2 * data, 1) == 2 * data + 1
  {
    if 0 <= data < 0x4000_0000 {
      Pow2Values();
      ShlIsMultiply(data, 1);
      OrAligned(2 * data, 1, 1);
    }
  }

  lemma RorArithmetic(data: int)
    ensures IsByte(data) ==> Shr(data, 1) == data / 2 && Or(data / 2, 0x80) == data / 2 + 0x80
  {
    if IsByte(data) {
      Pow2Values();
      SmallIsInt32(data);
      RorByte(data / 2);
    }
  }

  lemma RorByte(shifted: int)
    requires 0 <= shifted < 0x80
    ensures Or(0x80, shifted) == 0x80 + shifted && Or(shifted, 0x80) == 0x80 + shifted
  {
    Pow2Values();
    OrAligned(0x80, shifted, 7);
    OrCommutes(shifted, 0x80);
  }

  lemma OrCommutes(a: int, b: int)
    ensures Or(a, b) == Or(b, a)
  {
    NatOrCommutes(ToUint32(a), ToUint32(b));
  }

  lemma {:induction false} NatOrCommutes(x: nat, y: nat)
    ensures NatOr(x, y) == NatOr(y, x)
  {
    if x != 0 && y != 0 {
      NatOrCommutes(x / 2, y / 2);
    }
  }

  /** A byte rotated left and then right (through the carry) comes back, and so does the carry. */
  lemma RotateRoundTrip(data: int, f: Flags)
    requires IsByte(data)
    ensures Ror(Rol(data, f).value, Rol(data, f).flags).value == data
    ensures Ror(Rol(data, f).value, Rol(data, f).flags).flags.carry == f.carry
  {
    var left := Rol(data, f);
    var c := CarryIn(f);
    assert left.value == 2 * data + c && left.flags.carry == Bit(data, 7);
    RorUndoesShift(data, c, left.flags);
  }

  /** Rotating right the doubled byte plus a carry bit gives the byte back and the bit in Carry. */
  lemma RorUndoesShift(data: int, c: int, g: Flags)
    requires IsByte(data) && 0 <= c <= 1 && g.carry == Bit(data, 7)
    ensures Ror(2 * data + c, g).value == data && Ror(2 * data + c, g).flags.carry == (c == 1)
  {
    var v := 2 * data + c;
    assert v % 2 == c && v / 2 == data;
    assert Shr(v, 1) == data by {
      Pow2Values();
      SmallIsInt32(v);
    }
    if g.carry {
      OrIdempotentHighBit(data);
    }
  }

  /** Or-ing 0x80 into a byte whose bit 7 is set leaves it unchanged. */
  lemma OrIdempotentHighBit(data: int)
    requires IsByte(data) && Bit(data, 7)
    ensures Or(data, 0x80) == data
  {
    Pow2Values();
    SmallOps(data, 0x80, 8);
    NatOrSetBit(data, 7);
  }

  lemma {:induction false} NatOrSetBit(x: nat, k: nat)
    requires Bit(x, k)
    ensures NatOr(x, Pow2(k)) == x
  {
    if k > 0 {
      NatOrSetBit(x / 2, k - 1);
    }
  }

  // ---------------------------------------------------------------------
  // Binary addition, subtraction and comparison

  /** The carry as the number the arithmetic adds: 1 when set. */
  function CarryIn(f: Flags): (c: int)
    ensures 0 <= c <= 1 && (c == 1 <==> f.carry)
  {
    if f.carry then 1 else 0
  }

  /** The borrow SBC subtracts: 1 when the carry is clear. */
  function BorrowIn(f: Flags): (b: int)
    ensures 0 <= b <= 1 && (b == 1 <==> !f.carry)
  {
    if f.carry then 0 else 1
  }

  /** `(~(A ^ data) & (A ^ result) & 0x80) !== 0`, the overflow test of ADC. */
  function AddOverflow(a: int, data: int, result: int): (r: bool)
    ensures r <==> SignBit(a) == SignBit(data) && SignBit(result) != SignBit(a)
  {
    AddOverflowMeaning(a, data, result);
    And(And(Not(Xor(a, data)), Xor(a, result)), 0x80) != 0
  }

  lemma AddOverflowMeaning(a: int, data: int, result: int)
    ensures (And(And(Not(Xor(a, data)), Xor(a, result)), 0x80) != 0)
        <==> SignBit(a) == SignBit(data) && SignBit(result) != SignBit(a)
  {
    var x := And(Not(Xor(a, data)), Xor(a, result));
    assert (And(x, 0x80) != 0) == Bit(x, 7) by {
      Pow2Values();
      AndSingleBit(x, 7);
    }
    BitOfOps(Not(Xor(a, data)), Xor(a, result), 7);
    BitOfOps(Xor(a, data), 0, 7);
    BitOfOps(a, data, 7);
    BitOfOps(a, result, 7);
    SignBitIsBit7(a);
    SignBitIsBit7(data);
    SignBitIsBit7(result);
  }

  /** `((A ^ data) & (A ^ result) & 0x80) !== 0`, the overflow test of SBC. */
  function SubOverflow(a: int, data: int, result: int): (r: bool)
    ensures r <==> SignBit(a) != SignBit(data) && SignBit(result) != SignBit(a)
  {
    SubOverflowMeaning(a, data, result);
    And(And(Xor(a, data), Xor(a, result)), 0x80) != 0
  }

  lemma SubOverflowMeaning(a: int, data: int, result: int)
    ensures (And(And(Xor(a, data), Xor(a, result)), 0x80) != 0)
        <==> SignBit(a) != SignBit(data) && SignBit(result) != SignBit(a)
  {
    var x := And(Xor(a, data), Xor(a, result));
    assert (And(x, 0x80) != 0) == Bit(x, 7) by {
      Pow2Values();
      AndSingleBit(x, 7);
    }
    BitOfOps(Xor(a, data), Xor(a, result), 7);
    BitOfOps(a, data, 7);
    BitOfOps(a, result, 7);
    SignBitIsBit7(a);
    SignBitIsBit7(data);
    SignBitIsBit7(result);
  }

  /**
   * ADC_b: A + data + C. Zero and Negative from the sum; Overflow when the
   * operands agree in sign and the sum does not; Carry when the sum has a
   * non-zero high byte, which for byte operands is a sum above 0xff.
   */
  function AdcBinary(a: int, data: int, f: Flags): (r: AluResult)
    ensures r.value == a + data + CarryIn(f)
    ensures r.flags.zero <==> r.value == 0
    ensures r.flags.negative <==> r.value != 0 && SignBit(r.value)
    ensures r.flags.overflow <==> SignBit(a) == SignBit(data) && SignBit(r.value) != SignBit(a)
    ensures r.flags.carry <==> HighByte(r.value) != 0
    ensures IsByte(a) && IsByte(data) ==> (r.flags.carry <==> r.value > 0xff)
    ensures r.flags.reserved == f.reserved && r.flags.brk == f.brk && r.flags.decimal == f.decimal && r.flags.interrupt == f.interrupt
  {
    var sum := a + data + CarryIn(f);
    HighByteIsQuotient(sum);
    var flags := ZeroNegative(f, sum);
    AluResult(sum, flags.(overflow := AddOverflow(a, data, sum), carry := HighByte(sum) != 0))
  }

  /**
   * SBC_b: A - data - borrow. Zero and Negative from the difference; Overflow
   * when the operands differ in sign and the difference differs from A; Carry
   * when the difference has a zero high byte, which for byte operands is "no
   * borrow": A >= data + borrow.
   */
  function SbcBinary(a: int, data: int, f: Flags): (r: AluResult)
    ensures r.value == a - data - BorrowIn(f)
    ensures r.flags.zero <==> r.value == 0
    ensures r.flags.negative <==> r.value != 0 && SignBit(r.value)
    ensures r.flags.overflow <==> SignBit(a) != SignBit(data) && SignBit(r.value) != SignBit(a)
    ensures r.flags.carry <==> HighByte(r.value) == 0
    ensures IsByte(a) && IsByte(data) ==> (r.flags.carry <==> a >= data + BorrowIn(f))
    ensures r.flags.reserved == f.reserved && r.flags.brk == f.brk && r.flags.decimal == f.decimal && r.flags.interrupt == f.interrupt
  {
    var difference := a - data - BorrowIn(f);
    HighByteIsQuotient(difference);
    var flags := ZeroNegative(f, difference);
    AluResult(difference, flags.(overflow := SubOverflow(a, data, difference), carry := HighByte(difference) == 0))
  }

  /**
   * CMP, CPX and CPY: first - second, with Zero and Negative from its low byte
   * and Carry when its high byte is zero. For byte operands: Zero exactly when
   * they are equal, Carry exactly when first >= second.
   */
  function Compare(first: int, second: int, f: Flags): (r: Flags)
    ensures r.zero <==> (first - second) % 256 == 0
    ensures r.negative <==> SignBit(first - second)
    ensures r.carry <==> HighByte(first - second) == 0
    ensures IsByte(first) && IsByte(second) ==> (r.zero <==> first == second) && (r.carry <==> first >= second)
    ensures r.overflow == f.overflow && r.reserved == f.reserved && r.brk == f.brk && r.decimal == f.decimal && r.interrupt == f.interrupt
  {
    var result := first - second;
    CompareArithmetic(result);
    ZeroNegative(f, LowByte(result)).(carry := HighByte(result) == 0)
  }

  /** What the flags of a comparison read off the low and the high byte of the difference. */
  lemma CompareArithmetic(result: int)
    ensures LowByte(result) == 0 <==> result % 256 == 0
    ensures LowByte(result) != 0 && SignBit(LowByte(result)) <==> SignBit(result)
    ensures -0xff <= result <= 0xff ==> (result % 256 == 0 <==> result == 0) && (HighByte(result) == 0 <==> result >= 0)
  {
    HighByteIsQuotient(result);
    if -0xff <= result <= 0xff {
      var q := if result < 0 then -1 else 0;
      DivModUnique(result, 256, q, result - 256 * q);
    }
  }

  /** For byte operands, ADC's Overflow is signed overflow: the signed sum leaves -128 .. 127. */
  lemma AdcOverflowIsSignedOverflow(a: int, data: int, f: Flags)
    requires IsByte(a) && IsByte(data)
    ensures AdcBinary(a, data, f).flags.overflow <==>
      !(-128 <= SignedByte(a) + SignedByte(data) + CarryIn(f) <= 127)
  {
    var sum := a + data + CarryIn(f);
    assert AdcBinary(a, data, f).flags.overflow <==> SignBit(a) == SignBit(data) && SignBit(sum) != SignBit(a);
    SignBitNear(a);
    SignBitNear(data);
    SignBitNear(sum);
  }

  /** The sign bit of a value in -256 .. 511, by range. */
  lemma SignBitNear(v: int)
    requires -256 <= v < 512
    ensures SignBit(v) <==> (-128 <= v < 0 || 128 <= v < 256 || 384 <= v)
    ensures 0 <= v < 256 ==> SignedByte(v) == if v >= 128 then v - 256 else v
  {
    var q := if v < 0 then -1 else if v < 256 then 0 else 1;
    DivModUnique(v, 256, q, v - 256 * q);
  }

  /** For byte operands, SBC's Overflow is signed overflow: the signed difference leaves -128 .. 127. */
  lemma SbcOverflowIsSignedOverflow(a: int, data: int, f: Flags)
    requires IsByte(a) && IsByte(data)
    ensures SbcBinary(a, data, f).flags.overflow <==>
      !(-128 <= SignedByte(a) - SignedByte(data) - BorrowIn(f) <= 127)
  {
    var difference := a - data - BorrowIn(f);
    assert SbcBinary(a, data, f).flags.overflow <==> SignBit(a) != SignBit(data) && SignBit(difference) != SignBit(a);
    SignBitNear(a);
    SignBitNear(data);
    SignBitNear(difference);
  }

  // ---------------------------------------------------------------------
  // Decimal (BCD) addition and subtraction

  /** ADC_d's digit adjustment: a digit sum above 9 is pushed past 0xf, so that its carry shows above the nybble. */
  function AddAdjust(n: int): (r: int)
    ensures r > 0xf <==> n > 9
  {
    if n > 9 then n + 6 else n
  }

  /** SBC_d's digit adjustment: a digit difference that went negative is moved down by 6. */
  function SubAdjust(n: int): (r: int)
    ensures -128 <= n < 128 ==> (r < 0 <==> n < 0)
  {
    if SignedByte(n) < 0 then n - 6 else n
  }

  /** The low digits of an ADC_d, with the carry in. */
  function DecimalLowSum(a: int, data: int, carry: int): int {
    LowNybble(a) + LowNybble(data) + carry
  }

  /** The high digits of an ADC_d, with the carry out of the adjusted low digit. */
  function DecimalHighSum(a: int, data: int, carry: int): int {
    HighNybble(a) + HighNybble(data) + (if AddAdjust(DecimalLowSum(a, data, carry)) > 0xf then 1 else 0)
  }

  /** The value ADC_d leaves in A: the adjusted high digit over the adjusted low nybble. */
  function AdcDecimalValue(a: int, data: int, carry: int): int {
    Or(PromoteNybble(AddAdjust(DecimalHighSum(a, data, carry))), LowNybble(AddAdjust(DecimalLowSum(a, data, carry))))
  }

  /** The low digits of an SBC_d, less the borrow. */
  function DecimalLowDifference(a: int, data: int, borrow: int): int {
    LowNybble(a) - LowNybble(data) - borrow
  }

  /** The high digits of an SBC_d, less the borrow out of the low digit. */
  function DecimalHighDifference(a: int, data: int, borrow: int): int {
    HighNybble(a) - HighNybble(data) - (if SignedByte(DecimalLowDifference(a, data, borrow)) < 0 then 1 else 0)
  }

  /** The value SBC_d leaves in A: the adjusted high digit over the adjusted low nybble. */
  function SbcDecimalValue(a: int, data: int, borrow: int): int {
    Or(PromoteNybble(SubAdjust(DecimalHighDifference(a, data, borrow))), LowNybble(SubAdjust(DecimalLowDifference(a, data, borrow))))
  }

  /** ADC_d: the decimal sum in A, with the flags AdcDecimalFlags describes. */
  function AdcDecimal(level: Instructions.ProcessorType, a: int, data: int, f: Flags): (r: AluResult)
    ensures r.flags.reserved == f.reserved && r.flags.brk == f.brk && r.flags.decimal == f.decimal && r.flags.interrupt == f.interrupt
  {
    var carry := CarryIn(f);
    var f1 := BinaryBelow65SC02(level, f, a + data + carry);
    var high := DecimalHighSum(a, data, carry);
    var f2 := f1.(overflow := AddOverflow(a, data, PromoteNybble(high)), carry := AddAdjust(high) > 0xf);
    var result := AdcDecimalValue(a, data, carry);
    AluResult(result, DecimalFrom65SC02(level, f2, result))
  }

  /** Zero and Negative as ADC_d and SBC_d first set them: from the binary result below the 65SC02. */
  function BinaryBelow65SC02(level: Instructions.ProcessorType, f: Flags, binary: int): (r: Flags)
    ensures r.reserved == f.reserved && r.brk == f.brk && r.decimal == f.decimal && r.interrupt == f.interrupt
  {
    if level.AtLeast(Instructions.Cpu65SC02) then f else ZeroNegative(f, binary)
  }

  /** Zero and Negative as ADC_d and SBC_d finally set them: from the decimal result from the 65SC02 on. */
  function DecimalFrom65SC02(level: Instructions.ProcessorType, f: Flags, result: int): (r: Flags)
    ensures r.reserved == f.reserved && r.brk == f.brk && r.decimal == f.decimal && r.interrupt == f.interrupt
  {
    if level.AtLeast(Instructions.Cpu65SC02) then ZeroNegative(f, result) else f
  }

  /**
   * The flags after ADC_d. Below the 65SC02, Zero and Negative come from the
   * binary sum; from the 65SC02 on, from the decimal result. Overflow is taken
   * from the high digit before its adjustment, and Carry is set exactly when
   * the high digit sum exceeds 9. Reserved, Break, Decimal and Interrupt are
   * kept.
   */
  lemma AdcDecimalFlags(level: Instructions.ProcessorType, a: int, data: int, f: Flags)
    ensures var value, sum, high := AdcDecimalValue(a, data, CarryIn(f)), a + data + CarryIn(f), DecimalHighSum(a, data, CarryIn(f));
      AdcDecimal(level, a, data, f) ==
        AluResult(value, ZeroNegative(f, if level.AtLeast(Instructions.Cpu65SC02) then value else sum)
          .(overflow := SignBit(a) == SignBit(data) && SignBit(PromoteNybble(high)) != SignBit(a), carry := high > 9))
  {
  }

  /** SBC_d: the decimal difference in A, with the flags SbcDecimalFlags describes. */
  function SbcDecimal(level: Instructions.ProcessorType, a: int, data: int, f: Flags): (r: AluResult)
    ensures r.flags.reserved == f.reserved && r.flags.brk == f.brk && r.flags.decimal == f.decimal && r.flags.interrupt == f.interrupt
  {
    var borrow := BorrowIn(f);
    var difference := a - data - borrow;
    var f1 := BinaryBelow65SC02(level, f, difference);
    var f2 := f1.(overflow := SubOverflow(a, data, difference), carry := HighByte(difference) == 0);
    var result := SbcDecimalValue(a, data, borrow);
    AluResult(result, DecimalFrom65SC02(level, f2, result))
  }

  /**
   * The flags after SBC_d. Zero and Negative depend on the level as for ADC_d;
   * Overflow and Carry are those of the binary subtraction at every level.
   */
  lemma SbcDecimalFlags(level: Instructions.ProcessorType, a: int, data: int, f: Flags)
    ensures var value, difference := SbcDecimalValue(a, data, BorrowIn(f)), a - data - BorrowIn(f);
      SbcDecimal(level, a, data, f) ==
        AluResult(value, ZeroNegative(f, if level.AtLeast(Instructions.Cpu65SC02) then value else difference)
          .(overflow := SignBit(a) != SignBit(data) && SignBit(difference) != SignBit(a), carry := HighByte(difference) == 0))
  {
  }

  /** A byte holding two decimal digits, one per nybble. */
  predicate IsBcd(v: int) {
    IsByte(v) && v % 16 <= 9 && v / 16 <= 9
  }

  /** The number a BCD byte stands for. */
  function BcdValue(v: int): int {
    10 * (v / 16) + v % 16
  }

  /** The BCD byte of a number below 100. */
  function ToBcd(n: int): (r: int)
    requires 0 <= n < 100
    ensures IsBcd(r) && BcdValue(r) == n
  {
    var r := 16 * (n / 10) + n % 10;
    DivModUnique(r, 16, n / 10, n % 10);
    r
  }

  /** The digit-level result of ADC_d on two BCD bytes. */
  lemma AdcDecimalValueIsBcd(a: int, data: int, c: int)
    requires IsBcd(a) && IsBcd(data) && 0 <= c <= 1
    ensures var total := BcdValue(a) + BcdValue(data) + c;
      LowByte(AdcDecimalValue(a, data, c)) == ToBcd(total % 100) && (DecimalHighSum(a, data, c) > 9 <==> total >= 100)
  {
    var low0 := a % 16 + data % 16 + c;
    var digit := if low0 > 9 then low0 - 10 else low0;
    var high0 := a / 16 + data / 16 + (if low0 > 9 then 1 else 0);
    var high := if high0 > 9 then high0 + 6 else high0;
    assert AdcDecimalValue(a, data, c) == 16 * high + digit && DecimalHighSum(a, data, c) == high0 by {
      AdcDecimalDigits(a, data, c);
    }
    var total := BcdValue(a) + BcdValue(data) + c;
    assert total == 10 * high0 + digit;
    DecimalDigits(high0, digit, total, 16 * high + digit);
  }

  /** ADC_d on two BCD bytes: the adjusted high digit over the low digit of the sum. */
  lemma AdcDecimalDigits(a: int, data: int, c: int)
    requires IsBcd(a) && IsBcd(data) && 0 <= c <= 1
    ensures var low0 := a % 16 + data % 16 + c;
      var high0 := a / 16 + data / 16 + (if low0 > 9 then 1 else 0);
      DecimalHighSum(a, data, c) == high0 &&
      AdcDecimalValue(a, data, c) == 16 * (if high0 > 9 then high0 + 6 else high0) + (if low0 > 9 then low0 - 10 else low0)
  {
    var low0 := DecimalLowSum(a, data, c);
    var digit := if low0 > 9 then low0 - 10 else low0;
    assert LowNybble(AddAdjust(low0)) == digit by {
      DivModUnique(AddAdjust(low0), 16, if low0 > 9 then 1 else 0, digit);
    }
    var high := AddAdjust(DecimalHighSum(a, data, c));
    assert 0 <= high < 32;
    NybblesOr(high, digit);
  }

  /** A small high digit shifted up four bits and or-ed with a low digit is their positional sum. */
  lemma NybblesOr(high: int, digit: int)
    requires -16 <= high < 32 && 0 <= digit < 16
    ensures Or(PromoteNybble(high), digit) == 16 * high + digit
  {
    Pow2Values();
    assert PromoteNybble(high) == 16 * high;
    OrAlignedSigned(16 * high, digit, 4);
  }

  lemma DecimalDigits(high0: int, digit: int, total: int, result: int)
    requires 0 <= high0 <= 19 && 0 <= digit <= 9 && total == 10 * high0 + digit
    requires result == 16 * (if high0 > 9 then high0 + 6 else high0) + digit
    ensures 0 <= total % 100 < 100 && LowByte(result) == ToBcd(total % 100)
  {
    var d := if high0 > 9 then high0 - 10 else high0;
    DivModUnique(total, 100, if high0 > 9 then 1 else 0, 10 * d + digit);
    DivModUnique(result, 256, if high0 > 9 then 1 else 0, 16 * d + digit);
    DivModUnique(10 * d + digit, 10, d, digit);
  }

  /**
   * In decimal mode ADC adds two BCD bytes: the low byte of A is the BCD of
   * the decimal sum modulo 100, and Carry is set exactly when that sum
   * reaches 100.
   */
  lemma AdcDecimalAddsBcd(level: Instructions.ProcessorType, a: int, data: int, f: Flags)
    requires IsBcd(a) && IsBcd(data)
    ensures var total := BcdValue(a) + BcdValue(data) + CarryIn(f);
      var r := AdcDecimal(level, a, data, f);
      LowByte(r.value) == ToBcd(total % 100) && (r.flags.carry <==> total >= 100)
  {
    AdcDecimalParts(level, a, data, f);
    AdcDecimalValueIsBcd(a, data, CarryIn(f));
  }

  lemma AdcDecimalParts(level: Instructions.ProcessorType, a: int, data: int, f: Flags)
    ensures var r := AdcDecimal(level, a, data, f);
      r.value == AdcDecimalValue(a, data, CarryIn(f)) && r.flags.carry == (DecimalHighSum(a, data, CarryIn(f)) > 9)
  {
  }

  /** The digit-level result of SBC_d on two BCD bytes. */
  lemma SbcDecimalValueIsBcd(a: int, data: int, b: int)
    requires IsBcd(a) && IsBcd(data) && 0 <= b <= 1
    ensures var total := BcdValue(a) - BcdValue(data) - b;
      LowByte(SbcDecimalValue(a, data, b)) == ToBcd(total % 100)
  {
    var low0 := a % 16 - data % 16 - b;
    var digit := if low0 < 0 then low0 + 10 else low0;
    var high0 := a / 16 - data / 16 - (if low0 < 0 then 1 else 0);
    var high := if high0 < 0 then high0 - 6 else high0;
    assert SbcDecimalValue(a, data, b) == 16 * high + digit by {
      SbcDecimalDigits(a, data, b);
    }
    var total := BcdValue(a) - BcdValue(data) - b;
    assert total == 10 * high0 + digit;
    DecimalBorrowDigits(high0, digit, total, 16 * high + digit);
  }

  /** SBC_d on two BCD bytes: the adjusted high digit over the low digit of the difference. */
  lemma SbcDecimalDigits(a: int, data: int, b: int)
    requires IsBcd(a) && IsBcd(data) && 0 <= b <= 1
    ensures var low0 := a % 16 - data % 16 - b;
      var high0 := a / 16 - data / 16 - (if low0 < 0 then 1 else 0);
      SbcDecimalValue(a, data, b) == 16 * (if high0 < 0 then high0 - 6 else high0) + (if low0 < 0 then low0 + 10 else low0)
  {
    var low0 := DecimalLowDifference(a, data, b);
    assert low0 == a % 16 - data % 16 - b;
    var digit := if low0 < 0 then low0 + 10 else low0;
    assert LowNybble(SubAdjust(low0)) == digit by {
      SmallSignedByte(low0);
      DivModUnique(SubAdjust(low0), 16, if low0 < 0 then -1 else 0, digit);
    }
    var high0 := DecimalHighDifference(a, data, b);
    assert high0 == a / 16 - data / 16 - (if low0 < 0 then 1 else 0) by {
      SmallSignedByte(low0);
    }
    var high := SubAdjust(high0);
    assert high == (if high0 < 0 then high0 - 6 else high0) by {
      SmallSignedByte(high0);
    }
    NybblesOr(high, digit);
  }

  lemma SmallSignedByte(v: int)
    requires -128 <= v < 128
    ensures SignedByte(v) == v
  {
  }

  lemma DecimalBorrowDigits(high0: int, digit: int, total: int, result: int)
    requires -10 <= high0 <= 9 && 0 <= digit <= 9 && total == 10 * high0 + digit
    requires result == 16 * (if high0 < 0 then high0 - 6 else high0) + digit
    ensures 0 <= total % 100 < 100 && LowByte(result) == ToBcd(total % 100)
  {
    var d := if high0 < 0 then high0 + 10 else high0;
    DivModUnique(total, 100, if high0 < 0 then -1 else 0, 10 * d + digit);
    DivModUnique(result, 256, if high0 < 0 then -1 else 0, 16 * d + digit);
    DivModUnique(10 * d + digit, 10, d, digit);
  }

  /**
   * In decimal mode SBC subtracts two BCD bytes: the low byte of A is the BCD
   * of the decimal difference modulo 100, and Carry is set exactly when no
   * borrow was needed.
   */
  lemma SbcDecimalSubtractsBcd(level: Instructions.ProcessorType, a: int, data: int, f: Flags)
    requires IsBcd(a) && IsBcd(data)
    ensures var total := BcdValue(a) - BcdValue(data) - BorrowIn(f);
      var r := SbcDecimal(level, a, data, f);
      LowByte(r.value) == ToBcd(total % 100) && (r.flags.carry <==> total >= 0)
  {
    SbcDecimalParts(level, a, data, f);
    SbcDecimalValueIsBcd(a, data, BorrowIn(f));
    BcdBorrow(a, data, BorrowIn(f));
  }

  lemma SbcDecimalParts(level: Instructions.ProcessorType, a: int, data: int, f: Flags)
    ensures var r := SbcDecimal(level, a, data, f);
      r.value == SbcDecimalValue(a, data, BorrowIn(f)) && r.flags.carry == (HighByte(a - data - BorrowIn(f)) == 0)
  {
  }

  /** The high byte of the binary difference of two BCD bytes is zero exactly when the decimal difference is not negative. */
  lemma BcdBorrow(a: int, data: int, b: int)
    requires IsBcd(a) && IsBcd(data) && 0 <= b <= 1
    ensures HighByte(a - data - b) == 0 <==> BcdValue(a) - BcdValue(data) - b >= 0
  {
    HighByteIsQuotient(a - data - b);
    BcdOrder(a, data, b);
  }

  /** Two BCD bytes compare, less a borrow, as the numbers they stand for do. */
  lemma BcdOrder(a: int, data: int, b: int)
    requires IsBcd(a) && IsBcd(data) && 0 <= b <= 1
    ensures BcdValue(a) >= BcdValue(data) + b <==> a >= data + b
  {
    assert a == 16 * (a / 16) + a % 16;
    assert data == 16 * (data / 16) + data % 16;
  }
}
