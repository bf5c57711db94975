/**
 * The processor status register P: eight flags, decoded from and encoded to a
 * byte with the masks N=0x80, V=0x40, R=0x20, B=0x10, D=0x08, I=0x04, Z=0x02,
 * C=0x01.
 */
module StatusRegister {
  import opened Bits

  const NegativeMask: int := 0x80
  const OverflowMask: int := 0x40
  const ReservedMask: int := 0x20
  const BreakMask: int := 0x10
  const DecimalMask: int := 0x08
  const InterruptMask: int := 0x04
  const ZeroMask: int := 0x02
  const CarryMask: int := 0x01

  /** The value of the eight flags. */
  datatype Flags = Flags(negative: bool, overflow: bool, reserved: bool, brk: bool,
                         decimal: bool, interrupt: bool, zero: bool, carry: bool)

  /** The StatusBits enumeration: the flags by name. */
  datatype StatusBit = Negative | Overflow | Reserved | Break | Decimal | Interrupt | Zero | Carry

  /** The k of a flag's mask 2^k. */
  function Position(bit: StatusBit): (k: nat)
    ensures k < 8
  {
    match bit
    case Negative => 7
    case Overflow => 6
    case Reserved => 5
    case Break => 4
    case Decimal => 3
    case Interrupt => 2
    case Zero => 1
    case Carry => 0
  }

  /** The named flag's property getter. */
  function Get(f: Flags, bit: StatusBit): bool {
    match bit
    case Negative => f.negative
    case Overflow => f.overflow
    case Reserved => f.reserved
    case Break => f.brk
    case Decimal => f.decimal
    case Interrupt => f.interrupt
    case Zero => f.zero
    case Carry => f.carry
  }

  /** The named flag's property setter: the flags with that one set to b. */
  function With(f: Flags, bit: StatusBit, b: bool): Flags {
    match bit
    case Negative => f.(negative := b)
    case Overflow => f.(overflow := b)
    case Reserved => f.(reserved := b)
    case Break => f.(brk := b)
    case Decimal => f.(decimal := b)
    case Interrupt => f.(interrupt := b)
    case Zero => f.(zero := b)
    case Carry => f.(carry := b)
  }

  /** Setting a flag changes that flag and no other. */
  lemma GetWith(f: Flags, bit: StatusBit, b: bool, other: StatusBit)
    ensures Get(With(f, bit, b), other) == if other == bit then b else Get(f, other)
  {
  }

  /** The flag whose mask is 2^k. */
  function FlagAt(f: Flags, k: nat): bool
    requires k < 8
  {
    match k
    case 7 => f.negative
    case 6 => f.overflow
    case 5 => f.reserved
    case 4 => f.brk
    case 3 => f.decimal
    case 2 => f.interrupt
    case 1 => f.zero
    case 0 => f.carry
  }

  /** The flags a byte stands for: each flag is the bit under its mask. */
  function Decode(value: int): Flags {
    Flags(Bit(value, 7), Bit(value, 6), Bit(value, 5), Bit(value, 4),
          Bit(value, 3), Bit(value, 2), Bit(value, 1), Bit(value, 0))
  }

  /** The zero byte stands for no flag set. */
  lemma DecodeZero()
    ensures Decode(0) == Flags(false, false, false, false, false, false, false, false)
  {
    ZeroHasNoBits(7);
    ZeroHasNoBits(6);
    ZeroHasNoBits(5);
    ZeroHasNoBits(4);
    ZeroHasNoBits(3);
    ZeroHasNoBits(2);
    ZeroHasNoBits(1);
    ZeroHasNoBits(0);
  }

  function Mask(b: bool, mask: int): int {
    if b then mask else 0
  }

  /** The byte that stands for the flags: the sum of the masks of the flags that are set. */
  function Encode(f: Flags): (r: int)
    ensures 0 <= r <= 0xff
  {
    Mask(f.negative, NegativeMask) + Mask(f.overflow, OverflowMask) + Mask(f.reserved, ReservedMask)
      + Mask(f.brk, BreakMask) + Mask(f.decimal, DecimalMask) + Mask(f.interrupt, InterruptMask)
      + Mask(f.zero, ZeroMask) + Mask(f.carry, CarryMask)
  }

  /** The binary digit that stands for a flag. */
  function B(b: bool): int { if b then 1 else 0 }

  /** The number whose binary digits, least significant first, are ds. */
  function FromDigits(ds: seq<int>): int {
    if |ds| == 0 then 0 else ds[0] + 2 * FromDigits(ds[1..])
  }

  /** The binary digits of the flags, carry first. */
  function Digits(f: Flags): (ds: seq<int>)
    ensures |ds| == 8
    ensures forall k :: 0 <= k < 8 ==> ds[k] == B(FlagAt(f, k))
  {
    [B(f.carry), B(f.zero), B(f.interrupt), B(f.decimal), B(f.brk), B(f.reserved), B(f.overflow), B(f.negative)]
  }

  lemma BitOfDigit(d: int, rest: int, k: nat)
    requires 0 <= d <= 1
    ensures Bit(d + 2 * rest, k) == if k == 0 then d == 1 else Bit(rest, k - 1)
  {
    DivModUnique(d + 2 * rest, 2, rest, d);
  }

  /** Bit k of a number written in binary digits is digit k. */
  lemma {:induction false} BitOfFromDigits(ds: seq<int>, k: nat)
    requires forall i :: 0 <= i < |ds| ==> 0 <= ds[i] <= 1
    requires k < |ds|
    ensures Bit(FromDigits(ds), k) == (ds[k] == 1)
  {
    BitOfDigit(ds[0], FromDigits(ds[1..]), k);
    if k > 0 {
      BitOfFromDigits(ds[1..], k - 1);
    }
  }

  /** Eight binary digits, read as a number. */
  lemma EightDigits(a: int, b: int, c: int, d: int, e: int, f: int, g: int, h: int)
    ensures FromDigits([a, b, c, d, e, f, g, h]) == a + 2 * b + 4 * c + 8 * d + 16 * e + 32 * f + 64 * g + 128 * h
  {
    var s := [a, b, c, d, e, f, g, h];
    assert s[8..] == [];
    assert FromDigits(s[8..]) == 0;
    assert s[7..] == [h];
    assert FromDigits(s[7..]) == h + 2 * FromDigits(s[8..]);
    assert s[6..] == [g, h];
    assert FromDigits(s[6..]) == g + 2 * FromDigits(s[7..]);
    assert s[5..] == [f, g, h];
    assert FromDigits(s[5..]) == f + 2 * FromDigits(s[6..]);
    assert s[4..] == [e, f, g, h];
    assert FromDigits(s[4..]) == e + 2 * FromDigits(s[5..]);
    assert s[3..] == [d, e, f, g, h];
    assert FromDigits(s[3..]) == d + 2 * FromDigits(s[4..]);
    assert s[2..] == [c, d, e, f, g, h];
    assert FromDigits(s[2..]) == c + 2 * FromDigits(s[3..]);
    assert s[1..] == [b, c, d, e, f, g, h];
    assert FromDigits(s[1..]) == b + 2 * FromDigits(s[2..]);
  }

  /** The encoding is the number whose binary digits are the flags. */
  lemma EncodeIsDigits(f: Flags)
    ensures Encode(f) == FromDigits(Digits(f))
  {
    EightDigits(B(f.carry), B(f.zero), B(f.interrupt), B(f.decimal), B(f.brk), B(f.reserved), B(f.overflow), B(f.negative));
  }

  /** Bit k of an encoding is the flag whose mask is 2^k. */
  lemma EncodeBits(f: Flags, k: nat)
    requires k < 8
    ensures Bit(Encode(f), k) == FlagAt(f, k)
  {
    EncodeIsDigits(f);
    BitOfFromDigits(Digits(f), k);
  }

  /** Encoding and then decoding gives back all eight flags. */
  lemma DecodeEncode(f: Flags)
    ensures Decode(Encode(f)) == f
  {
    EncodeBits(f, 0);
    EncodeBits(f, 1);
    EncodeBits(f, 2);
    EncodeBits(f, 3);
    EncodeBits(f, 4);
    EncodeBits(f, 5);
    EncodeBits(f, 6);
    EncodeBits(f, 7);
  }

  /** Decoding a byte and encoding the flags gives back the byte. */
  lemma EncodeDecode(v: int)
    requires 0 <= v <= 0xff
    ensures Encode(Decode(v)) == v
  {
    var e := Encode(Decode(v));
    forall k: nat | k < 8 ensures Bit(e, k) == Bit(v, k) {
      EncodeBits(Decode(v), k);
    }
    Pow2Values();
    SameBits(e, v, 8);
  }

  /** The character that stands for a flag: its letter when set, '-' when clear. */
  function Letter(b: bool, c: char): char {
    if b then c else '-'
  }

  /** The text of the flags, from N down to C. */
  function Text(f: Flags): string {
    [Letter(f.negative, 'N'), Letter(f.overflow, 'O'), Letter(f.reserved, 'R'), Letter(f.brk, 'B'),
     Letter(f.decimal, 'D'), Letter(f.interrupt, 'I'), Letter(f.zero, 'Z'), Letter(f.carry, 'C')]
  }

  /** Character i of the text is letter i of "NORBDIZC" when the flag with mask 2^(7-i) is set, '-' otherwise. */
  lemma TextMeaning(f: Flags, i: nat)
    requires i < 8
    ensures |Text(f)| == 8
    ensures Text(f)[i] == if FlagAt(f, 7 - i) then "NORBDIZC"[i] else '-'
  {
  }

  lemma Concat8(c0: char, c1: char, c2: char, c3: char, c4: char, c5: char, c6: char, c7: char)
    ensures "" + [c0] + [c1] + [c2] + [c3] + [c4] + [c5] + [c6] + [c7] == [c0, c1, c2, c3, c4, c5, c6, c7]
  {
  }

  /** Each mask is the power of two of its flag's position. */
  lemma MasksArePowers()
    ensures Pow2(7) == NegativeMask && Pow2(6) == OverflowMask && Pow2(5) == ReservedMask && Pow2(4) == BreakMask
    ensures Pow2(3) == DecimalMask && Pow2(2) == InterruptMask && Pow2(1) == ZeroMask && Pow2(0) == CarryMask
  {
    Pow2Values();
  }

  /** The sum of the masks of the set flags at 2^k and above: what `toNumber` has after its first 8 - k steps. */
  function Prefix(f: Flags, k: nat): int
    requires k <= 8
    decreases 8 - k
  {
    if k == 8 then 0 else Mask(FlagAt(f, k), Pow2(k)) + Prefix(f, k + 1)
  }

  /** Prefix(f, k) is t * 2^k for some t below 2^(8-k). */
  lemma {:induction false} PrefixMultiple(f: Flags, k: nat) returns (t: int)
    requires k <= 8
    ensures Prefix(f, k) == t * Pow2(k) && 0 <= t < Pow2(8 - k)
    decreases 8 - k
  {
    if k == 8 {
      t := 0;
    } else {
      var u := PrefixMultiple(f, k + 1);
      t := B(FlagAt(f, k)) + 2 * u;
      PrependDigit(FlagAt(f, k), u, k);
    }
  }

  /** A binary digit b at 2^k below u * 2^(k+1): together, (b + 2u) * 2^k. */
  lemma PrependDigit(b: bool, u: int, k: nat)
    requires k < 8 && 0 <= u < Pow2(8 - (k + 1))
    ensures Mask(b, Pow2(k)) + u * Pow2(k + 1) == (B(b) + 2 * u) * Pow2(k)
    ensures 0 <= B(b) + 2 * u < Pow2(8 - k)
  {
    var p := Pow2(k);
    assert u * Pow2(k + 1) == (2 * u) * p by {
      MulAssoc(u, 2, p);
    }
    MulDistrib(p, B(b), 2 * u);
    assert Pow2(8 - k) == 2 * Pow2(8 - (k + 1));
  }

  /** The flags at 2^k and above leave the bits below k clear and sum to at most 2^8 - 2^k. */
  lemma PrefixAligned(f: Flags, k: nat)
    requires k <= 8
    ensures 0 <= Prefix(f, k) && Prefix(f, k) % Pow2(k) == 0 && Prefix(f, k) + Pow2(k) <= Pow2(8)
  {
    var x := Prefix(f, k);
    var t := PrefixMultiple(f, k);
    var p := Pow2(k);
    assert 0 <= x by {
      MulMonotone(0, t, p);
    }
    assert x % p == 0 by {
      DivModUnique(x, p, t, 0);
    }
    assert x + p == (t + 1) * p by {
      MulDistrib(p, t, 1);
    }
    assert (t + 1) * p <= Pow2(8 - k) * p by {
      MulMonotone(t + 1, Pow2(8 - k), p);
    }
    assert Pow2(8 - k) * p == Pow2(8) by {
      Pow2Add(8 - k, k);
    }
  }

  /** Step 8 - k of `toNumber`: the mask 2^(k-1) is or-ed in exactly when its flag is set, and the or adds it. */
  lemma PrefixStep(f: Flags, k: nat)
    requires 1 <= k <= 8
    ensures Prefix(f, k - 1) == if FlagAt(f, k - 1) then Or(Prefix(f, k), Pow2(k - 1)) else Prefix(f, k)
  {
    PrefixAligned(f, k);
    assert Pow2(8) < Pow31 && Pow2(31) == Pow31 by {
      Pow2Values();
    }
    Pow2Monotone(k, 31);
    if FlagAt(f, k - 1) {
      OrAligned(Prefix(f, k), Pow2(k - 1), k);
    }
  }

  /** One statement of `toNumber`, `if (isSet) flags |= mask`. */
  function OrIf(flags: int, isSet: bool, mask: int): int {
    if isSet then Or(flags, mask) else flags
  }

  /** The eight statements of `toNumber`, from N down to C, compute the encoding. */
  lemma OrIfChainIsEncode(f: Flags)
    ensures Encode(f) == OrIf(OrIf(OrIf(OrIf(OrIf(OrIf(OrIf(OrIf(0, f.negative, NegativeMask), f.overflow, OverflowMask),
      f.reserved, ReservedMask), f.brk, BreakMask), f.decimal, DecimalMask), f.interrupt, InterruptMask), f.zero, ZeroMask),
      f.carry, CarryMask)
  {
    MasksArePowers();
    PrefixStep(f, 8);
    PrefixStep(f, 7);
    PrefixStep(f, 6);
    PrefixStep(f, 5);
    PrefixStep(f, 4);
    PrefixStep(f, 3);
    PrefixStep(f, 2);
    PrefixStep(f, 1);
    EncodeIsPrefix(f);
  }

  /** The encoding is the sum over all eight flags. */
  lemma EncodeIsPrefix(f: Flags)
    ensures Encode(f) == Prefix(f, 0)
  {
    MasksArePowers();
    assert Prefix(f, 7) == Mask(f.negative, NegativeMask);
    assert Prefix(f, 6) == Mask(f.overflow, OverflowMask) + Prefix(f, 7);
    assert Prefix(f, 5) == Mask(f.reserved, ReservedMask) + Prefix(f, 6);
    assert Prefix(f, 4) == Mask(f.brk, BreakMask) + Prefix(f, 5);
    assert Prefix(f, 3) == Mask(f.decimal, DecimalMask) + Prefix(f, 4);
    assert Prefix(f, 2) == Mask(f.interrupt, InterruptMask) + Prefix(f, 3);
    assert Prefix(f, 1) == Mask(f.zero, ZeroMask) + Prefix(f, 2);
  }

  /** The status register object that the processor updates in place. */
  class StatusFlags {
    var negative: bool
    var overflow: bool
    var reserved: bool
    var brk: bool
    var decimal: bool
    var interrupt: bool
    var zero: bool
    var carry: bool

    function Value(): Flags
      reads this
    {
      Flags(negative, overflow, reserved, brk, decimal, interrupt, zero, carry)
    }

    /** Each flag is set from `value & mask`. */
    constructor(value: int)
      ensures Value() == Decode(value)
    {
      Pow2Values();
      AndSingleBit(value, 7);
      AndSingleBit(value, 6);
      AndSingleBit(value, 5);
      AndSingleBit(value, 4);
      AndSingleBit(value, 3);
      AndSingleBit(value, 2);
      AndSingleBit(value, 1);
      AndSingleBit(value, 0);
      negative := And(value, NegativeMask) != 0;
      overflow := And(value, OverflowMask) != 0;
      reserved := And(value, ReservedMask) != 0;
      brk := And(value, BreakMask) != 0;
      decimal := And(value, DecimalMask) != 0;
      interrupt := And(value, InterruptMask) != 0;
      zero := And(value, ZeroMask) != 0;
      carry := And(value, CarryMask) != 0;
    }

    /** toNumber: the masks of the set flags or-ed together, from the most significant. */
    method ToNumber() returns (flags: int)
      ensures flags == Encode(Value())
    {
      flags := 0;
      flags := OrIf(flags, negative, NegativeMask);
      flags := OrIf(flags, overflow, OverflowMask);
      flags := OrIf(flags, reserved, ReservedMask);
      flags := OrIf(flags, brk, BreakMask);
      flags := OrIf(flags, decimal, DecimalMask);
      flags := OrIf(flags, interrupt, InterruptMask);
      flags := OrIf(flags, zero, ZeroMask);
      flags := OrIf(flags, carry, CarryMask);
      OrIfChainIsEncode(Value());
    }

    /** toString: one character per flag, appended from N down to C. */
    method ToString() returns (returned: string)
      ensures returned == Text(Value())
    {
      returned := "";
      returned := returned + [Letter(negative, 'N')];
      returned := returned + [Letter(overflow, 'O')];
      returned := returned + [Letter(reserved, 'R')];
      returned := returned + [Letter(brk, 'B')];
      returned := returned + [Letter(decimal, 'D')];
      returned := returned + [Letter(interrupt, 'I')];
      returned := returned + [Letter(zero, 'Z')];
      returned := returned + [Letter(carry, 'C')];
      Concat8(Letter(negative, 'N'), Letter(overflow, 'O'), Letter(reserved, 'R'), Letter(brk, 'B'),
              Letter(decimal, 'D'), Letter(interrupt, 'I'), Letter(zero, 'Z'), Letter(carry, 'C'));
    }
  }
}
