/**
 * The disassembler: the text of one instruction as the emulator's trace shows
 * it. Numbers are zero-padded hexadecimal, an address or constant with a
 * symbol is shown by its name, and each addressing mode has its own operand
 * syntax. Memory is only read; a cell that holds nothing makes the text
 * undefined (None).
 */
module Disassembly {
  import opened Wrappers
  import opened Numerals
  import opened Bytes
  import opened Addressing
  import I = Instructions

  /** `new Array(n + 1).join(zero)`: n copies of zero. */
  function Repeat(zero: string, n: nat): (r: string)
    ensures |zero| == 1 ==> |r| == n && forall i :: 0 <= i < |r| ==> r[i] == zero[0]
  {
    if n == 0 then "" else zero + Repeat(zero, n - 1)
  }

  /**
   * pad: the value in the given base, preceded by copies of zero up to the
   * width; a conversion at least as wide as the width is left alone.
   */
  function Pad(value: int, width: int, base: int := 10, zero: string := "0"): (r: string)
    requires 2 <= base <= 36
    ensures var converted := ToBase(value, base);
      |r| >= |converted| && r[|r| - |converted|..] == converted
    ensures var converted := ToBase(value, base);
      |zero| == 1 ==>
        |r| == (if |converted| >= width then |converted| else width)
        && forall i :: 0 <= i < |r| - |converted| ==> r[i] == zero[0]
  {
    var converted := ToBase(value, base);
    var length := |converted|;
    if length >= width then converted else Repeat(zero, width - length) + converted
  }

  /** Dump_ByteValue: two hexadecimal digits (more when the value needs them). */
  function DumpByteValue(value: int): string {
    Pad(value, 2, 16)
  }

  /** Dump_WordValue: four hexadecimal digits (more when the value needs them). */
  function DumpWordValue(value: int): string {
    Pad(value, 4, 16)
  }

  /** Zeros in front of digits do not change their value. */
  lemma {:induction false} LeadingZerosValue(z: string, s: string, radix: int)
    requires forall i :: 0 <= i < |z| ==> z[i] == '0'
    ensures DigitsValue(z + s, radix) == DigitsValue(s, radix)
    decreases |s|
  {
    if |s| == 0 {
      ZerosValue(z, radix);
      assert z + s == z;
    } else {
      var t := z + s;
      assert t[..|t| - 1] == z + s[..|s| - 1];
      assert t[|t| - 1] == s[|s| - 1];
      LeadingZerosValue(z, s[..|s| - 1], radix);
    }
  }

  /** A string of zeros is worth zero. */
  lemma {:induction false} ZerosValue(z: string, radix: int)
    requires forall i :: 0 <= i < |z| ==> z[i] == '0'
    ensures DigitsValue(z, radix) == 0
    decreases |z|
  {
    if |z| > 0 {
      ZerosValue(z[..|z| - 1], radix);
    }
  }

  /** A zero-padded non-negative number is a numeral worth the number: the padding is made of digits worth nothing. */
  lemma PadNumeral(value: nat, width: int, radix: int)
    requires radix == 10 || radix == 16
    ensures Numeral(Pad(value, width, radix), radix, value)
  {
    var digits := NatToBase(value, radix);
    assert ToBase(value, radix) == digits;
    var padded := Pad(value, width, radix);
    var z := padded[..|padded| - |digits|];
    assert forall i :: 0 <= i < |z| ==> z[i] == '0';
    assert padded == z + digits;
    NatToBaseNumeral(value, radix);
    ZerosThenNumeral(z, digits, radix, value);
  }

  /** Zeros in front of a numeral leave a numeral worth the same. */
  lemma ZerosThenNumeral(z: string, digits: string, radix: int, v: int)
    requires radix == 10 || radix == 16
    requires forall i :: 0 <= i < |z| ==> z[i] == '0'
    requires Numeral(digits, radix, v)
    ensures Numeral(z + digits, radix, v)
  {
    LeadingZerosValue(z, digits, radix);
    var t := z + digits;
    forall i | 0 <= i < |t|
      ensures IsDigit(t[i], radix)
    {
      if i >= |z| {
        assert t[i] == digits[i - |z|];
      }
    }
  }

  /** A zero-padded non-negative number reads back as itself with parseInt. */
  lemma PadRoundTrip(value: nat, width: int, radix: int)
    requires radix == 10 || radix == 16
    ensures ParseInt(Pad(value, width, radix), radix) == Number(value)
  {
    PadNumeral(value, width, radix);
    ParseIntNumeral(Pad(value, width, radix), radix, value);
  }

  /** A byte is dumped as exactly two hexadecimal digits worth the byte. */
  lemma DumpByteValueDigits(value: int)
    requires 0 <= value <= 0xff
    ensures |DumpByteValue(value)| == 2 && Numeral(DumpByteValue(value), 16, value)
  {
    assert Power(16, 2) == 0x100;
    NatToBaseLength(value, 16, 2);
    PadNumeral(value, 2, 16);
  }

  /** A word is dumped as exactly four hexadecimal digits worth the word. */
  lemma DumpWordValueDigits(value: int)
    requires 0 <= value <= 0xffff
    ensures |DumpWordValue(value)| == 4 && Numeral(DumpWordValue(value), 16, value)
  {
    assert Power(16, 4) == 0x1_0000;
    NatToBaseLength(value, 16, 4);
    PadNumeral(value, 4, 16);
  }

  /** A dumped byte reads back as the byte with parseInt. */
  lemma DumpByteValueRoundTrip(value: int)
    requires 0 <= value <= 0xff
    ensures ParseInt(DumpByteValue(value), 16) == Number(value)
  {
    DumpByteValueDigits(value);
    ParseIntNumeral(DumpByteValue(value), 16, value);
  }

  /** A dumped word reads back as the word with parseInt. */
  lemma DumpWordValueRoundTrip(value: int)
    requires 0 <= value <= 0xffff
    ensures ParseInt(DumpWordValue(value), 16) == Number(value)
  {
    DumpWordValueDigits(value);
    ParseIntNumeral(DumpWordValue(value), 16, value);
  }

  /** The number of operand bytes each mode's byte dumper shows. */
  function OperandBytes(mode: I.AddressingMode): nat {
    match mode
    case Illegal | Implied | Accumulator => 0
    case Immediate | Relative | XIndexed | IndexedY | ZeroPageIndirect | ZeroPage | ZeroPageX | ZeroPageY => 1
    case Absolute | AbsoluteX | AbsoluteY | AbsoluteXIndirect | Indirect | ZeroPageRelative => 2
  }

  /** What each mode's operand text starts with. */
  function OperandPrefix(mode: I.AddressingMode): string {
    match mode
    case Immediate => "#"
    case XIndexed | IndexedY | ZeroPageIndirect | AbsoluteXIndirect | Indirect => "("
    case _ => ""
  }

  /** What each mode's operand text ends with. */
  function OperandSuffix(mode: I.AddressingMode): string {
    match mode
    case Accumulator => "A"
    case XIndexed | AbsoluteXIndirect => ",X)"
    case IndexedY => "),Y"
    case ZeroPageIndirect | Indirect => ")"
    case ZeroPageX | AbsoluteX => ",X"
    case ZeroPageY | AbsoluteY => ",Y"
    case _ => ""
  }

  /** prefix + inner + suffix starts with the prefix and ends with the suffix. */
  function Decorate(prefix: string, inner: string, suffix: string): (r: string)
    ensures |r| == |prefix| + |inner| + |suffix|
    ensures r[..|prefix|] == prefix && r[|r| - |suffix|..] == suffix
  {
    prefix + inner + suffix
  }

  /** The branch target BBR/BBS take: past both operand bytes, by the unsigned displacement. */
  function BitBranchTarget(current: int, displacement: int): int {
    current + 2 + displacement
  }

  /** The branch target a taken Bxx/BRA takes: past the operand byte, by the signed displacement. */
  function BranchTarget(current: int, displacement: int): int {
    current + 1 + SignedByte(displacement)
  }

  /**
   * The memory the disassembler reads, the processor's instruction table, and
   * the symbols: labels by address and constants by value, both keyed by the
   * number that parseInt produced.
   */
  datatype Disassembler = Disassembler(
    cells: map<int, int>,
    instructions: seq<I.Instruction>,
    labels: map<JsNumber, string>,
    constants: map<JsNumber, string>)
  {
    /** The operand cells of an instruction in the mode, from current on, all hold something. */
    predicate OperandDefined(mode: I.AddressingMode, current: int) {
      var n := OperandBytes(mode);
      (n >= 1 ==> current in cells) && (n == 2 ==> current + 1 in cells)
    }

    /** The operand cells of an instruction in the mode, from current on, all hold a byte. */
    predicate OperandHoldsBytes(mode: I.AddressingMode, current: int) {
      var n := OperandBytes(mode);
      (n >= 1 ==> current in cells && 0 <= cells[current] <= 0xff)
      && (n == 2 ==> current + 1 in cells && 0 <= cells[current + 1] <= 0xff)
    }

    /** GetByte. */
    function ByteAt(address: int): (r: Option<int>)
      ensures r.Some? <==> address in cells
      ensures r.Some? ==> r.value == cells[address]
    {
      if address in cells then Some(cells[address]) else None
    }

    /** GetWord: the little-endian word at address. */
    function WordAtAddress(address: int): (r: Option<int>)
      ensures r.Some? <==> WordDefined(cells, address)
      ensures r.Some? && 0 <= cells[address] <= 0xff && 0 <= cells[address + 1] <= 0xff ==>
        0 <= r.value <= 0xffff && LowByte(r.value) == cells[address] && HighByte(r.value) == cells[address + 1]
    {
      if WordDefined(cells, address) then
        var w := WordAt(cells, address);
        assert 0 <= cells[address] <= 0xff && 0 <= cells[address + 1] <= 0xff ==>
          0 <= w <= 0xffff && LowByte(w) == cells[address] && HighByte(w) == cells[address + 1] by {
          if 0 <= cells[address] <= 0xff && 0 <= cells[address + 1] <= 0xff {
            BytesRoundTrip(cells[address], cells[address + 1]);
          }
        }
        Some(w)
      else None
    }

    /** ConvertWordAddress: the label of the address, or "$" and four hexadecimal digits. */
    function ConvertWordAddress(address: int): (r: string)
      ensures Number(address) in labels ==> r == labels[Number(address)]
      ensures Number(address) !in labels ==> |r| > 0 && r[0] == '$' && r[1..] == DumpWordValue(address)
    {
      if Number(address) in labels then labels[Number(address)] else "$" + DumpWordValue(address)
    }

    /** ConvertByteAddress: the label of the address, or "$" and two hexadecimal digits. */
    function ConvertByteAddress(address: int): (r: string)
      ensures Number(address) in labels ==> r == labels[Number(address)]
      ensures Number(address) !in labels ==> |r| > 0 && r[0] == '$' && r[1..] == DumpByteValue(address)
    {
      if Number(address) in labels then labels[Number(address)] else "$" + DumpByteValue(address)
    }

    /** ConvertByteConstant: the name of the constant, or "$" and two hexadecimal digits. */
    function ConvertByteConstant(constant: int): (r: string)
      ensures Number(constant) in constants ==> r == constants[Number(constant)]
      ensures Number(constant) !in constants ==> |r| > 0 && r[0] == '$' && r[1..] == DumpByteValue(constant)
    {
      if Number(constant) in constants then constants[Number(constant)] else "$" + DumpByteValue(constant)
    }

    /**
     * DumpBytes: the operand bytes after the opcode as hexadecimal pairs
     * (Dump_Byte, or Dump_DByte for two), none, one or two according to the
     * mode.
     */
    function DumpBytes(mode: I.AddressingMode, current: int): (r: Option<string>)
      ensures r.Some? <==> OperandDefined(mode, current)
    {
      if OperandBytes(mode) == 0 then Some("")
      else if current !in cells then None
      else if OperandBytes(mode) == 1 then Some(DumpByteValue(cells[current]))
      else if current + 1 !in cells then None
      else Some(DumpByteValue(cells[current]) + DumpByteValue(cells[current + 1]))
    }

    /**
     * DumpOperand: the operand text of the instruction whose operand bytes
     * start at current, in the syntax of its mode, with symbols in place of
     * the numbers that have them.
     */
    function DumpOperand(mode: I.AddressingMode, current: int): (r: Option<string>)
      ensures r.Some? <==> OperandDefined(mode, current)
    {
      if OperandBytes(mode) == 0 then Some(if mode == I.Accumulator then "A" else "")
      else if current !in cells then None
      else if OperandBytes(mode) == 1 then Some(ByteOperand(mode, current, cells[current]))
      else if current + 1 !in cells then None
      else if mode == I.ZeroPageRelative then Some(BitBranchOperand(current, cells[current], cells[current + 1]))
      else Some(WordOperand(mode, WordAt(cells, current)))
    }

    /**
     * The Dump_* formatters of the modes with one operand byte. Relative
     * targets are 1 + current + the operand byte taken as unsigned.
     */
    function ByteOperand(mode: I.AddressingMode, current: int, operand: int): (text: string)
      requires OperandBytes(mode) == 1
      ensures |text| >= |OperandPrefix(mode)| + |OperandSuffix(mode)|
      ensures text[..|OperandPrefix(mode)|] == OperandPrefix(mode)
      ensures text[|text| - |OperandSuffix(mode)|..] == OperandSuffix(mode)
    {
      match mode
      case Immediate => Decorate("#", ConvertByteConstant(operand), "")
      case ZeroPage => ConvertByteAddress(operand)
      case ZeroPageX => Decorate("", ConvertByteAddress(operand), ",X")
      case ZeroPageY => Decorate("", ConvertByteAddress(operand), ",Y")
      case XIndexed => Decorate("(", ConvertByteAddress(operand), ",X)")
      case IndexedY => Decorate("(", ConvertByteAddress(operand), "),Y")
      case ZeroPageIndirect => Decorate("(", ConvertByteAddress(operand), ")")
      case Relative => ConvertWordAddress(1 + current + operand)
    }

    /** The Dump_* formatters of the modes whose operand is a word. */
    function WordOperand(mode: I.AddressingMode, address: int): (text: string)
      requires OperandBytes(mode) == 2 && mode != I.ZeroPageRelative
      ensures |text| >= |OperandPrefix(mode)| + |OperandSuffix(mode)|
      ensures text[..|OperandPrefix(mode)|] == OperandPrefix(mode)
      ensures text[|text| - |OperandSuffix(mode)|..] == OperandSuffix(mode)
    {
      match mode
      case Absolute => ConvertWordAddress(address)
      case AbsoluteX => Decorate("", ConvertWordAddress(address), ",X")
      case AbsoluteY => Decorate("", ConvertWordAddress(address), ",Y")
      case AbsoluteXIndirect => Decorate("(", ConvertWordAddress(address), ",X)")
      case Indirect => Decorate("(", ConvertWordAddress(address), ")")
    }

    /**
     * Dump_zprel: the zero-page operand, a comma, and the target
     * 1 + current + the displacement taken as unsigned.
     */
    function BitBranchOperand(current: int, zp: int, displacement: int): string {
      ConvertByteAddress(zp) + "," + ConvertWordAddress(1 + current + displacement)
    }

    /**
     * Disassemble: "label: mnemonic operand" for an address with a label,
     * "mnemonic operand" otherwise. The text is undefined when the opcode
     * cell holds nothing, holds no table index, or an operand cell holds
     * nothing.
     */
    function Disassemble(current: int): (r: Option<string>)
      ensures r.Some? <==>
        current in cells && 0 <= cells[current] < |instructions|
        && OperandDefined(instructions[cells[current]].mode, current + 1)
      ensures r.Some? ==>
        var instruction := instructions[cells[current]];
        var body := instruction.display + " " + DumpOperand(instruction.mode, current + 1).value;
        if Number(current) in labels then r.value == labels[Number(current)] + ": " + body
        else r.value == body
    {
      var content :- ByteAt(current);
      if !(0 <= content < |instructions|) then None
      else
        var instruction := instructions[content];
        var operand :- DumpOperand(instruction.mode, current + 1);
        var body := instruction.display + " " + operand;
        if Number(current) in labels then Some(labels[Number(current)] + ": " + body) else Some(body)
    }
  }

  /** An address without a label is shown as "$" and four hexadecimal digits worth the address. */
  lemma ConvertWordAddressDigits(d: Disassembler, address: int)
    requires Number(address) !in d.labels && 0 <= address <= 0xffff
    ensures var r := d.ConvertWordAddress(address);
      |r| == 5 && r[0] == '$' && Numeral(r[1..], 16, address)
  {
    DumpWordValueDigits(address);
  }

  /** A zero-page address without a label is shown as "$" and two hexadecimal digits worth the address. */
  lemma ConvertByteAddressDigits(d: Disassembler, address: int)
    requires Number(address) !in d.labels && 0 <= address <= 0xff
    ensures var r := d.ConvertByteAddress(address);
      |r| == 3 && r[0] == '$' && Numeral(r[1..], 16, address)
  {
    DumpByteValueDigits(address);
  }

  /** A constant without a name is shown as "$" and two hexadecimal digits worth the constant. */
  lemma ConvertByteConstantDigits(d: Disassembler, constant: int)
    requires Number(constant) !in d.constants && 0 <= constant <= 0xff
    ensures var r := d.ConvertByteConstant(constant);
      |r| == 3 && r[0] == '$' && Numeral(r[1..], 16, constant)
  {
    DumpByteValueDigits(constant);
  }

  /**
   * The byte dump of an operand has two hexadecimal digits per operand byte
   * of the mode, and each pair is worth its byte.
   */
  lemma DumpBytesDigits(d: Disassembler, mode: I.AddressingMode, current: int)
    requires d.OperandHoldsBytes(mode, current)
    ensures var n, r := OperandBytes(mode), d.DumpBytes(mode, current).value;
      |r| == 2 * n
      && (n == 1 ==> Numeral(r, 16, d.cells[current]))
      && (n == 2 ==> Numeral(r[..2], 16, d.cells[current]) && Numeral(r[2..], 16, d.cells[current + 1]))
  {
    var n := OperandBytes(mode);
    if n == 1 {
      DumpOneByteDigits(d, mode, current);
    } else if n == 2 {
      DumpTwoBytesDigits(d, mode, current);
    }
  }

  /** The one-byte case of DumpBytesDigits. */
  lemma DumpOneByteDigits(d: Disassembler, mode: I.AddressingMode, current: int)
    requires OperandBytes(mode) == 1 && d.OperandHoldsBytes(mode, current)
    ensures var r := d.DumpBytes(mode, current).value;
      |r| == 2 && Numeral(r, 16, d.cells[current])
  {
    DumpByteValueDigits(d.cells[current]);
  }

  /** The two-byte case of DumpBytesDigits. */
  lemma DumpTwoBytesDigits(d: Disassembler, mode: I.AddressingMode, current: int)
    requires OperandBytes(mode) == 2 && d.OperandHoldsBytes(mode, current)
    ensures var r := d.DumpBytes(mode, current).value;
      |r| == 4 && Numeral(r[..2], 16, d.cells[current]) && Numeral(r[2..], 16, d.cells[current + 1])
  {
    var a, b := d.cells[current], d.cells[current + 1];
    DumpTwoBytesText(d, mode, current);
    PairNumerals(DumpByteValue(a), DumpByteValue(b), a, b);
  }

  /** The two-byte dump is the dump of each byte in turn. */
  lemma DumpTwoBytesText(d: Disassembler, mode: I.AddressingMode, current: int)
    requires OperandBytes(mode) == 2 && d.OperandHoldsBytes(mode, current)
    ensures d.DumpBytes(mode, current) == Some(DumpByteValue(d.cells[current]) + DumpByteValue(d.cells[current + 1]))
  {
  }

  /** Two two-digit numerals side by side split back into the two. */
  lemma PairNumerals(x: string, y: string, a: int, b: int)
    requires x == DumpByteValue(a) && y == DumpByteValue(b) && 0 <= a <= 0xff && 0 <= b <= 0xff
    ensures |x + y| == 4 && Numeral((x + y)[..2], 16, a) && Numeral((x + y)[2..], 16, b)
  {
    DumpByteValueDigits(a);
    DumpByteValueDigits(b);
    SplitAfter(x, y);
  }

  /** a + b splits back into a and b. */
  lemma SplitAfter(a: string, b: string)
    ensures (a + b)[..|a|] == a && (a + b)[|a|..] == b
  {
  }

  /**
   * The operand text of every mode starts with the mode's prefix and ends
   * with its suffix: "#" for immediate, "(" ... ",X)", "(" ... "),Y" and
   * "(" ... ")" for the indirect modes, ",X" and ",Y" for the indexed ones.
   */
  lemma OperandSyntax(d: Disassembler, mode: I.AddressingMode, current: int)
    requires d.OperandDefined(mode, current)
    ensures var text, prefix, suffix := d.DumpOperand(mode, current).value, OperandPrefix(mode), OperandSuffix(mode);
      |text| >= |prefix| + |suffix| && text[..|prefix|] == prefix && text[|text| - |suffix|..] == suffix
  {
    var text := d.DumpOperand(mode, current).value;
    if OperandBytes(mode) == 0 {
      assert OperandPrefix(mode) == "";
    } else if OperandBytes(mode) == 1 {
      assert text == d.ByteOperand(mode, current, d.cells[current]);
    } else if mode == I.ZeroPageRelative {
      assert OperandPrefix(mode) == "" && OperandSuffix(mode) == "";
    } else {
      assert text == d.WordOperand(mode, WordAt(d.cells, current));
    }
  }

  /**
   * The relative operand a Bxx/BRA shows is where the processor branches to
   * for a forward displacement, and 256 bytes past it for a backward one: the
   * disassembler does not sign-extend the displacement as the processor does.
   */
  lemma RelativeOperandTarget(d: Disassembler, current: int)
    requires current in d.cells && 0 <= d.cells[current] <= 0xff
    ensures var displacement := d.cells[current];
      var shown := BranchTarget(current, displacement) + (if displacement < 0x80 then 0 else 0x100);
      d.DumpOperand(I.Relative, current) == Some(d.ConvertWordAddress(shown))
  {
    var displacement := d.cells[current];
    assert SignedByte(displacement) == if displacement < 0x80 then displacement else displacement - 0x100;
  }

  /**
   * The branch target a BBR/BBS operand shows is one byte short of where the
   * processor branches to: the text adds the displacement to the address of
   * the zero-page byte plus one, the processor to the address after both
   * operand bytes.
   */
  lemma BitBranchOperandTarget(d: Disassembler, current: int)
    requires current in d.cells && current + 1 in d.cells
    ensures var zp, displacement := d.cells[current], d.cells[current + 1];
      d.DumpOperand(I.ZeroPageRelative, current)
        == Some(d.ConvertByteAddress(zp) + "," + d.ConvertWordAddress(BitBranchTarget(current, displacement) - 1))
  {
  }
}
