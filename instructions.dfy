/**
 * The instruction descriptors of the processor and its three opcode tables:
 * the NMOS 6502 table every processor starts from and the 65SC02 and 65C02
 * overlays that are laid on top of it, slot by slot, for the later parts.
 * Each table is written as a two-level match on the high and low nybble of
 * the opcode; every slot not listed holds the unfilled descriptor.
 */
module Instructions {
  import SR = StatusRegister

  /** The processor levels, in the order the level comparisons rely on. */
  datatype ProcessorType = Cpu6502 | Cpu65SC02 | Cpu65C02 {
    function Rank(): (r: nat)
      ensures r <= 2
    {
      match this
      case Cpu6502 => 0
      case Cpu65SC02 => 1
      case Cpu65C02 => 2
    }

    /** `level >= other` as the processor compares levels. */
    predicate AtLeast(other: ProcessorType) {
      Rank() >= other.Rank()
    }
  }

  datatype AddressingMode =
    | Illegal | Implied | Immediate | Relative | XIndexed | IndexedY
    | ZeroPageIndirect | ZeroPage | ZeroPageX | ZeroPageY
    | Absolute | AbsoluteX | AbsoluteY | AbsoluteXIndirect | Indirect
    | ZeroPageRelative | Accumulator

  /** Where a reading instruction takes its operand from (the ReadByte_* helpers). */
  datatype ReadFrom =
    | FromImmediate | FromZeroPage | FromZeroPageX | FromZeroPageY
    | FromAbsolute | FromAbsoluteX | FromAbsoluteY
    | FromIndexedIndirectX | FromIndirectIndexedY | FromZeroPageIndirect

  /** Where a writing or modifying instruction puts its result (the Address_* and WriteByte_* helpers). */
  datatype WriteTo =
    | ToZeroPage | ToZeroPageX | ToZeroPageY
    | ToAbsolute | ToAbsoluteX | ToAbsoluteY
    | ToIndexedIndirectX | ToIndirectIndexedY | ToZeroPageIndirect

  /** The operation a reading instruction applies to its operand. */
  datatype ReadOp =
    | Ora | And | Eor | Lda | Ldx | Ldy | Cmp | Cpx | Cpy | Adc | Sbc | Bit | BitImmediate

  datatype StoreValue = StoreA | StoreX | StoreY | StoreZero

  datatype ShiftOp = Asl | Lsr | Rol | Ror

  datatype Register = RegA | RegX | RegY | RegS

  /**
   * The handler of an opcode (the method an Instruction's vector points at),
   * grouped by the shared helper each handler calls. Flags are named; bits
   * are numbered as in the BBR/BBS/RMB/SMB opcodes.
   */
  datatype Handler =
    | Missing
    | Read(op: ReadOp, from: ReadFrom)
    | Store(stored: StoreValue, to: WriteTo)
    | ShiftAccumulator(shift: ShiftOp)
    | ShiftMemory(shift: ShiftOp, to: WriteTo)
    | IncrementRegister(reg: Register)
    | DecrementRegister(reg: Register)
    | IncrementMemory(to: WriteTo)
    | DecrementMemory(to: WriteTo)
    | Transfer(source: Register, target: Register)
    | Push(reg: Register)
    | Pull(reg: Register)
    | PushStatus
    | PullStatus
    | TestAndSet(to: WriteTo)
    | TestAndReset(to: WriteTo)
    | ResetMemoryBit(bit: nat)
    | SetMemoryBit(bit: nat)
    | JumpToSubroutine
    | ReturnFromInterrupt
    | ReturnFromSubroutine
    | Jump
    | JumpIndirect
    | JumpAbsoluteXIndirect
    | Break
    | Wait
    | Stop
    | SetFlag(flag: SR.StatusBit, value: bool)
    | BranchIf(flag: SR.StatusBit, whenSet: bool)
    | BranchAlways
    | BranchOnBit(bit: nat, whenSet: bool)
    | Nop
    | Nop2
    | Nop3

  /** An instruction descriptor: its handler, its base cycle count, its addressing mode and its mnemonic. */
  datatype Instruction = Instruction(vector: Handler, count: int, mode: AddressingMode, display: string)

  /** The descriptor of every slot the tables do not list. */
  const Unfilled := Instruction(Missing, 0, Illegal, "___")

  /**
   * A well-formed descriptor: the Missing handler exactly in the Illegal mode,
   * no negative cycle count and at least two cycles for every legal
   * instruction, and bit numbers within a byte.
   */
  predicate WellFormed(i: Instruction) {
    (i.mode == Illegal <==> i.vector == Missing) && i.count >= 0 && (i.mode != Illegal ==> i.count >= 2)
    && BitNumbered(i.vector)
  }

  /** The bit numbers a handler carries name one of the eight bits of a byte. */
  predicate BitNumbered(h: Handler) {
    match h
    case BranchOnBit(bit, _) => bit < 8
    case ResetMemoryBit(bit) => bit < 8
    case SetMemoryBit(bit) => bit < 8
    case _ => true
  }

  /** Whether the overlay slot is taken over (the overlay loop's `includeIllegal || !illegal`). */
  predicate Taken(newInstruction: Instruction, includeIllegal: bool) {
    includeIllegal || newInstruction.mode != Illegal
  }

  /** A table overlaid with another: every taken overlay slot replaces the base slot. */
  function Overlaid(base: seq<Instruction>, overlay: seq<Instruction>, includeIllegal: bool): (r: seq<Instruction>)
    requires |base| == 256 && |overlay| == 256
    ensures |r| == 256
    ensures forall i :: 0 <= i < 256 && Taken(overlay[i], includeIllegal) ==> r[i] == overlay[i]
    ensures forall i :: 0 <= i < 256 && !Taken(overlay[i], includeIllegal) ==> r[i] == base[i]
  {
    seq(256, i requires 0 <= i < 256 => if Taken(overlay[i], includeIllegal) then overlay[i] else base[i])
  }

  /** No taken overlay slot lands on a legal base slot: the overlay loop runs to the end without throwing. */
  predicate NoCollision(base: seq<Instruction>, overlay: seq<Instruction>, includeIllegal: bool)
    requires |base| == 256 && |overlay| == 256
  {
    forall i :: 0 <= i < 256 && Taken(overlay[i], includeIllegal) ==> base[i].mode == Illegal
  }

  function TableOf(table: int -> Instruction): (r: seq<Instruction>)
    ensures |r| == 256 && forall i :: 0 <= i < 256 ==> r[i] == table(i)
  {
    seq(256, i => table(i))
  }

  /** The table installed for a processor level: the NMOS basis, then each overlay its level admits. */
  function Installed(level: ProcessorType): (r: seq<Instruction>)
    ensures |r| == 256
  {
    var basis := TableOf(Nmos6502);
    var sc02 := if level.AtLeast(Cpu65SC02) then Overlaid(basis, TableOf(Overlay65SC02), false) else basis;
    if level.AtLeast(Cpu65C02) then Overlaid(sc02, TableOf(Overlay65C02), false) else sc02
  }

  /** The 65SC02 overlay only fills slots the NMOS table leaves illegal. */
  lemma NoCollision65SC02()
    ensures NoCollision(TableOf(Nmos6502), TableOf(Overlay65SC02), false)
  {
    NoCollision65SC02LowHalf();
    NoCollision65SC02HighHalf();
  }

  lemma NoCollision65SC02LowHalf()
    ensures forall op :: 0 <= op < 128 && Overlay65SC02(op).mode != Illegal ==> Nmos6502(op).mode == Illegal
  {
    forall op | 0 <= op < 128 && Overlay65SC02(op).mode != Illegal
      ensures Nmos6502(op).mode == Illegal
    {
      assert op == 16 * (op / 16) + op % 16;
    }
  }

  lemma NoCollision65SC02HighHalf()
    ensures forall op :: 128 <= op < 256 && Overlay65SC02(op).mode != Illegal ==> Nmos6502(op).mode == Illegal
  {
    forall op | 128 <= op < 256 && Overlay65SC02(op).mode != Illegal
      ensures Nmos6502(op).mode == Illegal
    {
      assert op == 16 * (op / 16) + op % 16;
    }
  }

  /** The 65C02 overlay only fills slots the NMOS table leaves illegal. */
  lemma NoCollision65C02OnNmos()
    ensures NoCollision(TableOf(Nmos6502), TableOf(Overlay65C02), false)
  {
    forall op | 0 <= op < 256 && Overlay65C02(op).mode != Illegal
      ensures Nmos6502(op).mode == Illegal
    {
      assert op == 16 * (op / 16) + op % 16;
    }
  }

  /** The 65C02 and 65SC02 overlays never fill the same slot. */
  lemma OverlaysDisjoint()
    ensures forall op :: 0 <= op < 256 && Overlay65C02(op).mode != Illegal ==> Overlay65SC02(op).mode == Illegal
  {
    forall op | 0 <= op < 256 && Overlay65C02(op).mode != Illegal
      ensures Overlay65SC02(op).mode == Illegal
    {
      assert op == 16 * (op / 16) + op % 16;
    }
  }

  /** The 65C02 overlay only fills slots that the NMOS table with the 65SC02 overlay leaves illegal. */
  lemma NoCollision65C02()
    ensures NoCollision(Overlaid(TableOf(Nmos6502), TableOf(Overlay65SC02), false), TableOf(Overlay65C02), false)
  {
    NoCollision65C02OnNmos();
    OverlaysDisjoint();
  }

  /** Every descriptor of the NMOS table is well formed. */
  lemma NmosWellFormed()
    ensures forall op :: 0 <= op < 256 ==> WellFormed(Nmos6502(op))
  {
    NmosFirstQuarterWellFormed();
    NmosSecondQuarterWellFormed();
    NmosThirdQuarterWellFormed();
    NmosFourthQuarterWellFormed();
  }

  lemma NmosFirstQuarterWellFormed()
    ensures forall op :: 0 <= op < 64 ==> WellFormed(Nmos6502(op))
  {
    forall op | 0 <= op < 64
      ensures WellFormed(Nmos6502(op))
    {
      assert op == 16 * (op / 16) + op % 16;
    }
  }

  lemma NmosSecondQuarterWellFormed()
    ensures forall op :: 64 <= op < 128 ==> WellFormed(Nmos6502(op))
  {
    forall op | 64 <= op < 128
      ensures WellFormed(Nmos6502(op))
    {
      assert op == 16 * (op / 16) + op % 16;
    }
  }

  lemma NmosThirdQuarterWellFormed()
    ensures forall op :: 128 <= op < 192 ==> WellFormed(Nmos6502(op))
  {
    forall op | 128 <= op < 192
      ensures WellFormed(Nmos6502(op))
    {
      assert op == 16 * (op / 16) + op % 16;
    }
  }

  lemma NmosFourthQuarterWellFormed()
    ensures forall op :: 192 <= op < 256 ==> WellFormed(Nmos6502(op))
  {
    forall op | 192 <= op < 256
      ensures WellFormed(Nmos6502(op))
    {
      assert op == 16 * (op / 16) + op % 16;
    }
  }

  /** Every descriptor of the 65SC02 overlay is well formed. */
  lemma Overlay65SC02WellFormed()
    ensures forall op :: 0 <= op < 256 ==> WellFormed(Overlay65SC02(op))
  {
    forall op | 0 <= op < 256
      ensures WellFormed(Overlay65SC02(op))
    {
      assert op == 16 * (op / 16) + op % 16;
    }
  }

  /** Every descriptor of the 65C02 overlay is well formed. */
  lemma Overlay65C02WellFormed()
    ensures forall op :: 0 <= op < 256 ==> WellFormed(Overlay65C02(op))
  {
    forall op | 0 <= op < 256
      ensures WellFormed(Overlay65C02(op))
    {
      assert op == 16 * (op / 16) + op % 16;
    }
  }

  /** Every installed descriptor is well formed, at every level. */
  lemma InstalledWellFormed(level: ProcessorType)
    ensures forall op :: 0 <= op < 256 ==> WellFormed(Installed(level)[op])
  {
    NmosWellFormed();
    Overlay65SC02WellFormed();
    Overlay65C02WellFormed();
  }

  /** Opcode 0xA9 is LDA immediate, two cycles, at every level: neither overlay takes its slot. */
  lemma LdaImmediateSlot(level: ProcessorType)
    ensures Installed(level)[0xA9] == Instruction(Read(Lda, FromImmediate), 2, Immediate, "LDA")
  {
    assert Nmos6502(0xA9) == Instruction(Read(Lda, FromImmediate), 2, Immediate, "LDA");
    assert !Taken(Overlay65SC02(0xA9), false) && !Taken(Overlay65C02(0xA9), false);
  }

  /** The NMOS 6502 table, the basis every processor starts from (opcode 0x00 .. 0xff). */
  function Nmos6502(op: int): Instruction {
    match op / 16
    case 0 => Nmos6502Row0(op % 16)
    case 1 => Nmos6502Row1(op % 16)
    case 2 => Nmos6502Row2(op % 16)
    case 3 => Nmos6502Row3(op % 16)
    case 4 => Nmos6502Row4(op % 16)
    case 5 => Nmos6502Row5(op % 16)
    case 6 => Nmos6502Row6(op % 16)
    case 7 => Nmos6502Row7(op % 16)
    case 8 => Nmos6502Row8(op % 16)
    case 9 => Nmos6502Row9(op % 16)
    case 10 => Nmos6502RowA(op % 16)
    case 11 => Nmos6502RowB(op % 16)
    case 12 => Nmos6502RowC(op % 16)
    case 13 => Nmos6502RowD(op % 16)
    case 14 => Nmos6502RowE(op % 16)
    case 15 => Nmos6502RowF(op % 16)
    case _ => Unfilled
  }

  function Nmos6502Row0(lo: int): Instruction {
    match lo
    case 0 => Instruction(Break, 7, Implied, "BRK")
    case 1 => Instruction(Read(Ora, FromIndexedIndirectX), 6, XIndexed, "ORA")
    case 5 => Instruction(Read(Ora, FromZeroPage), 4, ZeroPage, "ORA")
    case 6 => Instruction(ShiftMemory(Asl, ToZeroPage), 5, ZeroPage, "ASL")
    case 8 => Instruction(PushStatus, 3, Implied, "PHP")
    case 9 => Instruction(Read(Ora, FromImmediate), 2, Immediate, "ORA")
    case 10 => Instruction(ShiftAccumulator(Asl), 2, Accumulator, "ASL")
    case 13 => Instruction(Read(Ora, FromAbsolute), 4, Absolute, "ORA")
    case 14 => Instruction(ShiftMemory(Asl, ToAbsolute), 6, Absolute, "ASL")
    case _ => Unfilled
  }

  function Nmos6502Row1(lo: int): Instruction {
    match lo
    case 0 => Instruction(BranchIf(SR.Negative, false), 2, Relative, "BPL")
    case 1 => Instruction(Read(Ora, FromIndirectIndexedY), 5, IndexedY, "ORA")
    case 5 => Instruction(Read(Ora, FromZeroPageX), 4, ZeroPageX, "ORA")
    case 6 => Instruction(ShiftMemory(Asl, ToZeroPageX), 6, ZeroPageX, "ASL")
    case 8 => Instruction(SetFlag(SR.Carry, false), 2, Implied, "CLC")
    case 9 => Instruction(Read(Ora, FromAbsoluteY), 4, AbsoluteY, "ORA")
    case 13 => Instruction(Read(Ora, FromAbsoluteX), 4, AbsoluteX, "ORA")
    case 14 => Instruction(ShiftMemory(Asl, ToAbsoluteX), 7, AbsoluteX, "ASL")
    case _ => Unfilled
  }

  function Nmos6502Row2(lo: int): Instruction {
    match lo
    case 0 => Instruction(JumpToSubroutine, 6, Absolute, "JSR")
    case 1 => Instruction(Read(And, FromIndexedIndirectX), 6, XIndexed, "AND")
    case 4 => Instruction(Read(Bit, FromZeroPage), 3, ZeroPage, "BIT")
    case 5 => Instruction(Read(And, FromZeroPage), 3, ZeroPage, "AND")
    case 6 => Instruction(ShiftMemory(Rol, ToZeroPage), 5, ZeroPage, "ROL")
    case 8 => Instruction(PullStatus, 4, Implied, "PLP")
    case 9 => Instruction(Read(And, FromImmediate), 2, Immediate, "AND")
    case 10 => Instruction(ShiftAccumulator(Rol), 2, Accumulator, "ROL")
    case 12 => Instruction(Read(Bit, FromAbsolute), 4, Absolute, "BIT")
    case 13 => Instruction(Read(And, FromAbsolute), 4, Absolute, "AND")
    case 14 => Instruction(ShiftMemory(Rol, ToAbsolute), 6, Absolute, "ROL")
    case _ => Unfilled
  }

  function Nmos6502Row3(lo: int): Instruction {
    match lo
    case 0 => Instruction(BranchIf(SR.Negative, true), 2, Relative, "BMI")
    case 1 => Instruction(Read(And, FromIndirectIndexedY), 5, IndexedY, "AND")
    case 5 => Instruction(Read(And, FromZeroPageX), 4, ZeroPageX, "AND")
    case 6 => Instruction(ShiftMemory(Rol, ToZeroPageX), 6, ZeroPageX, "ROL")
    case 8 => Instruction(SetFlag(SR.Carry, true), 2, Implied, "SEC")
    case 9 => Instruction(Read(And, FromAbsoluteY), 4, AbsoluteY, "AND")
    case 13 => Instruction(Read(And, FromAbsoluteX), 4, AbsoluteX, "AND")
    case 14 => Instruction(ShiftMemory(Rol, ToAbsoluteX), 7, AbsoluteX, "ROL")
    case _ => Unfilled
  }

  function Nmos6502Row4(lo: int): Instruction {
    match lo
    case 0 => Instruction(ReturnFromInterrupt, 6, Implied, "RTI")
    case 1 => Instruction(Read(Eor, FromIndexedIndirectX), 6, XIndexed, "EOR")
    case 5 => Instruction(Read(Eor, FromZeroPage), 3, ZeroPage, "EOR")
    case 6 => Instruction(ShiftMemory(Lsr, ToZeroPage), 5, ZeroPage, "LSR")
    case 8 => Instruction(Push(RegA), 3, Implied, "PHA")
    case 9 => Instruction(Read(Eor, FromImmediate), 2, Immediate, "EOR")
    case 10 => Instruction(ShiftAccumulator(Lsr), 2, Accumulator, "LSR")
    case 12 => Instruction(Jump, 3, Absolute, "JMP")
    case 13 => Instruction(Read(Eor, FromAbsolute), 4, Absolute, "EOR")
    case 14 => Instruction(ShiftMemory(Lsr, ToAbsolute), 6, Absolute, "LSR")
    case _ => Unfilled
  }

  function Nmos6502Row5(lo: int): Instruction {
    match lo
    case 0 => Instruction(BranchIf(SR.Overflow, false), 2, Relative, "BVC")
    case 1 => Instruction(Read(Eor, FromIndirectIndexedY), 5, IndexedY, "EOR")
    case 5 => Instruction(Read(Eor, FromZeroPageX), 4, ZeroPageX, "EOR")
    case 6 => Instruction(ShiftMemory(Lsr, ToZeroPageX), 6, ZeroPageX, "LSR")
    case 8 => Instruction(SetFlag(SR.Interrupt, false), 2, Implied, "CLI")
    case 9 => Instruction(Read(Eor, FromAbsoluteY), 4, AbsoluteY, "EOR")
    case 13 => Instruction(Read(Eor, FromAbsoluteX), 4, AbsoluteX, "EOR")
    case 14 => Instruction(ShiftMemory(Lsr, ToAbsoluteX), 7, AbsoluteX, "LSR")
    case _ => Unfilled
  }

  function Nmos6502Row6(lo: int): Instruction {
    match lo
    case 0 => Instruction(ReturnFromSubroutine, 6, Implied, "RTS")
    case 1 => Instruction(Read(Adc, FromIndexedIndirectX), 6, XIndexed, "ADC")
    case 5 => Instruction(Read(Adc, FromZeroPage), 3, ZeroPage, "ADC")
    case 6 => Instruction(ShiftMemory(Ror, ToZeroPage), 5, ZeroPage, "ROR")
    case 8 => Instruction(Pull(RegA), 4, Implied, "PLA")
    case 9 => Instruction(Read(Adc, FromImmediate), 2, Immediate, "ADC")
    case 10 => Instruction(ShiftAccumulator(Ror), 2, Accumulator, "ROR")
    case 12 => Instruction(JumpIndirect, 5, Indirect, "JMP")
    case 13 => Instruction(Read(Adc, FromAbsolute), 4, Absolute, "ADC")
    case 14 => Instruction(ShiftMemory(Ror, ToAbsolute), 6, Absolute, "ROR")
    case _ => Unfilled
  }

  function Nmos6502Row7(lo: int): Instruction {
    match lo
    case 0 => Instruction(BranchIf(SR.Overflow, true), 2, Relative, "BVS")
    case 1 => Instruction(Read(Adc, FromIndirectIndexedY), 5, IndexedY, "ADC")
    case 5 => Instruction(Read(Adc, FromZeroPageX), 4, ZeroPageX, "ADC")
    case 6 => Instruction(ShiftMemory(Ror, ToZeroPageX), 6, ZeroPageX, "ROR")
    case 8 => Instruction(SetFlag(SR.Interrupt, true), 2, Implied, "SEI")
    case 9 => Instruction(Read(Adc, FromAbsoluteY), 4, AbsoluteY, "ADC")
    case 13 => Instruction(Read(Adc, FromAbsoluteX), 4, AbsoluteX, "ADC")
    case 14 => Instruction(ShiftMemory(Ror, ToAbsoluteX), 7, AbsoluteX, "ROR")
    case _ => Unfilled
  }

  function Nmos6502Row8(lo: int): Instruction {
    match lo
    case 1 => Instruction(Store(StoreA, ToIndexedIndirectX), 6, XIndexed, "STA")
    case 4 => Instruction(Store(StoreY, ToZeroPage), 3, ZeroPage, "STY")
    case 5 => Instruction(Store(StoreA, ToZeroPage), 3, ZeroPage, "STA")
    case 6 => Instruction(Store(StoreX, ToZeroPage), 3, ZeroPage, "STX")
    case 8 => Instruction(DecrementRegister(RegY), 2, Implied, "DEY")
    case 10 => Instruction(Transfer(RegX, RegA), 2, Implied, "TXA")
    case 12 => Instruction(Store(StoreY, ToAbsolute), 4, Absolute, "STY")
    case 13 => Instruction(Store(StoreA, ToAbsolute), 4, Absolute, "STA")
    case 14 => Instruction(Store(StoreX, ToAbsolute), 4, Absolute, "STX")
    case _ => Unfilled
  }

  function Nmos6502Row9(lo: int): Instruction {
    match lo
    case 0 => Instruction(BranchIf(SR.Carry, false), 2, Relative, "BCC")
    case 1 => Instruction(Store(StoreA, ToIndirectIndexedY), 6, IndexedY, "STA")
    case 4 => Instruction(Store(StoreY, ToZeroPageX), 4, ZeroPageX, "STY")
    case 5 => Instruction(Store(StoreA, ToZeroPageX), 4, ZeroPageX, "STA")
    case 6 => Instruction(Store(StoreX, ToZeroPageY), 4, ZeroPageY, "STX")
    case 8 => Instruction(Transfer(RegY, RegA), 2, Implied, "TYA")
    case 9 => Instruction(Store(StoreA, ToAbsoluteY), 5, AbsoluteY, "STA")
    case 10 => Instruction(Transfer(RegX, RegS), 2, Implied, "TXS")
    case 13 => Instruction(Store(StoreA, ToAbsoluteX), 5, AbsoluteX, "STA")
    case _ => Unfilled
  }

  function Nmos6502RowA(lo: int): Instruction {
    match lo
    case 0 => Instruction(Read(Ldy, FromImmediate), 2, Immediate, "LDY")
    case 1 => Instruction(Read(Lda, FromIndexedIndirectX), 6, XIndexed, "LDA")
    case 2 => Instruction(Read(Ldx, FromImmediate), 2, Immediate, "LDX")
    case 4 => Instruction(Read(Ldy, FromZeroPage), 3, ZeroPage, "LDY")
    case 5 => Instruction(Read(Lda, FromZeroPage), 3, ZeroPage, "LDA")
    case 6 => Instruction(Read(Ldx, FromZeroPage), 3, ZeroPage, "LDX")
    case 8 => Instruction(Transfer(RegA, RegY), 2, Implied, "TAY")
    case 9 => Instruction(Read(Lda, FromImmediate), 2, Immediate, "LDA")
    case 10 => Instruction(Transfer(RegA, RegX), 2, Implied, "TAX")
    case 12 => Instruction(Read(Ldy, FromAbsolute), 4, Absolute, "LDY")
    case 13 => Instruction(Read(Lda, FromAbsolute), 4, Absolute, "LDA")
    case 14 => Instruction(Read(Ldx, FromAbsolute), 4, Absolute, "LDX")
    case _ => Unfilled
  }

  function Nmos6502RowB(lo: int): Instruction {
    match lo
    case 0 => Instruction(BranchIf(SR.Carry, true), 2, Relative, "BCS")
    case 1 => Instruction(Read(Lda, FromIndirectIndexedY), 5, IndexedY, "LDA")
    case 4 => Instruction(Read(Ldy, FromZeroPageX), 4, ZeroPageX, "LDY")
    case 5 => Instruction(Read(Lda, FromZeroPageX), 4, ZeroPageX, "LDA")
    case 6 => Instruction(Read(Ldx, FromZeroPageY), 4, ZeroPageY, "LDX")
    case 8 => Instruction(SetFlag(SR.Overflow, false), 2, Implied, "CLV")
    case 9 => Instruction(Read(Lda, FromAbsoluteY), 4, AbsoluteY, "LDA")
    case 10 => Instruction(Transfer(RegS, RegX), 2, Implied, "TSX")
    case 12 => Instruction(Read(Ldy, FromAbsoluteX), 4, AbsoluteX, "LDY")
    case 13 => Instruction(Read(Lda, FromAbsoluteX), 4, AbsoluteX, "LDA")
    case 14 => Instruction(Read(Ldx, FromAbsoluteY), 4, AbsoluteY, "LDX")
    case _ => Unfilled
  }

  function Nmos6502RowC(lo: int): Instruction {
    match lo
    case 0 => Instruction(Read(Cpy, FromImmediate), 2, Immediate, "CPY")
    case 1 => Instruction(Read(Cmp, FromIndexedIndirectX), 6, XIndexed, "CMP")
    case 4 => Instruction(Read(Cpy, FromZeroPage), 3, ZeroPage, "CPY")
    case 5 => Instruction(Read(Cmp, FromZeroPage), 3, ZeroPage, "CMP")
    case 6 => Instruction(DecrementMemory(ToZeroPage), 5, ZeroPage, "DEC")
    case 8 => Instruction(IncrementRegister(RegY), 2, Implied, "INY")
    case 9 => Instruction(Read(Cmp, FromImmediate), 2, Immediate, "CMP")
    case 10 => Instruction(DecrementRegister(RegX), 2, Implied, "DEX")
    case 12 => Instruction(Read(Cpy, FromAbsolute), 4, Absolute, "CPY")
    case 13 => Instruction(Read(Cmp, FromAbsolute), 4, Absolute, "CMP")
    case 14 => Instruction(DecrementMemory(ToAbsolute), 6, Absolute, "DEC")
    case _ => Unfilled
  }

  function Nmos6502RowD(lo: int): Instruction {
    match lo
    case 0 => Instruction(BranchIf(SR.Zero, false), 2, Relative, "BNE")
    case 1 => Instruction(Read(Cmp, FromIndirectIndexedY), 5, IndexedY, "CMP")
    case 5 => Instruction(Read(Cmp, FromZeroPageX), 4, ZeroPageX, "CMP")
    case 6 => Instruction(DecrementMemory(ToZeroPageX), 6, ZeroPageX, "DEC")
    case 8 => Instruction(SetFlag(SR.Decimal, false), 2, Implied, "CLD")
    case 9 => Instruction(Read(Cmp, FromAbsoluteY), 4, AbsoluteY, "CMP")
    case 13 => Instruction(Read(Cmp, FromAbsoluteX), 4, AbsoluteX, "CMP")
    case 14 => Instruction(DecrementMemory(ToAbsoluteX), 7, AbsoluteX, "DEC")
    case _ => Unfilled
  }

  function Nmos6502RowE(lo: int): Instruction {
    match lo
    case 0 => Instruction(Read(Cpx, FromImmediate), 2, Immediate, "CPX")
    case 1 => Instruction(Read(Sbc, FromIndexedIndirectX), 6, XIndexed, "SBC")
    case 4 => Instruction(Read(Cpx, FromZeroPage), 3, ZeroPage, "CPX")
    case 5 => Instruction(Read(Sbc, FromZeroPage), 3, ZeroPage, "SBC")
    case 6 => Instruction(IncrementMemory(ToZeroPage), 5, ZeroPage, "INC")
    case 8 => Instruction(IncrementRegister(RegX), 2, Implied, "INX")
    case 9 => Instruction(Read(Sbc, FromImmediate), 2, Immediate, "SBC")
    case 10 => Instruction(Nop, 2, Implied, "NOP")
    case 12 => Instruction(Read(Cpx, FromAbsolute), 4, Absolute, "CPX")
    case 13 => Instruction(Read(Sbc, FromAbsolute), 4, Absolute, "SBC")
    case 14 => Instruction(IncrementMemory(ToAbsolute), 6, Absolute, "INC")
    case _ => Unfilled
  }

  function Nmos6502RowF(lo: int): Instruction {
    match lo
    case 0 => Instruction(BranchIf(SR.Zero, true), 2, Relative, "BEQ")
    case 1 => Instruction(Read(Sbc, FromIndirectIndexedY), 5, IndexedY, "SBC")
    case 5 => Instruction(Read(Sbc, FromZeroPageX), 4, ZeroPageX, "SBC")
    case 6 => Instruction(IncrementMemory(ToZeroPageX), 6, ZeroPageX, "INC")
    case 8 => Instruction(SetFlag(SR.Decimal, true), 2, Implied, "SED")
    case 9 => Instruction(Read(Sbc, FromAbsoluteY), 4, AbsoluteY, "SBC")
    case 13 => Instruction(Read(Sbc, FromAbsoluteX), 4, AbsoluteX, "SBC")
    case 14 => Instruction(IncrementMemory(ToAbsoluteX), 7, AbsoluteX, "INC")
    case _ => Unfilled
  }

  /** The 65SC02 overlay: the opcodes the 65SC02 adds to the NMOS table. */
  function Overlay65SC02(op: int): Instruction {
    match op / 16
    case 0 => Overlay65SC02Row0(op % 16)
    case 1 => Overlay65SC02Row1(op % 16)
    case 2 => Overlay65SC02Row2(op % 16)
    case 3 => Overlay65SC02Row3(op % 16)
    case 4 => Overlay65SC02Row4(op % 16)
    case 5 => Overlay65SC02Row5(op % 16)
    case 6 => Overlay65SC02Row6(op % 16)
    case 7 => Overlay65SC02Row7(op % 16)
    case 8 => Overlay65SC02Row8(op % 16)
    case 9 => Overlay65SC02Row9(op % 16)
    case 10 => Overlay65SC02RowA(op % 16)
    case 11 => Overlay65SC02RowB(op % 16)
    case 12 => Overlay65SC02RowC(op % 16)
    case 13 => Overlay65SC02RowD(op % 16)
    case 14 => Overlay65SC02RowE(op % 16)
    case 15 => Overlay65SC02RowF(op % 16)
    case _ => Unfilled
  }

  function Overlay65SC02Row0(lo: int): Instruction {
    match lo
    case 2 => Instruction(Nop2, 2, Implied, "___")
    case 4 => Instruction(TestAndSet(ToZeroPage), 5, ZeroPage, "TSB")
    case 9 => Instruction(Missing, 2, Illegal, "___")
    case 10 => Instruction(Missing, 2, Illegal, "___")
    case 12 => Instruction(TestAndSet(ToAbsolute), 6, Absolute, "TSB")
    case 13 => Instruction(Missing, 2, Illegal, "___")
    case 14 => Instruction(Missing, 2, Illegal, "___")
    case 15 => Instruction(Missing, 2, Illegal, "___")
    case _ => Unfilled
  }

  function Overlay65SC02Row1(lo: int): Instruction {
    match lo
    case 2 => Instruction(Read(Ora, FromZeroPageIndirect), 5, ZeroPageIndirect, "ORA")
    case 4 => Instruction(TestAndReset(ToZeroPage), 5, ZeroPage, "TRB")
    case 9 => Instruction(Missing, 2, Illegal, "___")
    case 10 => Instruction(IncrementRegister(RegA), 2, Accumulator, "INC")
    case 12 => Instruction(TestAndReset(ToAbsolute), 6, Absolute, "TRB")
    case 13 => Instruction(Missing, 2, Illegal, "___")
    case 14 => Instruction(Missing, 2, Illegal, "___")
    case 15 => Instruction(Missing, 2, Illegal, "___")
    case _ => Unfilled
  }

  function Overlay65SC02Row2(lo: int): Instruction {
    match lo
    case 2 => Instruction(Nop2, 2, Implied, "___")
    case 9 => Instruction(Missing, 2, Illegal, "___")
    case 10 => Instruction(Missing, 2, Illegal, "___")
    case 13 => Instruction(Missing, 2, Illegal, "___")
    case 14 => Instruction(Missing, 2, Illegal, "___")
    case 15 => Instruction(Missing, 2, Illegal, "___")
    case _ => Unfilled
  }

  function Overlay65SC02Row3(lo: int): Instruction {
    match lo
    case 2 => Instruction(Read(And, FromZeroPageIndirect), 5, ZeroPageIndirect, "AND")
    case 4 => Instruction(Read(Bit, FromZeroPageX), 4, ZeroPageX, "BIT")
    case 9 => Instruction(Missing, 2, Illegal, "___")
    case 10 => Instruction(DecrementRegister(RegA), 2, Accumulator, "DEC")
    case 12 => Instruction(Read(Bit, FromAbsoluteX), 4, AbsoluteX, "BIT")
    case 13 => Instruction(Missing, 2, Illegal, "___")
    case 14 => Instruction(Missing, 2, Illegal, "___")
    case 15 => Instruction(Missing, 2, Illegal, "___")
    case _ => Unfilled
  }

  function Overlay65SC02Row4(lo: int): Instruction {
    match lo
    case 2 => Instruction(Nop2, 2, Implied, "___")
    case 4 => Instruction(Nop2, 3, Implied, "___")
    case 9 => Instruction(Missing, 2, Illegal, "___")
    case 10 => Instruction(Missing, 2, Illegal, "___")
    case 13 => Instruction(Missing, 2, Illegal, "___")
    case 14 => Instruction(Missing, 2, Illegal, "___")
    case 15 => Instruction(Missing, 2, Illegal, "___")
    case _ => Unfilled
  }

  function Overlay65SC02Row5(lo: int): Instruction {
    match lo
    case 2 => Instruction(Read(Eor, FromZeroPageIndirect), 5, ZeroPageIndirect, "EOR")
    case 4 => Instruction(Nop2, 4, Implied, "___")
    case 9 => Instruction(Missing, 2, Illegal, "___")
    case 10 => Instruction(Push(RegY), 2, Implied, "PHY")
    case 12 => Instruction(Nop3, 8, Implied, "___")
    case 13 => Instruction(Missing, 2, Illegal, "___")
    case 14 => Instruction(Missing, 2, Illegal, "___")
    case 15 => Instruction(Missing, 2, Illegal, "___")
    case _ => Unfilled
  }

  function Overlay65SC02Row6(lo: int): Instruction {
    match lo
    case 2 => Instruction(Nop2, 2, Implied, "___")
    case 4 => Instruction(Store(StoreZero, ToZeroPage), 3, ZeroPage, "STZ")
    case 9 => Instruction(Missing, 2, Illegal, "___")
    case 10 => Instruction(Missing, 2, Illegal, "___")
    case 13 => Instruction(Missing, 2, Illegal, "___")
    case 14 => Instruction(Missing, 2, Illegal, "___")
    case 15 => Instruction(Missing, 2, Illegal, "___")
    case _ => Unfilled
  }

  function Overlay65SC02Row7(lo: int): Instruction {
    match lo
    case 2 => Instruction(Read(Adc, FromZeroPageIndirect), 5, ZeroPageIndirect, "ADC")
    case 4 => Instruction(Store(StoreZero, ToZeroPageX), 4, ZeroPageX, "STZ")
    case 9 => Instruction(Missing, 2, Illegal, "___")
    case 10 => Instruction(Pull(RegY), 2, Implied, "PLY")
    case 12 => Instruction(JumpAbsoluteXIndirect, 6, AbsoluteXIndirect, "JMP")
    case 13 => Instruction(Missing, 2, Illegal, "___")
    case 14 => Instruction(Missing, 2, Illegal, "___")
    case 15 => Instruction(Missing, 2, Illegal, "___")
    case _ => Unfilled
  }

  function Overlay65SC02Row8(lo: int): Instruction {
    match lo
    case 0 => Instruction(BranchAlways, 2, Relative, "BRA")
    case 2 => Instruction(Nop2, 2, Implied, "___")
    case 9 => Instruction(Read(BitImmediate, FromImmediate), 2, Immediate, "BIT")
    case 10 => Instruction(Missing, 2, Illegal, "___")
    case 13 => Instruction(Missing, 2, Illegal, "___")
    case 14 => Instruction(Missing, 2, Illegal, "___")
    case 15 => Instruction(Missing, 2, Illegal, "___")
    case _ => Unfilled
  }

  function Overlay65SC02Row9(lo: int): Instruction {
    match lo
    case 2 => Instruction(Store(StoreA, ToZeroPageIndirect), 5, ZeroPageIndirect, "STA")
    case 9 => Instruction(Missing, 2, Illegal, "___")
    case 10 => Instruction(Missing, 2, Illegal, "___")
    case 12 => Instruction(Store(StoreZero, ToAbsolute), 4, Absolute, "STZ")
    case 13 => Instruction(Missing, 2, Illegal, "___")
    case 14 => Instruction(Store(StoreZero, ToAbsoluteX), 2, AbsoluteX, "STZ")
    case 15 => Instruction(Missing, 2, Illegal, "___")
    case _ => Unfilled
  }

  function Overlay65SC02RowA(lo: int): Instruction {
    match lo
    case 9 => Instruction(Missing, 2, Illegal, "___")
    case 10 => Instruction(Missing, 2, Illegal, "___")
    case 13 => Instruction(Missing, 2, Illegal, "___")
    case 14 => Instruction(Missing, 2, Illegal, "___")
    case 15 => Instruction(Missing, 2, Illegal, "___")
    case _ => Unfilled
  }

  function Overlay65SC02RowB(lo: int): Instruction {
    match lo
    case 2 => Instruction(Read(Lda, FromZeroPageIndirect), 5, ZeroPageIndirect, "LDA")
    case 9 => Instruction(Missing, 2, Illegal, "___")
    case 10 => Instruction(Missing, 2, Illegal, "___")
    case 13 => Instruction(Missing, 2, Illegal, "___")
    case 14 => Instruction(Missing, 2, Illegal, "___")
    case 15 => Instruction(Missing, 2, Illegal, "___")
    case _ => Unfilled
  }

  function Overlay65SC02RowC(lo: int): Instruction {
    match lo
    case 2 => Instruction(Nop2, 2, Implied, "___")
    case 9 => Instruction(Missing, 2, Illegal, "___")
    case 10 => Instruction(Missing, 2, Illegal, "___")
    case 13 => Instruction(Missing, 2, Illegal, "___")
    case 14 => Instruction(Missing, 2, Illegal, "___")
    case 15 => Instruction(Missing, 2, Illegal, "___")
    case _ => Unfilled
  }

  function Overlay65SC02RowD(lo: int): Instruction {
    match lo
    case 2 => Instruction(Read(Cmp, FromZeroPageIndirect), 5, ZeroPageIndirect, "CMP")
    case 4 => Instruction(Nop2, 4, Implied, "___")
    case 9 => Instruction(Missing, 2, Illegal, "___")
    case 10 => Instruction(Push(RegX), 2, Implied, "PHX")
    case 12 => Instruction(Nop3, 4, Implied, "___")
    case 13 => Instruction(Missing, 2, Illegal, "___")
    case 14 => Instruction(Missing, 2, Illegal, "___")
    case 15 => Instruction(Missing, 2, Illegal, "___")
    case _ => Unfilled
  }

  function Overlay65SC02RowE(lo: int): Instruction {
    match lo
    case 2 => Instruction(Nop2, 2, Implied, "___")
    case 9 => Instruction(Missing, 2, Illegal, "___")
    case 10 => Instruction(Missing, 2, Illegal, "___")
    case 13 => Instruction(Missing, 2, Illegal, "___")
    case 14 => Instruction(Missing, 2, Illegal, "___")
    case 15 => Instruction(Missing, 2, Illegal, "___")
    case _ => Unfilled
  }

  function Overlay65SC02RowF(lo: int): Instruction {
    match lo
    case 2 => Instruction(Read(Sbc, FromZeroPageIndirect), 5, ZeroPageIndirect, "SBC")
    case 4 => Instruction(Nop2, 4, Implied, "___")
    case 9 => Instruction(Missing, 2, Illegal, "___")
    case 10 => Instruction(Pull(RegX), 2, Implied, "PLX")
    case 12 => Instruction(Nop3, 4, Implied, "___")
    case 13 => Instruction(Missing, 2, Illegal, "___")
    case 14 => Instruction(Missing, 2, Illegal, "___")
    case 15 => Instruction(Missing, 2, Illegal, "___")
    case _ => Unfilled
  }

  /** The 65C02 overlay: the bit instructions and WAI/STP the 65C02 adds on top of the 65SC02. */
  function Overlay65C02(op: int): Instruction {
    match op / 16
    case 0 => Overlay65C02Row0(op % 16)
    case 1 => Overlay65C02Row1(op % 16)
    case 2 => Overlay65C02Row2(op % 16)
    case 3 => Overlay65C02Row3(op % 16)
    case 4 => Overlay65C02Row4(op % 16)
    case 5 => Overlay65C02Row5(op % 16)
    case 6 => Overlay65C02Row6(op % 16)
    case 7 => Overlay65C02Row7(op % 16)
    case 8 => Overlay65C02Row8(op % 16)
    case 9 => Overlay65C02Row9(op % 16)
    case 10 => Overlay65C02RowA(op % 16)
    case 11 => Overlay65C02RowB(op % 16)
    case 12 => Overlay65C02RowC(op % 16)
    case 13 => Overlay65C02RowD(op % 16)
    case 14 => Overlay65C02RowE(op % 16)
    case 15 => Overlay65C02RowF(op % 16)
    case _ => Unfilled
  }

  function Overlay65C02Row0(lo: int): Instruction {
    match lo
    case 7 => Instruction(ResetMemoryBit(0), 5, ZeroPage, "RMB0")
    case 9 => Instruction(Missing, 2, Illegal, "___")
    case 10 => Instruction(Missing, 2, Illegal, "___")
    case 13 => Instruction(Missing, 2, Illegal, "___")
    case 14 => Instruction(Missing, 2, Illegal, "___")
    case 15 => Instruction(BranchOnBit(0, false), 5, ZeroPageRelative, "BBR0")
    case _ => Unfilled
  }

  function Overlay65C02Row1(lo: int): Instruction {
    match lo
    case 7 => Instruction(ResetMemoryBit(1), 5, ZeroPage, "RMB1")
    case 9 => Instruction(Missing, 2, Illegal, "___")
    case 13 => Instruction(Missing, 2, Illegal, "___")
    case 14 => Instruction(Missing, 2, Illegal, "___")
    case 15 => Instruction(BranchOnBit(1, false), 5, ZeroPageRelative, "BBR1")
    case _ => Unfilled
  }

  function Overlay65C02Row2(lo: int): Instruction {
    match lo
    case 7 => Instruction(ResetMemoryBit(2), 5, ZeroPage, "RMB2")
    case 9 => Instruction(Missing, 2, Illegal, "___")
    case 10 => Instruction(Missing, 2, Illegal, "___")
    case 13 => Instruction(Missing, 2, Illegal, "___")
    case 14 => Instruction(Missing, 2, Illegal, "___")
    case 15 => Instruction(BranchOnBit(2, false), 5, ZeroPageRelative, "BBR2")
    case _ => Unfilled
  }

  function Overlay65C02Row3(lo: int): Instruction {
    match lo
    case 7 => Instruction(ResetMemoryBit(3), 5, ZeroPage, "RMB3")
    case 9 => Instruction(Missing, 2, Illegal, "___")
    case 13 => Instruction(Missing, 2, Illegal, "___")
    case 14 => Instruction(Missing, 2, Illegal, "___")
    case 15 => Instruction(BranchOnBit(3, false), 5, ZeroPageRelative, "BBR3")
    case _ => Unfilled
  }

  function Overlay65C02Row4(lo: int): Instruction {
    match lo
    case 7 => Instruction(ResetMemoryBit(4), 5, ZeroPage, "RMB4")
    case 9 => Instruction(Missing, 2, Illegal, "___")
    case 10 => Instruction(Missing, 2, Illegal, "___")
    case 13 => Instruction(Missing, 2, Illegal, "___")
    case 14 => Instruction(Missing, 2, Illegal, "___")
    case 15 => Instruction(BranchOnBit(4, false), 5, ZeroPageRelative, "BBR4")
    case _ => Unfilled
  }

  function Overlay65C02Row5(lo: int): Instruction {
    match lo
    case 7 => Instruction(ResetMemoryBit(5), 5, ZeroPage, "RMB5")
    case 9 => Instruction(Missing, 2, Illegal, "___")
    case 13 => Instruction(Missing, 2, Illegal, "___")
    case 14 => Instruction(Missing, 2, Illegal, "___")
    case 15 => Instruction(BranchOnBit(5, false), 5, ZeroPageRelative, "BBR5")
    case _ => Unfilled
  }

  function Overlay65C02Row6(lo: int): Instruction {
    match lo
    case 7 => Instruction(ResetMemoryBit(6), 5, ZeroPage, "RMB6")
    case 9 => Instruction(Missing, 2, Illegal, "___")
    case 10 => Instruction(Missing, 2, Illegal, "___")
    case 13 => Instruction(Missing, 2, Illegal, "___")
    case 14 => Instruction(Missing, 2, Illegal, "___")
    case 15 => Instruction(BranchOnBit(6, false), 5, ZeroPageRelative, "BBR6")
    case _ => Unfilled
  }

  function Overlay65C02Row7(lo: int): Instruction {
    match lo
    case 7 => Instruction(ResetMemoryBit(7), 5, ZeroPage, "RMB7")
    case 9 => Instruction(Missing, 2, Illegal, "___")
    case 13 => Instruction(Missing, 2, Illegal, "___")
    case 14 => Instruction(Missing, 2, Illegal, "___")
    case 15 => Instruction(BranchOnBit(7, false), 5, ZeroPageRelative, "BBR7")
    case _ => Unfilled
  }

  function Overlay65C02Row8(lo: int): Instruction {
    match lo
    case 7 => Instruction(SetMemoryBit(0), 5, ZeroPage, "SMB0")
    case 9 => Instruction(Missing, 2, Illegal, "___")
    case 10 => Instruction(Missing, 2, Illegal, "___")
    case 13 => Instruction(Missing, 2, Illegal, "___")
    case 14 => Instruction(Missing, 2, Illegal, "___")
    case 15 => Instruction(BranchOnBit(0, true), 5, ZeroPageRelative, "BBS0")
    case _ => Unfilled
  }

  function Overlay65C02Row9(lo: int): Instruction {
    match lo
    case 7 => Instruction(SetMemoryBit(1), 5, ZeroPage, "SMB1")
    case 9 => Instruction(Missing, 2, Illegal, "___")
    case 10 => Instruction(Missing, 2, Illegal, "___")
    case 13 => Instruction(Missing, 2, Illegal, "___")
    case 15 => Instruction(BranchOnBit(1, true), 5, ZeroPageRelative, "BBS1")
    case _ => Unfilled
  }

  function Overlay65C02RowA(lo: int): Instruction {
    match lo
    case 7 => Instruction(SetMemoryBit(2), 5, ZeroPage, "SMB2")
    case 9 => Instruction(Missing, 2, Illegal, "___")
    case 10 => Instruction(Missing, 2, Illegal, "___")
    case 13 => Instruction(Missing, 2, Illegal, "___")
    case 14 => Instruction(Missing, 2, Illegal, "___")
    case 15 => Instruction(BranchOnBit(2, true), 5, ZeroPageRelative, "BBS2")
    case _ => Unfilled
  }

  function Overlay65C02RowB(lo: int): Instruction {
    match lo
    case 7 => Instruction(SetMemoryBit(3), 5, ZeroPage, "SMB3")
    case 9 => Instruction(Missing, 2, Illegal, "___")
    case 10 => Instruction(Missing, 2, Illegal, "___")
    case 13 => Instruction(Missing, 2, Illegal, "___")
    case 14 => Instruction(Missing, 2, Illegal, "___")
    case 15 => Instruction(BranchOnBit(3, true), 5, ZeroPageRelative, "BBS3")
    case _ => Unfilled
  }

  function Overlay65C02RowC(lo: int): Instruction {
    match lo
    case 7 => Instruction(SetMemoryBit(4), 5, ZeroPage, "SMB4")
    case 9 => Instruction(Missing, 2, Illegal, "___")
    case 10 => Instruction(Missing, 2, Illegal, "___")
    case 11 => Instruction(Wait, 3, Implied, "WAI")
    case 13 => Instruction(Missing, 2, Illegal, "___")
    case 14 => Instruction(Missing, 2, Illegal, "___")
    case 15 => Instruction(BranchOnBit(4, true), 5, ZeroPageRelative, "BBS4")
    case _ => Unfilled
  }

  function Overlay65C02RowD(lo: int): Instruction {
    match lo
    case 7 => Instruction(SetMemoryBit(5), 5, ZeroPage, "SMB5")
    case 9 => Instruction(Missing, 2, Illegal, "___")
    case 11 => Instruction(Stop, 3, Implied, "STP")
    case 13 => Instruction(Missing, 2, Illegal, "___")
    case 14 => Instruction(Missing, 2, Illegal, "___")
    case 15 => Instruction(BranchOnBit(5, true), 5, ZeroPageRelative, "BBS5")
    case _ => Unfilled
  }

  function Overlay65C02RowE(lo: int): Instruction {
    match lo
    case 7 => Instruction(SetMemoryBit(6), 5, ZeroPage, "SMB6")
    case 9 => Instruction(Missing, 2, Illegal, "___")
    case 10 => Instruction(Missing, 2, Illegal, "___")
    case 13 => Instruction(Missing, 2, Illegal, "___")
    case 14 => Instruction(Missing, 2, Illegal, "___")
    case 15 => Instruction(BranchOnBit(6, true), 5, ZeroPageRelative, "BBS6")
    case _ => Unfilled
  }

  function Overlay65C02RowF(lo: int): Instruction {
    match lo
    case 7 => Instruction(SetMemoryBit(7), 5, ZeroPage, "SMB7")
    case 9 => Instruction(Missing, 2, Illegal, "___")
    case 13 => Instruction(Missing, 2, Illegal, "___")
    case 14 => Instruction(Missing, 2, Illegal, "___")
    case 15 => Instruction(BranchOnBit(7, true), 5, ZeroPageRelative, "BBS7")
    case _ => Unfilled
  }
}
