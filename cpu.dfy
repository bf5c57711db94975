/**
 * The processor: its registers, its installed instruction table, and the
 * handlers that the table dispatches to, each changing the registers, the
 * status flags and the memory in place. Memory goes through the bus the
 * system supplies (the abstract GetByte/SetByte of the processor); a read of a
 * cell that holds nothing, an opcode with no table entry, an illegal opcode on
 * the NMOS part and the unimplemented WAI/STP are faults, which stop the
 * operation where the processor would throw.
 */
module Processor {
  import opened Wrappers
  import Bits
  import opened Bytes
  import opened StatusRegister
  import opened MemoryBus
  import opened Addressing
  import I = Instructions
  import A = Alu

  const PageOne: int := 0x100
  const IrqVector: int := 0xfffe
  const ResetVector: int := 0xfffc
  const NmiVector: int := 0xfffa

  /** Why an operation stopped where the processor throws or reads `undefined`. */
  datatype Fault =
    | IllegalInstruction
    | NotImplemented(mnemonic: string)
    | UndefinedRead(offset: int)
    | UndefinedOpcode(opcode: int)
    | Collision(slot: int)

  /** A cell the bus would refuse to write. */
  predicate LockedIn(locked: map<int, bool>, offset: int) {
    offset in locked && locked[offset]
  }

  /** The cells after PushWord(w) with the stack pointer at s: the high byte at 0x100+s, the low byte below it. */
  function PushedWord(cells: map<int, int>, locked: map<int, bool>, s: int, w: int): map<int, int> {
    Stored(Stored(cells, locked, PageOne + s, HighByte(w)), locked, PageOne + s - 1, LowByte(w))
  }

  /**
   * A word pushed onto two unlocked stack cells is the word PopWord reads back
   * once the stack pointer has moved down by two.
   */
  lemma PushPopWord(cells: map<int, int>, locked: map<int, bool>, s: int, w: int)
    requires 0 <= w <= 0xffff
    requires !LockedIn(locked, PageOne + s) && !LockedIn(locked, PageOne + s - 1)
    ensures WordDefined(PushedWord(cells, locked, s, w), PageOne + (s - 2) + 1)
    ensures WordAt(PushedWord(cells, locked, s, w), PageOne + (s - 2) + 1) == w
  {
    WordRoundTrip(w);
    var pushed := PushedWord(cells, locked, s, w);
    assert pushed[PageOne + s - 1] == LowByte(w) && pushed[PageOne + s] == HighByte(w);
  }

  /** A byte pushed onto an unlocked stack cell is the byte PopByte reads back. */
  lemma PushPopByte(cells: map<int, int>, locked: map<int, bool>, s: int, v: int)
    requires !LockedIn(locked, PageOne + s)
    ensures var pushed := Stored(cells, locked, PageOne + s, v);
      PageOne + (s - 1) + 1 in pushed && pushed[PageOne + (s - 1) + 1] == v
  {
  }

  /** The four data registers, as one value. */
  datatype Registers = Registers(a: int, x: int, y: int, s: int) {
    function Get(reg: I.Register): int {
      match reg
      case RegA => a
      case RegX => x
      case RegY => y
      case RegS => s
    }

    function With(reg: I.Register, v: int): (r: Registers)
      ensures r.Get(reg) == v
      ensures forall other: I.Register :: other != reg ==> r.Get(other) == Get(other)
    {
      match reg
      case RegA => this.(a := v)
      case RegX => this.(x := v)
      case RegY => this.(y := v)
      case RegS => this.(s := v)
    }
  }

  /**
   * What a reading instruction does with its operand: the registers and flags
   * after ORA, AND, EOR, LDA/LDX/LDY, CMP/CPX/CPY, ADC, SBC, BIT and
   * BIT_immediate. ADC and SBC take the decimal forms when Decimal is set.
   * None of them touches S, Reserved, Break, Decimal or Interrupt; the
   * comparisons and the bit tests change no register, and each load changes
   * only its own.
   */
  function Operation(level: I.ProcessorType, op: I.ReadOp, r: Registers, f: Flags, data: int): (after: (Registers, Flags))
    ensures after.0.s == r.s
    ensures op != I.Ldx ==> after.0.x == r.x
    ensures op != I.Ldy ==> after.0.y == r.y
    ensures op in {I.Cmp, I.Cpx, I.Cpy, I.Bit, I.BitImmediate, I.Ldx, I.Ldy} ==> after.0.a == r.a
    ensures op in {I.Lda, I.Ldx, I.Ldy} ==> after.0.Get(LoadTarget(op)) == data && after.1 == A.ZeroNegative(f, data)
    ensures after.1.reserved == f.reserved && after.1.brk == f.brk && after.1.decimal == f.decimal && after.1.interrupt == f.interrupt
  {
    match op
    case Ora => var t := A.Ora(r.a, data, f); (r.(a := t.value), t.flags)
    case And => var t := A.AndOp(r.a, data, f); (r.(a := t.value), t.flags)
    case Eor => var t := A.Eor(r.a, data, f); (r.(a := t.value), t.flags)
    case Lda => (r.(a := data), A.ZeroNegative(f, data))
    case Ldx => (r.(x := data), A.ZeroNegative(f, data))
    case Ldy => (r.(y := data), A.ZeroNegative(f, data))
    case Cmp => (r, A.Compare(r.a, data, f))
    case Cpx => (r, A.Compare(r.x, data, f))
    case Cpy => (r, A.Compare(r.y, data, f))
    case Adc =>
      var t := if f.decimal then A.AdcDecimal(level, r.a, data, f) else A.AdcBinary(r.a, data, f);
      (r.(a := t.value), t.flags)
    case Sbc =>
      var t := if f.decimal then A.SbcDecimal(level, r.a, data, f) else A.SbcBinary(r.a, data, f);
      (r.(a := t.value), t.flags)
    case Bit => (r, A.BitTest(r.a, data, f))
    case BitImmediate => (r, A.BitImmediate(r.a, data, f))
  }

  /** The register a load writes. */
  function LoadTarget(op: I.ReadOp): I.Register {
    match op
    case Ldx => I.RegX
    case Ldy => I.RegY
    case _ => I.RegA
  }

  /** ASL, LSR, ROL or ROR applied to a value. */
  function Shifted(shift: I.ShiftOp, data: int, f: Flags): (r: A.AluResult)
    ensures r.flags == A.ZeroNegative(f, r.value).(carry := r.flags.carry)
    ensures r.flags.carry == if shift in {I.Asl, I.Rol} then Bits.Bit(data, 7) else data % 2 == 1
  {
    match shift
    case Asl => A.Asl(data, f)
    case Lsr => A.Lsr(data, f)
    case Rol => A.Rol(data, f)
    case Ror => A.Ror(data, f)
  }

  /**
   * The cycles BranchOffset adds to a taken branch: one, and two more when the
   * high byte of PC changes.
   */
  function BranchPenalty(pc: int, displacement: int): int {
    1 + (if HighByte(pc) != HighByte(pc + displacement) then 2 else 0)
  }

  /** Within 16-bit addresses, the two extra cycles are charged exactly when the branch leaves its 256-byte page. */
  lemma BranchPenaltyIsPageCrossing(pc: int, displacement: int)
    requires 0 <= pc <= 0xffff && 0 <= pc + displacement <= 0xffff
    ensures BranchPenalty(pc, displacement) == if pc / 256 == (pc + displacement) / 256 then 1 else 3
  {
    HighByteIsQuotient(pc);
    HighByteIsQuotient(pc + displacement);
  }

  /** The flags ResetRegisters leaves: only Reserved is set. */
  const PowerOnStatus := Flags(false, false, true, false, false, false, false, false)

  /**
   * PHP pushes the flags with Break set; PLP pulls them back with Reserved
   * set. Whatever the flags were, what PLP restores is them with those two set.
   */
  lemma PushPullStatus(cells: map<int, int>, locked: map<int, bool>, s: int, f: Flags)
    requires !LockedIn(locked, PageOne + s)
    ensures var pushed := Stored(cells, locked, PageOne + s, Encode(f.(brk := true)));
      PageOne + (s - 1) + 1 in pushed
      && Decode(pushed[PageOne + (s - 1) + 1]).(reserved := true) == f.(brk := true, reserved := true)
  {
    DecodeEncode(f.(brk := true));
  }

  /**
   * JSR pushes the address of its operand's last byte; RTS pops it and adds
   * one. With the two stack cells unlocked, a subroutine returns to the byte
   * after the JSR operand: for a JSR whose operand starts at pc, to pc + 2.
   */
  lemma JsrRtsReturn(cells: map<int, int>, locked: map<int, bool>, s: int, pc: int)
    requires 0 <= pc + 1 <= 0xffff
    requires !LockedIn(locked, PageOne + s) && !LockedIn(locked, PageOne + s - 1)
    ensures var pushed := PushedWord(cells, locked, s, pc + 1);
      WordDefined(pushed, PageOne + (s - 2) + 1) && WordAt(pushed, PageOne + (s - 2) + 1) + 1 == pc + 2
  {
    PushPopWord(cells, locked, s, pc + 1);
  }

  /** The stack after an interrupt entry that pushes the word w and then the byte status. */
  function InterruptFrame(cells: map<int, int>, locked: map<int, bool>, s: int, w: int, status: int): map<int, int> {
    Stored(PushedWord(cells, locked, s, w), locked, PageOne + s - 2, status)
  }

  /**
   * RTI undoes an interrupt entry on three unlocked stack cells: it restores
   * the flags that were pushed, with Reserved set, and the return address.
   */
  lemma InterruptReturn(cells: map<int, int>, locked: map<int, bool>, s: int, w: int, f: Flags)
    requires 0 <= w <= 0xffff
    requires !LockedIn(locked, PageOne + s) && !LockedIn(locked, PageOne + s - 1) && !LockedIn(locked, PageOne + s - 2)
    ensures var frame := InterruptFrame(cells, locked, s, w, Encode(f));
      PageOne + (s - 3) + 1 in frame && WordDefined(frame, PageOne + (s - 3) + 2)
      && Decode(frame[PageOne + (s - 3) + 1]).(reserved := true) == f.(reserved := true)
      && WordAt(frame, PageOne + (s - 3) + 2) == w
  {
    DecodeEncode(f);
    WordRoundTrip(w);
    var frame := InterruptFrame(cells, locked, s, w, Encode(f));
    assert frame[PageOne + s - 1] == LowByte(w) && frame[PageOne + s] == HighByte(w);
  }

  /** What an instruction handler acts on: PC, the registers, the flags, the cycle count and the memory. */
  datatype Machine = Machine(pc: int, regs: Registers, flags: Flags, cycles: int, cells: map<int, int>)

  /** The byte STA, STX, STY or STZ writes. */
  function StoredValue(stored: I.StoreValue, r: Registers): int {
    match stored
    case StoreA => r.a
    case StoreX => r.x
    case StoreY => r.y
    case StoreZero => 0
  }

  /** A read-modify-write handler's effect: PC passes the operand, the cell takes r's value and the flags r's flags. */
  predicate Rewrote(locked: map<int, bool>, m: Machine, n: Machine, e: Effective, r: A.AluResult) {
    n == m.(pc := m.pc + e.size, cells := Stored(m.cells, locked, e.address, r.value), flags := r.flags)
  }

  /**
   * A relative branch: the displacement byte at PC must hold a value; when the
   * condition holds PC moves past it by the signed displacement at the cost
   * BranchPenalty gives, and otherwise PC only passes it.
   */
  predicate Branched(condition: bool, m: Machine, o: Outcome<Fault>, n: Machine) {
    (o.Pass? <==> m.pc in m.cells)
    && (o.Pass? ==>
          var d := SignedByte(m.cells[m.pc]);
          n == if condition then m.(pc := m.pc + 1 + d, cycles := m.cycles + BranchPenalty(m.pc + 1, d))
               else m.(pc := m.pc + 1))
  }

  /** LDA, LDX, LDY and the operations on A through a reading mode. */
  predicate ReadPerformed(level: I.ProcessorType, locked: map<int, bool>, h: I.Handler, m: Machine, o: Outcome<Fault>, n: Machine) {
    match h
    case Read(op, from) =>
      var e := ResolveRead(from, m.cells, m.pc, m.regs.x, m.regs.y);
      (o.Pass? <==> e.Some? && e.value.address in m.cells)
      && (o.Pass? ==>
            var r := Operation(level, op, m.regs, m.flags, m.cells[e.value.address]);
            n == m.(pc := m.pc + e.value.size, cycles := m.cycles + e.value.penalty, regs := r.0, flags := r.1))
    case _ => false
  }

  /** STA, STX, STY and STZ. */
  predicate StorePerformed(level: I.ProcessorType, locked: map<int, bool>, h: I.Handler, m: Machine, o: Outcome<Fault>, n: Machine) {
    match h
    case Store(stored, to) =>
      var e := ResolveWrite(to, m.cells, m.pc, m.regs.x, m.regs.y);
      (o.Pass? <==> e.Some?)
      && (o.Pass? ==>
            n == m.(pc := m.pc + e.value.size, cells := Stored(m.cells, locked, e.value.address, StoredValue(stored, m.regs))))
    case _ => false
  }

  /** ASL, LSR, ROL and ROR, on A and on memory. */
  predicate ShiftPerformed(level: I.ProcessorType, locked: map<int, bool>, h: I.Handler, m: Machine, o: Outcome<Fault>, n: Machine) {
    match h
    case ShiftAccumulator(shift) =>
      var r := Shifted(shift, m.regs.a, m.flags);
      o.Pass? && n == m.(regs := m.regs.(a := r.value), flags := r.flags)
    case ShiftMemory(shift, to) =>
      var e := ResolveWrite(to, m.cells, m.pc, m.regs.x, m.regs.y);
      (o.Pass? <==> e.Some? && e.value.address in m.cells)
      && (o.Pass? ==> Rewrote(locked, m, n, e.value, Shifted(shift, m.cells[e.value.address], m.flags)))
    case _ => false
  }

  /** INC and DEC on memory. */
  predicate CountPerformed(level: I.ProcessorType, locked: map<int, bool>, h: I.Handler, m: Machine, o: Outcome<Fault>, n: Machine) {
    match h
    case IncrementMemory(to) =>
      var e := ResolveWrite(to, m.cells, m.pc, m.regs.x, m.regs.y);
      (o.Pass? <==> e.Some? && e.value.address in m.cells)
      && (o.Pass? ==>
            var v := m.cells[e.value.address] + 1;
            Rewrote(locked, m, n, e.value, A.AluResult(v, A.ZeroNegative(m.flags, v))))
    case DecrementMemory(to) =>
      var e := ResolveWrite(to, m.cells, m.pc, m.regs.x, m.regs.y);
      (o.Pass? <==> e.Some? && e.value.address in m.cells)
      && (o.Pass? ==>
            var v := m.cells[e.value.address] - 1;
            Rewrote(locked, m, n, e.value, A.AluResult(v, A.ZeroNegative(m.flags, v))))
    case _ => false
  }

  /** TSB and TRB. */
  predicate TestPerformed(level: I.ProcessorType, locked: map<int, bool>, h: I.Handler, m: Machine, o: Outcome<Fault>, n: Machine) {
    match h
    case TestAndSet(to) =>
      var e := ResolveWrite(to, m.cells, m.pc, m.regs.x, m.regs.y);
      (o.Pass? <==> e.Some? && e.value.address in m.cells)
      && (o.Pass? ==> Rewrote(locked, m, n, e.value, A.TestAndSet(m.regs.a, m.cells[e.value.address], m.flags)))
    case TestAndReset(to) =>
      var e := ResolveWrite(to, m.cells, m.pc, m.regs.x, m.regs.y);
      (o.Pass? <==> e.Some? && e.value.address in m.cells)
      && (o.Pass? ==> Rewrote(locked, m, n, e.value, A.TestAndReset(m.regs.a, m.cells[e.value.address], m.flags)))
    case _ => false
  }

  /** RMB and SMB. */
  predicate MemoryBitPerformed(level: I.ProcessorType, locked: map<int, bool>, h: I.Handler, m: Machine, o: Outcome<Fault>, n: Machine) {
    match h
    case ResetMemoryBit(bit) =>
      (o.Pass? <==> m.pc in m.cells && m.cells[m.pc] in m.cells)
      && (o.Pass? ==>
            var address := m.cells[m.pc];
            n == m.(pc := m.pc + 1, cells := Stored(m.cells, locked, address, A.ResetBits(m.cells[address], Bits.Pow2(bit)))))
    case SetMemoryBit(bit) =>
      (o.Pass? <==> m.pc in m.cells && m.cells[m.pc] in m.cells)
      && (o.Pass? ==>
            var address := m.cells[m.pc];
            n == m.(pc := m.pc + 1, cells := Stored(m.cells, locked, address, A.SetBits(m.cells[address], Bits.Pow2(bit)))))
    case _ => false
  }

  /** INX, INY, DEX, DEY, INC A and DEC A. */
  predicate CountRegisterPerformed(level: I.ProcessorType, locked: map<int, bool>, h: I.Handler, m: Machine, o: Outcome<Fault>, n: Machine) {
    match h
    case IncrementRegister(reg) =>
      var v := m.regs.Get(reg) + 1;
      o.Pass? && n == m.(regs := m.regs.With(reg, v), flags := A.ZeroNegative(m.flags, v))
    case DecrementRegister(reg) =>
      var v := m.regs.Get(reg) - 1;
      o.Pass? && n == m.(regs := m.regs.With(reg, v), flags := A.ZeroNegative(m.flags, v))
    case _ => false
  }

  /** The transfers between registers and the flag instructions. */
  predicate TransferOrFlagPerformed(level: I.ProcessorType, locked: map<int, bool>, h: I.Handler, m: Machine, o: Outcome<Fault>, n: Machine) {
    match h
    case Transfer(source, target) =>
      var v := m.regs.Get(source);
      o.Pass? && n == m.(regs := m.regs.With(target, v), flags := if target == I.RegS then m.flags else A.ZeroNegative(m.flags, v))
    case SetFlag(flag, value) =>
      o.Pass? && n == m.(flags := With(m.flags, flag, value))
    case _ => false
  }

  /** PHA, PHX, PHY, PLA, PLX and PLY. */
  predicate StackPerformed(level: I.ProcessorType, locked: map<int, bool>, h: I.Handler, m: Machine, o: Outcome<Fault>, n: Machine) {
    match h
    case Push(reg) =>
      o.Pass? && n == m.(regs := m.regs.(s := m.regs.s - 1), cells := Stored(m.cells, locked, PageOne + m.regs.s, m.regs.Get(reg)))
    case Pull(reg) =>
      (o.Pass? <==> PageOne + m.regs.s + 1 in m.cells)
      && (o.Pass? ==>
            var v := m.cells[PageOne + m.regs.s + 1];
            n == m.(regs := m.regs.(s := m.regs.s + 1).With(reg, v), flags := A.ZeroNegative(m.flags, v)))
    case _ => false
  }

  /** PHP and PLP. */
  predicate StatusStackPerformed(level: I.ProcessorType, locked: map<int, bool>, h: I.Handler, m: Machine, o: Outcome<Fault>, n: Machine) {
    match h
    case PushStatus =>
      o.Pass?
      && n == m.(regs := m.regs.(s := m.regs.s - 1), flags := m.flags.(brk := true),
                 cells := Stored(m.cells, locked, PageOne + m.regs.s, Encode(m.flags.(brk := true))))
    case PullStatus =>
      (o.Pass? <==> PageOne + m.regs.s + 1 in m.cells)
      && (o.Pass? ==> n == m.(regs := m.regs.(s := m.regs.s + 1), flags := Decode(m.cells[PageOne + m.regs.s + 1]).(reserved := true)))
    case _ => false
  }

  /** JSR and RTS. */
  predicate SubroutinePerformed(level: I.ProcessorType, locked: map<int, bool>, h: I.Handler, m: Machine, o: Outcome<Fault>, n: Machine) {
    match h
    case JumpToSubroutine =>
      (o.Pass? <==> WordDefined(m.cells, m.pc))
      && (o.Pass? ==>
            n == m.(pc := WordAt(m.cells, m.pc), regs := m.regs.(s := m.regs.s - 2), cells := PushedWord(m.cells, locked, m.regs.s, m.pc + 1)))
    case ReturnFromSubroutine =>
      (o.Pass? <==> WordDefined(m.cells, PageOne + m.regs.s + 1))
      && (o.Pass? ==> n == m.(pc := WordAt(m.cells, PageOne + m.regs.s + 1) + 1, regs := m.regs.(s := m.regs.s + 2)))
    case _ => false
  }

  /** BRK. */
  predicate BreakPerformed(level: I.ProcessorType, locked: map<int, bool>, h: I.Handler, m: Machine, o: Outcome<Fault>, n: Machine) {
    match h
    case Break =>
      var frame := InterruptFrame(m.cells, locked, m.regs.s, m.pc + 1, Encode(m.flags.(brk := true)));
      (o.Pass? <==> WordDefined(frame, IrqVector))
      && (o.Pass? ==>
            n == Machine(WordAt(frame, IrqVector), m.regs.(s := m.regs.s - 3),
                         m.flags.(brk := true, interrupt := true, decimal := m.flags.decimal && !level.AtLeast(I.Cpu65SC02)),
                         m.cycles, frame))
    case _ => false
  }

  /** RTI. */
  predicate ReturnFromInterruptPerformed(level: I.ProcessorType, locked: map<int, bool>, h: I.Handler, m: Machine, o: Outcome<Fault>, n: Machine) {
    match h
    case ReturnFromInterrupt =>
      (o.Pass? <==> PageOne + m.regs.s + 1 in m.cells && WordDefined(m.cells, PageOne + m.regs.s + 2))
      && (o.Pass? ==>
            n == m.(pc := WordAt(m.cells, PageOne + m.regs.s + 2), regs := m.regs.(s := m.regs.s + 3),
                    flags := Decode(m.cells[PageOne + m.regs.s + 1]).(reserved := true)))
    case _ => false
  }

  /** The three JMPs. */
  predicate JumpPerformed(level: I.ProcessorType, locked: map<int, bool>, h: I.Handler, m: Machine, o: Outcome<Fault>, n: Machine) {
    match h
    case Jump =>
      (o.Pass? <==> WordDefined(m.cells, m.pc)) && (o.Pass? ==> n == m.(pc := WordAt(m.cells, m.pc)))
    case JumpIndirect =>
      (o.Pass? <==> WordDefined(m.cells, m.pc) && WordDefined(m.cells, WordAt(m.cells, m.pc)))
      && (o.Pass? ==> n == m.(pc := WordAt(m.cells, WordAt(m.cells, m.pc))))
    case JumpAbsoluteXIndirect =>
      (o.Pass? <==> WordDefined(m.cells, m.pc) && WordDefined(m.cells, WordAt(m.cells, m.pc) + m.regs.x))
      && (o.Pass? ==> n == m.(pc := WordAt(m.cells, WordAt(m.cells, m.pc) + m.regs.x)))
    case _ => false
  }

  /** The conditional branches and BRA. */
  predicate BranchPerformed(level: I.ProcessorType, locked: map<int, bool>, h: I.Handler, m: Machine, o: Outcome<Fault>, n: Machine) {
    match h
    case BranchIf(flag, whenSet) => Branched(Get(m.flags, flag) == whenSet, m, o, n)
    case BranchAlways => Branched(true, m, o, n)
    case _ => false
  }

  /** BBR and BBS. */
  predicate BitBranchPerformed(level: I.ProcessorType, locked: map<int, bool>, h: I.Handler, m: Machine, o: Outcome<Fault>, n: Machine) {
    match h
    case BranchOnBit(bit, whenSet) =>
      (o.Pass? <==> m.pc in m.cells && m.cells[m.pc] in m.cells && m.pc + 1 in m.cells)
      && (o.Pass? ==>
            var contents, displacement := m.cells[m.cells[m.pc]], m.cells[m.pc + 1];
            n == m.(pc := m.pc + 2 + if (Bits.And(contents, Bits.Pow2(bit)) != 0) == whenSet then displacement else 0))
    case _ => false
  }

  /** The unfilled slot and the unimplemented WAI and STP. */
  predicate UnfilledPerformed(level: I.ProcessorType, locked: map<int, bool>, h: I.Handler, m: Machine, o: Outcome<Fault>, n: Machine) {
    match h
    case Missing =>
      (o.Pass? <==> level.AtLeast(I.Cpu65SC02)) && (o.Pass? ==> n == m.(cycles := m.cycles + 1))
    case Wait => o == Fail(NotImplemented("WAI")) && n == m
    case Stop => o == Fail(NotImplemented("STP")) && n == m
    case _ => false
  }

  /** NOP and the NOPs that skip one or two operand bytes. */
  predicate NopPerformed(level: I.ProcessorType, locked: map<int, bool>, h: I.Handler, m: Machine, o: Outcome<Fault>, n: Machine) {
    match h
    case Nop => o.Pass? && n == m
    case Nop2 => o.Pass? && n == m.(pc := m.pc + 1)
    case Nop3 => o.Pass? && n == m.(pc := m.pc + 2)
    case _ => false
  }

  /**
   * The effect of running handler h on machine m: when the handler completes
   * (o is Pass) and under which condition, and the machine n it leaves.
   * PC in m is the address after the opcode. A handler that faults leaves its
   * machine unspecified, since the processor stops there.
   */
  predicate Performed(level: I.ProcessorType, locked: map<int, bool>, h: I.Handler, m: Machine, o: Outcome<Fault>, n: Machine) {
    match h
    case Read(_, _) => ReadPerformed(level, locked, h, m, o, n)
    case Store(_, _) => StorePerformed(level, locked, h, m, o, n)
    case ShiftAccumulator(_) | ShiftMemory(_, _) => ShiftPerformed(level, locked, h, m, o, n)
    case IncrementMemory(_) | DecrementMemory(_) => CountPerformed(level, locked, h, m, o, n)
    case TestAndSet(_) | TestAndReset(_) => TestPerformed(level, locked, h, m, o, n)
    case ResetMemoryBit(_) | SetMemoryBit(_) => MemoryBitPerformed(level, locked, h, m, o, n)
    case IncrementRegister(_) | DecrementRegister(_) => CountRegisterPerformed(level, locked, h, m, o, n)
    case Transfer(_, _) | SetFlag(_, _) => TransferOrFlagPerformed(level, locked, h, m, o, n)
    case Push(_) | Pull(_) => StackPerformed(level, locked, h, m, o, n)
    case PushStatus | PullStatus => StatusStackPerformed(level, locked, h, m, o, n)
    case JumpToSubroutine | ReturnFromSubroutine => SubroutinePerformed(level, locked, h, m, o, n)
    case Break => BreakPerformed(level, locked, h, m, o, n)
    case ReturnFromInterrupt => ReturnFromInterruptPerformed(level, locked, h, m, o, n)
    case Jump | JumpIndirect | JumpAbsoluteXIndirect => JumpPerformed(level, locked, h, m, o, n)
    case BranchIf(_, _) | BranchAlways => BranchPerformed(level, locked, h, m, o, n)
    case BranchOnBit(_, _) => BitBranchPerformed(level, locked, h, m, o, n)
    case Missing | Wait | Stop => UnfilledPerformed(level, locked, h, m, o, n)
    case Nop | Nop2 | Nop3 => NopPerformed(level, locked, h, m, o, n)
  }

  /**
   * Execute on a machine: the handler of the cell's slot, then the slot's
   * count added to Cycles; a cell that indexes no slot faults and changes nothing.
   */
  predicate Executed(level: I.ProcessorType, locked: map<int, bool>, cell: int, m: Machine, o: Outcome<Fault>, n: Machine) {
    if 0 <= cell < 256 then
      var slot := I.Installed(level)[cell];
      Performed(level, locked, slot.vector, m, o, if o.Pass? then n.(cycles := n.cycles - slot.count) else n)
    else
      o == Fail(UndefinedOpcode(cell)) && n == m
  }

  /** Step on a machine: the byte at PC must hold a value; it is executed with PC past it. */
  predicate Stepped(level: I.ProcessorType, locked: map<int, bool>, m: Machine, o: Outcome<Fault>, n: Machine) {
    if m.pc in m.cells then Executed(level, locked, m.cells[m.pc], m.(pc := m.pc + 1), o, n) else o.Fail?
  }

  /** The handlers PerformDataOperation runs. */
  predicate DataHandler(h: I.Handler) {
    h.Read? || h.Store? || h.ShiftAccumulator? || h.ShiftMemory? || h.IncrementMemory? || h.DecrementMemory?
    || h.TestAndSet? || h.TestAndReset? || h.ResetMemoryBit? || h.SetMemoryBit?
  }

  /** The handlers PerformRegisterOperation runs. */
  predicate RegisterHandler(h: I.Handler) {
    h.IncrementRegister? || h.DecrementRegister? || h.Transfer? || h.Push? || h.Pull?
    || h.PushStatus? || h.PullStatus? || h.SetFlag?
  }

  class MOS6502 {
    const level: I.ProcessorType
    /** The memory behind GetByte and SetByte. */
    const bus: Memory
    /** `_instructions`: the 256 descriptors, indexed by opcode. */
    const instructions: array<I.Instruction>
    var pc: int
    var x: int
    var y: int
    var a: int
    var s: int
    var p: StatusFlags
    var cycles: int
    var proceed: bool

    /** The installed table is the NMOS table with the overlays the level admits. */
    ghost predicate Valid()
      reads instructions
    {
      instructions.Length == 256 && instructions[..] == I.Installed(level)
    }

    /** The value of the status register. */
    function Status(): Flags
      reads this`p, p
    {
      p.Value()
    }

    /** The processor state an instruction acts on, as a value. */
    function Snapshot(): (m: Machine)
      reads this`pc, this`a, this`x, this`y, this`s, this`p, this`cycles, p, bus`cells
      ensures m.pc == pc && m.regs == Regs() && m.flags == Status() && m.cycles == cycles && m.cells == bus.cells
    {
      Machine(pc, Regs(), Status(), cycles, bus.cells)
    }

    /** Installs the NMOS table, then the 65SC02 and 65C02 overlays when the level admits them. */
    constructor(level: I.ProcessorType, bus: Memory)
      ensures this.level == level && this.bus == bus && proceed
      ensures Valid() && fresh(instructions) && fresh(p)
    {
      this.level := level;
      this.bus := bus;
      instructions := new I.Instruction[256](i => I.Nmos6502(i));
      pc, x, y, a, s, cycles := 0, 0, 0, 0, 0, 0;
      p := new StatusFlags(0);
      proceed := true;
      new;
      assert instructions[..] == I.TableOf(I.Nmos6502);
      if level.AtLeast(I.Cpu65SC02) {
        I.NoCollision65SC02();
        var installed := OverlayInstructionSet(I.TableOf(I.Overlay65SC02), false);
      }
      if level.AtLeast(I.Cpu65C02) {
        I.NoCollision65C02();
        var installed := OverlayInstructionSet(I.TableOf(I.Overlay65C02), false);
      }
    }

    /**
     * OverlayInstructionSet: every overlay slot that is taken replaces the
     * installed slot, which must be illegal; the first taken slot over a legal
     * one is a collision.
     */
    method OverlayInstructionSet(overlay: seq<I.Instruction>, includeIllegal: bool) returns (o: Outcome<Fault>)
      requires instructions.Length == 256 && |overlay| == 256
      modifies instructions
      ensures o.Pass? <==> I.NoCollision(old(instructions[..]), overlay, includeIllegal)
      ensures o.Pass? ==> instructions[..] == I.Overlaid(old(instructions[..]), overlay, includeIllegal)
      ensures o.Fail? ==> o.error.Collision?
    {
      var i := 0;
      while i < 0x100
        invariant 0 <= i <= 0x100
        invariant forall j :: 0 <= j < i ==>
          instructions[j] == if I.Taken(overlay[j], includeIllegal) then overlay[j] else old(instructions[j])
        invariant forall j :: i <= j < 0x100 ==> instructions[j] == old(instructions[j])
        invariant forall j :: 0 <= j < i && I.Taken(overlay[j], includeIllegal) ==> old(instructions[j]).mode == I.Illegal
      {
        var newInstruction := overlay[i];
        var illegal := newInstruction.mode == I.Illegal;
        if includeIllegal || !illegal {
          var oldInstruction := instructions[i];
          if oldInstruction.mode != I.Illegal {
            return Fail(Collision(i));
          }
          instructions[i] := newInstruction;
        }
        i := i + 1;
      }
      assert instructions[..] == I.Overlaid(old(instructions[..]), overlay, includeIllegal);
      return Pass;
    }

    // -------------------------------------------------------------------
    // Memory, stack and fetch

    /** GetByte: the content of a cell, read through the bus; a cell that holds nothing is a fault. */
    method GetByte(offset: int) returns (o: Outcome<Fault>, value: int)
      modifies bus`events
      ensures o.Pass? <==> offset in bus.cells
      ensures o.Pass? ==> value == bus.cells[offset]
      ensures o.Fail? ==> o.error == UndefinedRead(offset)
    {
      var content := bus.GetByte(offset);
      if content.None? {
        return Fail(UndefinedRead(offset)), 0;
      }
      return Pass, content.value;
    }

    /** SetByte: a write through the bus, which a locked cell refuses. */
    method SetByte(offset: int, value: int)
      modifies bus`cells, bus`events
      ensures bus.cells == Stored(old(bus.cells), bus.locked, offset, value)
    {
      bus.SetByte(offset, value);
    }

    /** GetWord: the little-endian word at offset. */
    method GetWord(offset: int) returns (o: Outcome<Fault>, word: int)
      modifies bus`events
      ensures o.Pass? <==> WordDefined(bus.cells, offset)
      ensures o.Pass? ==> word == WordAt(bus.cells, offset)
    {
      word := 0;
      var low :- GetByte(offset);
      var high :- GetByte(offset + 1);
      return Pass, MakeWord(low, high);
    }

    /** PushByte: the value goes to 0x100+S, then S moves down. */
    method PushByte(value: int)
      modifies this`s, bus`cells, bus`events
      ensures s == old(s) - 1
      ensures bus.cells == Stored(old(bus.cells), bus.locked, PageOne + old(s), value)
    {
      var offset := PageOne + s;
      s := s - 1;
      SetByte(offset, value);
    }

    /** PopByte: S moves up, then the value at 0x100+S is read. */
    method PopByte() returns (o: Outcome<Fault>, value: int)
      modifies this`s, bus`events
      ensures s == old(s) + 1
      ensures o.Pass? <==> PageOne + s in bus.cells
      ensures o.Pass? ==> value == bus.cells[PageOne + s]
    {
      s := s + 1;
      o, value := GetByte(PageOne + s);
    }

    /** PushWord: the high byte first, then the low byte. */
    method PushWord(value: int)
      modifies this`s, bus`cells, bus`events
      ensures s == old(s) - 2
      ensures bus.cells == PushedWord(old(bus.cells), bus.locked, old(s), value)
    {
      PushByte(HighByte(value));
      PushByte(LowByte(value));
    }

    /** PopWord: the low byte first, then the high byte. */
    method PopWord() returns (o: Outcome<Fault>, word: int)
      modifies this`s, bus`events
      ensures o.Pass? <==> WordDefined(bus.cells, PageOne + old(s) + 1)
      ensures o.Pass? ==> s == old(s) + 2 && word == WordAt(bus.cells, PageOne + old(s) + 1)
    {
      word := 0;
      var low :- PopByte();
      var high :- PopByte();
      return Pass, MakeWord(low, high);
    }

    /** FetchByte: the byte at PC; PC moves on by one even when the read fails. */
    method FetchByte() returns (o: Outcome<Fault>, value: int)
      modifies this`pc, bus`events
      ensures pc == old(pc) + 1
      ensures o.Pass? <==> old(pc) in bus.cells
      ensures o.Pass? ==> value == bus.cells[old(pc)]
    {
      var offset := pc;
      pc := pc + 1;
      o, value := GetByte(offset);
    }

    /** FetchWord: the word at PC; PC moves on by two. */
    method FetchWord() returns (o: Outcome<Fault>, word: int)
      modifies this`pc, bus`events
      ensures pc == old(pc) + 2
      ensures o.Pass? <==> WordDefined(bus.cells, old(pc))
      ensures o.Pass? ==> word == WordAt(bus.cells, old(pc))
    {
      o, word := GetWord(pc);
      pc := pc + 2;
    }

    // -------------------------------------------------------------------
    // Zero and Negative

    /** UpdateZeroFlag: Zero exactly when the datum is 0; the new Zero is returned. */
    method UpdateZeroFlag(datum: int) returns (zero: bool)
      modifies p`zero
      ensures zero == (datum == 0) && Status() == old(Status()).(zero := zero)
    {
      p.zero := datum == 0;
      return p.zero;
    }

    /** UpdateNegativeFlag: Negative exactly when the datum is below zero. */
    method UpdateNegativeFlag(datum: int)
      modifies p`negative
      ensures Status() == old(Status()).(negative := datum < 0)
    {
      p.negative := datum < 0;
    }

    /** UpdateZeroNegativeFlags: the flags of the datum as a byte result. */
    method UpdateZeroNegativeFlags(datum: int)
      modifies p`zero, p`negative
      ensures Status() == A.ZeroNegative(old(Status()), datum)
    {
      var zero := UpdateZeroFlag(datum);
      if zero {
        p.negative := false;
      } else {
        UpdateNegativeFlag(SignedByte(datum));
      }
    }

    // -------------------------------------------------------------------
    // Addressing: the Address_* resolvers

    /** Address_ZeroPage: the operand byte. */
    method AddressZeroPage() returns (o: Outcome<Fault>, address: int)
      modifies this`pc, bus`events
      ensures var e := ResolveWrite(I.ToZeroPage, bus.cells, old(pc), x, y);
        (o.Pass? <==> e.Some?) && (o.Pass? ==> address == e.value.address && pc == old(pc) + e.value.size)
    {
      o, address := FetchByte();
    }

    /** Address_ZeroPageX: the operand byte plus X, kept within the zero page. */
    method AddressZeroPageX() returns (o: Outcome<Fault>, address: int)
      modifies this`pc, bus`events
      ensures var e := ResolveWrite(I.ToZeroPageX, bus.cells, old(pc), x, y);
        (o.Pass? <==> e.Some?) && (o.Pass? ==> address == e.value.address && pc == old(pc) + e.value.size)
    {
      address := 0;
      var base :- FetchByte();
      return Pass, LowByte(base + x);
    }

    /** Address_ZeroPageY: the operand byte plus Y, kept within the zero page. */
    method AddressZeroPageY() returns (o: Outcome<Fault>, address: int)
      modifies this`pc, bus`events
      ensures var e := ResolveWrite(I.ToZeroPageY, bus.cells, old(pc), x, y);
        (o.Pass? <==> e.Some?) && (o.Pass? ==> address == e.value.address && pc == old(pc) + e.value.size)
    {
      address := 0;
      var base :- FetchByte();
      return Pass, LowByte(base + y);
    }

    /** Address_IndexedIndirectX: the word at the zero-page address the operand plus X gives. */
    method AddressIndexedIndirectX() returns (o: Outcome<Fault>, address: int)
      modifies this`pc, bus`events
      ensures var e := ResolveWrite(I.ToIndexedIndirectX, bus.cells, old(pc), x, y);
        (o.Pass? <==> e.Some?) && (o.Pass? ==> address == e.value.address && pc == old(pc) + e.value.size)
    {
      address := 0;
      var pointer :- AddressZeroPageX();
      address :- GetWord(pointer);
      return Pass, address;
    }

    /** Address_IndexedIndirectY_Read: the word the operand points at, plus Y; a cycle more when that word's low byte is 0xff. */
    method AddressIndexedIndirectYRead() returns (o: Outcome<Fault>, address: int)
      modifies this`pc, this`cycles, bus`events
      ensures var e := ResolveRead(I.FromIndirectIndexedY, bus.cells, old(pc), x, y);
        (o.Pass? <==> e.Some?)
        && (o.Pass? ==> address == e.value.address && pc == old(pc) + e.value.size && cycles == old(cycles) + e.value.penalty)
      ensures cycles >= old(cycles)
    {
      address := 0;
      var pointer :- FetchByte();
      var indirection :- GetWord(pointer);
      if LowByte(indirection) == 0xff {
        cycles := cycles + 1;
      }
      return Pass, indirection + y;
    }

    /** Address_IndexedIndirectY_Write: the word the operand points at, plus Y, with no extra cycle. */
    method AddressIndexedIndirectYWrite() returns (o: Outcome<Fault>, address: int)
      modifies this`pc, bus`events
      ensures var e := ResolveWrite(I.ToIndirectIndexedY, bus.cells, old(pc), x, y);
        (o.Pass? <==> e.Some?) && (o.Pass? ==> address == e.value.address && pc == old(pc) + e.value.size)
    {
      address := 0;
      var pointer :- FetchByte();
      var indirection :- GetWord(pointer);
      return Pass, indirection + y;
    }

    /** Address_Absolute: the operand word. */
    method AddressAbsolute() returns (o: Outcome<Fault>, address: int)
      modifies this`pc, bus`events
      ensures var e := ResolveWrite(I.ToAbsolute, bus.cells, old(pc), x, y);
        (o.Pass? <==> e.Some?) && (o.Pass? ==> address == e.value.address && pc == old(pc) + e.value.size)
    {
      o, address := FetchWord();
    }

    /** Address_AbsoluteXIndirect: the word at the operand word plus X. */
    method AddressAbsoluteXIndirect() returns (o: Outcome<Fault>, address: int)
      modifies this`pc, bus`events
      ensures o.Pass? <==> WordDefined(bus.cells, old(pc)) && WordDefined(bus.cells, WordAt(bus.cells, old(pc)) + x)
      ensures o.Pass? ==> address == WordAt(bus.cells, WordAt(bus.cells, old(pc)) + x) && pc == old(pc) + 2
    {
      address := 0;
      var base :- FetchWord();
      address :- GetWord(base + x);
      return Pass, address;
    }

    /** Address_AbsoluteX_Read: the operand word plus X; a cycle more when the sum's low byte is 0xff. */
    method AddressAbsoluteXRead() returns (o: Outcome<Fault>, address: int)
      modifies this`pc, this`cycles, bus`events
      ensures var e := ResolveRead(I.FromAbsoluteX, bus.cells, old(pc), x, y);
        (o.Pass? <==> e.Some?)
        && (o.Pass? ==> address == e.value.address && pc == old(pc) + e.value.size && cycles == old(cycles) + e.value.penalty)
      ensures cycles >= old(cycles)
    {
      address := 0;
      var base :- FetchWord();
      var offset := base + x;
      if LowByte(offset) == 0xff {
        cycles := cycles + 1;
      }
      return Pass, offset;
    }

    /** Address_AbsoluteX_Write: the operand word plus X, with no extra cycle. */
    method AddressAbsoluteXWrite() returns (o: Outcome<Fault>, address: int)
      modifies this`pc, bus`events
      ensures var e := ResolveWrite(I.ToAbsoluteX, bus.cells, old(pc), x, y);
        (o.Pass? <==> e.Some?) && (o.Pass? ==> address == e.value.address && pc == old(pc) + e.value.size)
    {
      address := 0;
      var base :- FetchWord();
      return Pass, base + x;
    }

    /** Address_AbsoluteY_Read: the operand word plus Y; a cycle more when the sum's low byte is 0xff. */
    method AddressAbsoluteYRead() returns (o: Outcome<Fault>, address: int)
      modifies this`pc, this`cycles, bus`events
      ensures var e := ResolveRead(I.FromAbsoluteY, bus.cells, old(pc), x, y);
        (o.Pass? <==> e.Some?)
        && (o.Pass? ==> address == e.value.address && pc == old(pc) + e.value.size && cycles == old(cycles) + e.value.penalty)
      ensures cycles >= old(cycles)
    {
      address := 0;
      var base :- FetchWord();
      var offset := base + y;
      if LowByte(offset) == 0xff {
        cycles := cycles + 1;
      }
      return Pass, offset;
    }

    /** Address_AbsoluteY_Write: the operand word plus Y, with no extra cycle. */
    method AddressAbsoluteYWrite() returns (o: Outcome<Fault>, address: int)
      modifies this`pc, bus`events
      ensures var e := ResolveWrite(I.ToAbsoluteY, bus.cells, old(pc), x, y);
        (o.Pass? <==> e.Some?) && (o.Pass? ==> address == e.value.address && pc == old(pc) + e.value.size)
    {
      address := 0;
      var base :- FetchWord();
      return Pass, base + y;
    }

    /** Address_ZeroPageIndirect: the word the operand points at. */
    method AddressZeroPageIndirect() returns (o: Outcome<Fault>, address: int)
      modifies this`pc, bus`events
      ensures var e := ResolveWrite(I.ToZeroPageIndirect, bus.cells, old(pc), x, y);
        (o.Pass? <==> e.Some?) && (o.Pass? ==> address == e.value.address && pc == old(pc) + e.value.size)
    {
      address := 0;
      var pointer :- FetchByte();
      address :- GetWord(pointer);
      return Pass, address;
    }

    /** The resolver a writing or modifying handler uses for its mode (the *_Write forms for the indexed modes). */
    method WriteAddress(to: I.WriteTo) returns (o: Outcome<Fault>, address: int)
      modifies this`pc, bus`events
      ensures var e := ResolveWrite(to, bus.cells, old(pc), x, y);
        (o.Pass? <==> e.Some?) && (o.Pass? ==> address == e.value.address && pc == old(pc) + e.value.size)
    {
      match to
      case ToZeroPage => o, address := AddressZeroPage();
      case ToZeroPageX => o, address := AddressZeroPageX();
      case ToZeroPageY => o, address := AddressZeroPageY();
      case ToAbsolute => o, address := AddressAbsolute();
      case ToAbsoluteX => o, address := AddressAbsoluteXWrite();
      case ToAbsoluteY => o, address := AddressAbsoluteYWrite();
      case ToIndexedIndirectX => o, address := AddressIndexedIndirectX();
      case ToIndirectIndexedY => o, address := AddressIndexedIndirectYWrite();
      case ToZeroPageIndirect => o, address := AddressZeroPageIndirect();
    }

    /** The ReadByte_* family: the operand of a reading instruction, charging the read resolvers' extra cycle. */
    method ReadByte(from: I.ReadFrom) returns (o: Outcome<Fault>, value: int)
      modifies this`pc, this`cycles, bus`events
      ensures var e := ResolveRead(from, bus.cells, old(pc), x, y);
        (o.Pass? <==> e.Some? && e.value.address in bus.cells)
        && (o.Pass? ==> value == bus.cells[e.value.address] && pc == old(pc) + e.value.size
                        && cycles == old(cycles) + e.value.penalty)
      ensures cycles >= old(cycles)
    {
      value := 0;
      var address;
      match from {
        case FromImmediate =>
          o, value := FetchByte();
          return;
        case FromZeroPage => address :- AddressZeroPage();
        case FromZeroPageX => address :- AddressZeroPageX();
        case FromZeroPageY => address :- AddressZeroPageY();
        case FromAbsolute => address :- AddressAbsolute();
        case FromAbsoluteX => address :- AddressAbsoluteXRead();
        case FromAbsoluteY => address :- AddressAbsoluteYRead();
        case FromIndexedIndirectX => address :- AddressIndexedIndirectX();
        case FromIndirectIndexedY => address :- AddressIndexedIndirectYRead();
        case FromZeroPageIndirect => address :- AddressZeroPageIndirect();
      }
      o, value := GetByte(address);
    }

    /** The WriteByte_* family: the value goes to the address the mode resolves to. */
    method WriteByte(to: I.WriteTo, value: int) returns (o: Outcome<Fault>)
      modifies this`pc, bus`cells, bus`events
      ensures var e := ResolveWrite(to, old(bus.cells), old(pc), x, y);
        (o.Pass? <==> e.Some?)
        && (o.Pass? ==> pc == old(pc) + e.value.size && bus.cells == Stored(old(bus.cells), bus.locked, e.value.address, value))
    {
      var address :- WriteAddress(to);
      SetByte(address, value);
      return Pass;
    }

    // -------------------------------------------------------------------
    // The operations on an operand

    /** The data registers as one value. */
    function Regs(): Registers
      reads this`a, this`x, this`y, this`s
    {
      Registers(a, x, y, s)
    }

    /** ORA: A |= data. */
    method Ora(data: int)
      modifies this`a, p`zero, p`negative
      ensures var r := A.Ora(old(a), data, old(Status())); a == r.value && Status() == r.flags
    {
      a := Bits.Or(a, data);
      UpdateZeroNegativeFlags(a);
    }

    /** AND: A &= data. */
    method And(data: int)
      modifies this`a, p`zero, p`negative
      ensures var r := A.AndOp(old(a), data, old(Status())); a == r.value && Status() == r.flags
    {
      a := Bits.And(a, data);
      UpdateZeroNegativeFlags(a);
    }

    /** EOR: A ^= data. */
    method Eor(data: int)
      modifies this`a, p`zero, p`negative
      ensures var r := A.Eor(old(a), data, old(Status())); a == r.value && Status() == r.flags
    {
      a := Bits.Xor(a, data);
      UpdateZeroNegativeFlags(a);
    }

    /** LDA, LDX and LDY: the register takes the operand. */
    method Load(target: I.Register, data: int)
      requires target != I.RegS
      modifies this`a, this`x, this`y, p`zero, p`negative
      ensures Regs() == old(Regs()).With(target, data)
      ensures Status() == A.ZeroNegative(old(Status()), data)
    {
      match target {
        case RegA => a := data;
        case RegX => x := data;
        case RegY => y := data;
      }
      UpdateZeroNegativeFlags(data);
    }

    /** CMP, CPX and CPY: first compared with second, registers untouched. */
    method Cmp(first: int, second: int)
      modifies p`zero, p`negative, p`carry
      ensures Status() == A.Compare(first, second, old(Status()))
    {
      var result := first - second;
      UpdateZeroNegativeFlags(LowByte(result));
      p.carry := HighByte(result) == 0;
    }

    /** ADC_b: the binary sum with carry. */
    method AdcBinary(data: int)
      modifies this`a, p`zero, p`negative, p`overflow, p`carry
      ensures var r := A.AdcBinary(old(a), data, old(Status())); a == r.value && Status() == r.flags
    {
      var carry := if p.carry then 1 else 0;
      var sum := a + data + carry;
      UpdateZeroNegativeFlags(sum);
      p.overflow := A.AddOverflow(a, data, sum);
      p.carry := HighByte(sum) != 0;
      a := sum;
    }

    /** ADC_d: A and the four arithmetic flags take the result of the digit-by-digit sum Alu.AdcDecimal computes. */
    method AdcDecimal(data: int)
      modifies this`a, p`zero, p`negative, p`overflow, p`carry
      ensures var r := A.AdcDecimal(level, old(a), data, old(Status())); a == r.value && Status() == r.flags
    {
      var r := A.AdcDecimal(level, a, data, Status());
      a := r.value;
      p.zero := r.flags.zero;
      p.negative := r.flags.negative;
      p.overflow := r.flags.overflow;
      p.carry := r.flags.carry;
    }

    /** ADC: decimal when the Decimal flag is set, binary otherwise. */
    method Adc(data: int)
      modifies this`a, p`zero, p`negative, p`overflow, p`carry
      ensures var r := if old(Status()).decimal then A.AdcDecimal(level, old(a), data, old(Status()))
                       else A.AdcBinary(old(a), data, old(Status()));
        a == r.value && Status() == r.flags
    {
      if p.decimal {
        AdcDecimal(data);
      } else {
        AdcBinary(data);
      }
    }

    /** SBC_b: the binary difference with borrow. */
    method SbcBinary(data: int)
      modifies this`a, p`zero, p`negative, p`overflow, p`carry
      ensures var r := A.SbcBinary(old(a), data, old(Status())); a == r.value && Status() == r.flags
    {
      var carry := if p.carry then 0 else 1;
      var difference := a - data - carry;
      UpdateZeroNegativeFlags(difference);
      p.overflow := A.SubOverflow(a, data, difference);
      p.carry := HighByte(difference) == 0;
      a := difference;
    }

    /** SBC_d: A and the four arithmetic flags take the result of the digit-by-digit difference Alu.SbcDecimal computes. */
    method SbcDecimal(data: int)
      modifies this`a, p`zero, p`negative, p`overflow, p`carry
      ensures var r := A.SbcDecimal(level, old(a), data, old(Status())); a == r.value && Status() == r.flags
    {
      var r := A.SbcDecimal(level, a, data, Status());
      a := r.value;
      p.zero := r.flags.zero;
      p.negative := r.flags.negative;
      p.overflow := r.flags.overflow;
      p.carry := r.flags.carry;
    }

    /** SBC: decimal when the Decimal flag is set, binary otherwise. */
    method Sbc(data: int)
      modifies this`a, p`zero, p`negative, p`overflow, p`carry
      ensures var r := if old(Status()).decimal then A.SbcDecimal(level, old(a), data, old(Status()))
                       else A.SbcBinary(old(a), data, old(Status()));
        a == r.value && Status() == r.flags
    {
      if p.decimal {
        SbcDecimal(data);
      } else {
        SbcBinary(data);
      }
    }

    /** BIT_immediate: Zero from A & data. */
    method BitImmediate(data: int)
      modifies p`zero
      ensures Status() == A.BitImmediate(a, data, old(Status()))
    {
      var zero := UpdateZeroFlag(Bits.And(a, data));
    }

    /** BIT: BIT_immediate, then Negative and Overflow from bits 7 and 6 of the operand. */
    method Bit(data: int)
      modifies p`zero, p`negative, p`overflow
      ensures Status() == A.BitTest(a, data, old(Status()))
    {
      BitImmediate(data);
      p.negative := Bits.And(data, 0x80) != 0;
      p.overflow := Bits.And(data, 0x40) != 0;
    }

    /** The operation of a reading instruction on its operand. */
    method Operate(op: I.ReadOp, data: int)
      modifies this`a, this`x, this`y, p`zero, p`negative, p`overflow, p`carry
      ensures (Regs(), Status()) == Operation(level, op, old(Regs()), old(Status()), data)
    {
      match op {
        case Ora => Ora(data);
        case And => And(data);
        case Eor => Eor(data);
        case Lda => Load(I.RegA, data);
        case Ldx => Load(I.RegX, data);
        case Ldy => Load(I.RegY, data);
        case Cmp => Cmp(a, data);
        case Cpx => Cmp(x, data);
        case Cpy => Cmp(y, data);
        case Adc => Adc(data);
        case Sbc => Sbc(data);
        case Bit => Bit(data);
        case BitImmediate => BitImmediate(data);
      }
    }

    // -------------------------------------------------------------------
    // Shifts, increments and bit changes in place

    /** ASL_data: the shifted value is returned; the flags follow it. */
    method AslData(data: int) returns (result: int)
      modifies p`zero, p`negative, p`carry
      ensures var r := A.Asl(data, old(Status())); result == r.value && Status() == r.flags
    {
      result := Bits.Shl(data, 1);
      UpdateZeroNegativeFlags(result);
      p.carry := Bits.And(data, 0x80) != 0;
    }

    /** LSR_data. */
    method LsrData(data: int) returns (result: int)
      modifies p`zero, p`negative, p`carry
      ensures var r := A.Lsr(data, old(Status())); result == r.value && Status() == r.flags
    {
      p.carry := Bits.And(data, 1) != 0;
      result := Bits.Shr(data, 1);
      UpdateZeroNegativeFlags(result);
    }

    /** ROL_data: the old Carry enters bit 0. */
    method RolData(data: int) returns (result: int)
      modifies p`zero, p`negative, p`carry
      ensures var r := A.Rol(data, old(Status())); result == r.value && Status() == r.flags
    {
      var carry := p.carry;
      p.carry := Bits.And(data, 0x80) != 0;
      result := Bits.Shl(data, 1);
      if carry {
        result := Bits.Or(result, 1);
      }
      UpdateZeroNegativeFlags(result);
    }

    /** ROR_data: the old Carry enters bit 7. */
    method RorData(data: int) returns (result: int)
      modifies p`zero, p`negative, p`carry
      ensures var r := A.Ror(data, old(Status())); result == r.value && Status() == r.flags
    {
      var carry := p.carry;
      p.carry := Bits.And(data, 1) != 0;
      result := Bits.Shr(data, 1);
      if carry {
        result := Bits.Or(result, 0x80);
      }
      UpdateZeroNegativeFlags(result);
    }

    /** The *_data method of a shift. */
    method ShiftData(shift: I.ShiftOp, data: int) returns (result: int)
      modifies p`zero, p`negative, p`carry
      ensures var r := Shifted(shift, data, old(Status())); result == r.value && Status() == r.flags
    {
      match shift {
        case Asl => result := AslData(data);
        case Lsr => result := LsrData(data);
        case Rol => result := RolData(data);
        case Ror => result := RorData(data);
      }
    }

    /** The *_contents methods: the cell is read, shifted and written back. */
    method ShiftContents(shift: I.ShiftOp, offset: int) returns (o: Outcome<Fault>)
      modifies p`zero, p`negative, p`carry, bus`cells, bus`events
      ensures o.Pass? <==> offset in old(bus.cells)
      ensures o.Pass? ==>
        var r := Shifted(shift, old(bus.cells)[offset], old(Status()));
        bus.cells == Stored(old(bus.cells), bus.locked, offset, r.value) && Status() == r.flags
      ensures o.Fail? ==> bus.cells == old(bus.cells) && Status() == old(Status())
    {
      var content :- GetByte(offset);
      var result := ShiftData(shift, content);
      SetByte(offset, result);
      return Pass;
    }

    /** INC: the cell plus one is written back, its flags set. */
    method Inc(offset: int) returns (o: Outcome<Fault>)
      modifies p`zero, p`negative, bus`cells, bus`events
      ensures o.Pass? <==> offset in old(bus.cells)
      ensures o.Pass? ==>
        var content := old(bus.cells)[offset] + 1;
        bus.cells == Stored(old(bus.cells), bus.locked, offset, content) && Status() == A.ZeroNegative(old(Status()), content)
      ensures o.Fail? ==> bus.cells == old(bus.cells) && Status() == old(Status())
    {
      var content :- GetByte(offset);
      content := content + 1;
      SetByte(offset, content);
      UpdateZeroNegativeFlags(content);
      return Pass;
    }

    /** DEC: the cell minus one is written back, its flags set. */
    method Dec(offset: int) returns (o: Outcome<Fault>)
      modifies p`zero, p`negative, bus`cells, bus`events
      ensures o.Pass? <==> offset in old(bus.cells)
      ensures o.Pass? ==>
        var content := old(bus.cells)[offset] - 1;
        bus.cells == Stored(old(bus.cells), bus.locked, offset, content) && Status() == A.ZeroNegative(old(Status()), content)
      ensures o.Fail? ==> bus.cells == old(bus.cells) && Status() == old(Status())
    {
      var content :- GetByte(offset);
      content := content - 1;
      SetByte(offset, content);
      UpdateZeroNegativeFlags(content);
      return Pass;
    }

    /** TSB: Zero from A & content, then the content with A's bits set. */
    method Tsb(address: int) returns (o: Outcome<Fault>)
      modifies p`zero, bus`cells, bus`events
      ensures o.Pass? <==> address in old(bus.cells)
      ensures o.Pass? ==>
        var r := A.TestAndSet(a, old(bus.cells)[address], old(Status()));
        bus.cells == Stored(old(bus.cells), bus.locked, address, r.value) && Status() == r.flags
      ensures o.Fail? ==> bus.cells == old(bus.cells) && Status() == old(Status())
    {
      var content :- GetByte(address);
      BitImmediate(content);
      SetByte(address, Bits.Or(content, a));
      return Pass;
    }

    /** TRB: Zero from A & content, then the content with A's bits cleared. */
    method Trb(address: int) returns (o: Outcome<Fault>)
      modifies p`zero, bus`cells, bus`events
      ensures o.Pass? <==> address in old(bus.cells)
      ensures o.Pass? ==>
        var r := A.TestAndReset(a, old(bus.cells)[address], old(Status()));
        bus.cells == Stored(old(bus.cells), bus.locked, address, r.value) && Status() == r.flags
      ensures o.Fail? ==> bus.cells == old(bus.cells) && Status() == old(Status())
    {
      var content :- GetByte(address);
      BitImmediate(content);
      SetByte(address, Bits.And(content, Bits.Not(a)));
      return Pass;
    }

    /** RMB: the cell with the flag's bits cleared; no status flag changes. */
    method Rmb(address: int, flag: int) returns (o: Outcome<Fault>)
      modifies bus`cells, bus`events
      ensures o.Pass? <==> address in old(bus.cells)
      ensures o.Pass? ==> bus.cells == Stored(old(bus.cells), bus.locked, address, A.ResetBits(old(bus.cells)[address], flag))
      ensures o.Fail? ==> bus.cells == old(bus.cells)
    {
      var data :- GetByte(address);
      data := Bits.And(data, Bits.Not(flag));
      SetByte(address, data);
      return Pass;
    }

    /** SMB: the cell with the flag's bits set; no status flag changes. */
    method Smb(address: int, flag: int) returns (o: Outcome<Fault>)
      modifies bus`cells, bus`events
      ensures o.Pass? <==> address in old(bus.cells)
      ensures o.Pass? ==> bus.cells == Stored(old(bus.cells), bus.locked, address, A.SetBits(old(bus.cells)[address], flag))
      ensures o.Fail? ==> bus.cells == old(bus.cells)
    {
      var data :- GetByte(address);
      data := Bits.Or(data, flag);
      SetByte(address, data);
      return Pass;
    }

    // -------------------------------------------------------------------
    // Registers, flags and the stack

    /** Writes one register. */
    method SetRegister(reg: I.Register, value: int)
      modifies this`a, this`x, this`y, this`s
      ensures Regs() == old(Regs()).With(reg, value)
    {
      match reg {
        case RegA => a := value;
        case RegX => x := value;
        case RegY => y := value;
        case RegS => s := value;
      }
    }

    /** TAX, TAY, TXA, TYA and TSX: the target takes the source, Zero and Negative follow it; TXS changes no flag. */
    method Transfer(source: I.Register, target: I.Register)
      modifies this`a, this`x, this`y, this`s, p`zero, p`negative
      ensures Regs() == old(Regs()).With(target, old(Regs()).Get(source))
      ensures Status() == if target == I.RegS then old(Status()) else A.ZeroNegative(old(Status()), old(Regs()).Get(source))
    {
      var value := Regs().Get(source);
      SetRegister(target, value);
      if target != I.RegS {
        UpdateZeroNegativeFlags(value);
      }
    }

    /** INX, INY and INC A: the register plus one, unmasked, with its flags. */
    method IncrementRegister(reg: I.Register)
      modifies this`a, this`x, this`y, this`s, p`zero, p`negative
      ensures Regs() == old(Regs()).With(reg, old(Regs()).Get(reg) + 1)
      ensures Status() == A.ZeroNegative(old(Status()), old(Regs()).Get(reg) + 1)
    {
      var value := Regs().Get(reg) + 1;
      SetRegister(reg, value);
      UpdateZeroNegativeFlags(value);
    }

    /** DEX, DEY and DEC A: the register minus one, unmasked, with its flags. */
    method DecrementRegister(reg: I.Register)
      modifies this`a, this`x, this`y, this`s, p`zero, p`negative
      ensures Regs() == old(Regs()).With(reg, old(Regs()).Get(reg) - 1)
      ensures Status() == A.ZeroNegative(old(Status()), old(Regs()).Get(reg) - 1)
    {
      var value := Regs().Get(reg) - 1;
      SetRegister(reg, value);
      UpdateZeroNegativeFlags(value);
    }

    /** PHA, PHX and PHY: the register goes onto the stack. */
    method Push(reg: I.Register)
      modifies this`s, bus`cells, bus`events
      ensures s == old(s) - 1
      ensures bus.cells == Stored(old(bus.cells), bus.locked, PageOne + old(s), old(Regs()).Get(reg))
    {
      PushByte(Regs().Get(reg));
    }

    /** PLA, PLX and PLY: the register takes the byte pulled from the stack, with its flags. */
    method Pull(reg: I.Register) returns (o: Outcome<Fault>)
      modifies this`a, this`x, this`y, this`s, p`zero, p`negative, bus`events
      ensures o.Pass? <==> PageOne + old(s) + 1 in bus.cells
      ensures o.Pass? ==>
        var value := bus.cells[PageOne + old(s) + 1];
        Regs() == old(Regs()).(s := old(s) + 1).With(reg, value) && Status() == A.ZeroNegative(old(Status()), value)
    {
      var value :- PopByte();
      SetRegister(reg, value);
      UpdateZeroNegativeFlags(value);
      return Pass;
    }

    /** PHP: Break is set in the live flags, then their byte is pushed. */
    method PushStatus()
      modifies this`s, p`brk, bus`cells, bus`events
      ensures Status() == old(Status()).(brk := true)
      ensures s == old(s) - 1
      ensures bus.cells == Stored(old(bus.cells), bus.locked, PageOne + old(s), Encode(old(Status()).(brk := true)))
    {
      p.brk := true;
      var flags := p.ToNumber();
      PushByte(flags);
    }

    /** PLP: a new status register is decoded from the byte pulled, with Reserved set. */
    method PullStatus() returns (o: Outcome<Fault>)
      modifies this`s, this`p, bus`events
      ensures s == old(s) + 1
      ensures o.Pass? <==> PageOne + old(s) + 1 in bus.cells
      ensures o.Pass? ==> fresh(p) && Status() == Decode(bus.cells[PageOne + old(s) + 1]).(reserved := true)
      ensures o.Fail? ==> p == old(p)
    {
      var value :- PopByte();
      p := new StatusFlags(value);
      p.reserved := true;
      return Pass;
    }

    /** SEC, CLC, SED, CLD, SEI, CLI and CLV: one flag takes the value, no other changes. */
    method SetFlag(flag: StatusBit, value: bool)
      modifies p
      ensures Status() == With(old(Status()), flag, value)
    {
      match flag {
        case Negative => p.negative := value;
        case Overflow => p.overflow := value;
        case Reserved => p.reserved := value;
        case Break => p.brk := value;
        case Decimal => p.decimal := value;
        case Interrupt => p.interrupt := value;
        case Zero => p.zero := value;
        case Carry => p.carry := value;
      }
    }

    // -------------------------------------------------------------------
    // Stores and read-modify-write instructions

    /** STA, STX, STY and STZ: the register, or zero, goes to the resolved address. */
    method Store(stored: I.StoreValue, to: I.WriteTo) returns (o: Outcome<Fault>)
      modifies this`pc, bus`cells, bus`events
      ensures var e := ResolveWrite(to, old(bus.cells), old(pc), x, y);
        (o.Pass? <==> e.Some?)
        && (o.Pass? ==>
              pc == old(pc) + e.value.size && bus.cells == Stored(old(bus.cells), bus.locked, e.value.address, StoredValue(stored, Regs())))
    {
      o := WriteByte(to, StoredValue(stored, Regs()));
    }

    /** ASL A, LSR A, ROL A and ROR A: the accumulator shifted in place. */
    method ShiftAccumulator(shift: I.ShiftOp)
      modifies this`a, p`zero, p`negative, p`carry
      ensures var r := Shifted(shift, old(a), old(Status())); a == r.value && Status() == r.flags
    {
      a := ShiftData(shift, a);
    }

    /** ASL, LSR, ROL and ROR on memory: the cell at the resolved address is shifted in place. */
    method ShiftMemory(shift: I.ShiftOp, to: I.WriteTo) returns (o: Outcome<Fault>)
      modifies this`pc, p`zero, p`negative, p`carry, bus`cells, bus`events
      ensures var e := ResolveWrite(to, old(bus.cells), old(pc), x, y);
        (o.Pass? <==> e.Some? && e.value.address in old(bus.cells))
        && (o.Pass? ==>
              var r := Shifted(shift, old(bus.cells)[e.value.address], old(Status()));
              pc == old(pc) + e.value.size
              && bus.cells == Stored(old(bus.cells), bus.locked, e.value.address, r.value) && Status() == r.flags)
    {
      var address :- WriteAddress(to);
      o := ShiftContents(shift, address);
    }

    /** INC on memory: the cell at the resolved address plus one. */
    method IncrementMemory(to: I.WriteTo) returns (o: Outcome<Fault>)
      modifies this`pc, p`zero, p`negative, bus`cells, bus`events
      ensures var e := ResolveWrite(to, old(bus.cells), old(pc), x, y);
        (o.Pass? <==> e.Some? && e.value.address in old(bus.cells))
        && (o.Pass? ==>
              var content := old(bus.cells)[e.value.address] + 1;
              pc == old(pc) + e.value.size
              && bus.cells == Stored(old(bus.cells), bus.locked, e.value.address, content)
              && Status() == A.ZeroNegative(old(Status()), content))
    {
      var address :- WriteAddress(to);
      o := Inc(address);
    }

    /** DEC on memory: the cell at the resolved address minus one. */
    method DecrementMemory(to: I.WriteTo) returns (o: Outcome<Fault>)
      modifies this`pc, p`zero, p`negative, bus`cells, bus`events
      ensures var e := ResolveWrite(to, old(bus.cells), old(pc), x, y);
        (o.Pass? <==> e.Some? && e.value.address in old(bus.cells))
        && (o.Pass? ==>
              var content := old(bus.cells)[e.value.address] - 1;
              pc == old(pc) + e.value.size
              && bus.cells == Stored(old(bus.cells), bus.locked, e.value.address, content)
              && Status() == A.ZeroNegative(old(Status()), content))
    {
      var address :- WriteAddress(to);
      o := Dec(address);
    }

    /** TSB on zero page or absolute: A's bits set in the cell. */
    method TestAndSet(to: I.WriteTo) returns (o: Outcome<Fault>)
      modifies this`pc, p`zero, bus`cells, bus`events
      ensures var e := ResolveWrite(to, old(bus.cells), old(pc), x, y);
        (o.Pass? <==> e.Some? && e.value.address in old(bus.cells))
        && (o.Pass? ==>
              var r := A.TestAndSet(a, old(bus.cells)[e.value.address], old(Status()));
              pc == old(pc) + e.value.size
              && bus.cells == Stored(old(bus.cells), bus.locked, e.value.address, r.value) && Status() == r.flags)
    {
      var address :- WriteAddress(to);
      o := Tsb(address);
    }

    /** TRB on zero page or absolute: A's bits cleared in the cell. */
    method TestAndReset(to: I.WriteTo) returns (o: Outcome<Fault>)
      modifies this`pc, p`zero, bus`cells, bus`events
      ensures var e := ResolveWrite(to, old(bus.cells), old(pc), x, y);
        (o.Pass? <==> e.Some? && e.value.address in old(bus.cells))
        && (o.Pass? ==>
              var r := A.TestAndReset(a, old(bus.cells)[e.value.address], old(Status()));
              pc == old(pc) + e.value.size
              && bus.cells == Stored(old(bus.cells), bus.locked, e.value.address, r.value) && Status() == r.flags)
    {
      var address :- WriteAddress(to);
      o := Trb(address);
    }

    /** RMB0..RMB7: bit `bit` of the zero-page cell cleared (the mask 1 << bit). */
    method ResetMemoryBit(bit: nat) returns (o: Outcome<Fault>)
      modifies this`pc, bus`cells, bus`events
      ensures o.Pass? <==> old(pc) in old(bus.cells) && old(bus.cells)[old(pc)] in old(bus.cells)
      ensures o.Pass? ==>
        var address := old(bus.cells)[old(pc)];
        pc == old(pc) + 1
        && bus.cells == Stored(old(bus.cells), bus.locked, address, A.ResetBits(old(bus.cells)[address], Bits.Pow2(bit)))
    {
      var address :- AddressZeroPage();
      o := Rmb(address, Bits.Pow2(bit));
    }

    /** SMB0..SMB7: bit `bit` of the zero-page cell set (the mask 1 << bit). */
    method SetMemoryBit(bit: nat) returns (o: Outcome<Fault>)
      modifies this`pc, bus`cells, bus`events
      ensures o.Pass? <==> old(pc) in old(bus.cells) && old(bus.cells)[old(pc)] in old(bus.cells)
      ensures o.Pass? ==>
        var address := old(bus.cells)[old(pc)];
        pc == old(pc) + 1
        && bus.cells == Stored(old(bus.cells), bus.locked, address, A.SetBits(old(bus.cells)[address], Bits.Pow2(bit)))
    {
      var address :- AddressZeroPage();
      o := Smb(address, Bits.Pow2(bit));
    }

    /** The reading instructions: the operand the mode resolves to, then the operation on it. */
    method Read(op: I.ReadOp, from: I.ReadFrom) returns (o: Outcome<Fault>)
      modifies this`pc, this`cycles, this`a, this`x, this`y, p`zero, p`negative, p`overflow, p`carry, bus`events
      ensures cycles >= old(cycles)
      ensures var e := ResolveRead(from, bus.cells, old(pc), old(x), old(y));
        (o.Pass? <==> e.Some? && e.value.address in bus.cells)
        && (o.Pass? ==>
              pc == old(pc) + e.value.size && cycles == old(cycles) + e.value.penalty
              && (Regs(), Status()) == Operation(level, op, old(Regs()), old(Status()), bus.cells[e.value.address]))
    {
      var data :- ReadByte(from);
      Operate(op, data);
      return Pass;
    }

    // -------------------------------------------------------------------
    // Branches

    /** BranchOffset: PC moves by the displacement, at the cost BranchPenalty gives. */
    method BranchOffset(displacement: int)
      modifies this`pc, this`cycles
      ensures pc == old(pc) + displacement
      ensures cycles == old(cycles) + BranchPenalty(old(pc), displacement)
    {
      cycles := cycles + 1;
      var oldPage := HighByte(pc);
      pc := pc + displacement;
      var newPage := HighByte(pc);
      if oldPage != newPage {
        cycles := cycles + 2;
      }
    }

    /** ReadByte_ImmediateDisplacement: the operand byte as a signed displacement. */
    method ReadDisplacement() returns (o: Outcome<Fault>, displacement: int)
      modifies this`pc, bus`events
      ensures pc == old(pc) + 1
      ensures o.Pass? <==> old(pc) in bus.cells
      ensures o.Pass? ==> displacement == SignedByte(bus.cells[old(pc)])
    {
      displacement := 0;
      var value :- FetchByte();
      return Pass, SignedByte(value);
    }

    /** BRA: the branch is always taken. */
    method Branch() returns (o: Outcome<Fault>)
      modifies this`pc, this`cycles, bus`events
      ensures cycles >= old(cycles)
      ensures Branched(true, old(Snapshot()), o, Snapshot())
      ensures o.Pass? <==> old(pc) in bus.cells
      ensures o.Pass? ==>
        var displacement := SignedByte(bus.cells[old(pc)]);
        pc == old(pc) + 1 + displacement && cycles == old(cycles) + BranchPenalty(old(pc) + 1, displacement)
    {
      var displacement :- ReadDisplacement();
      BranchOffset(displacement);
      return Pass;
    }

    /** BPL, BMI, BVC, BVS, BCC, BCS, BNE and BEQ: the branch is taken when the condition holds; otherwise PC passes the operand. */
    method BranchConditionally(condition: bool) returns (o: Outcome<Fault>)
      modifies this`pc, this`cycles, bus`events
      ensures cycles >= old(cycles)
      ensures Branched(condition, old(Snapshot()), o, Snapshot())
      ensures o.Pass? <==> old(pc) in bus.cells
      ensures o.Pass? ==>
        var displacement := SignedByte(bus.cells[old(pc)]);
        if condition then pc == old(pc) + 1 + displacement && cycles == old(cycles) + BranchPenalty(old(pc) + 1, displacement)
        else pc == old(pc) + 1 && cycles == old(cycles)
    {
      var displacement :- ReadDisplacement();
      if condition {
        BranchOffset(displacement);
      }
      return Pass;
    }

    /**
     * BBR0..BBR7 and BBS0..BBS7: the zero-page cell is checked against the
     * mask; when the test comes out as wanted, PC moves on by the second
     * operand byte as it is, unsigned, and no cycle is added.
     */
    method BitBranch(check: int, whenSet: bool) returns (o: Outcome<Fault>)
      modifies this`pc, bus`events
      ensures var cells := bus.cells;
        o.Pass? <==> old(pc) in cells && cells[old(pc)] in cells && old(pc) + 1 in cells
      ensures o.Pass? ==>
        var contents, displacement := bus.cells[bus.cells[old(pc)]], bus.cells[old(pc) + 1];
        pc == old(pc) + 2 + if (Bits.And(contents, check) != 0) == whenSet then displacement else 0
    {
      var zp :- FetchByte();
      var contents :- GetByte(zp);
      var displacement :- FetchByte();
      if (Bits.And(contents, check) != 0) == whenSet {
        pc := pc + displacement;
      }
      return Pass;
    }

    // -------------------------------------------------------------------
    // Jumps, calls, returns and interrupts

    /** JSR: PC takes the operand after the address of the operand's last byte is pushed. */
    method Jsr() returns (o: Outcome<Fault>)
      modifies this`pc, this`s, bus`cells, bus`events
      ensures o.Pass? <==> WordDefined(old(bus.cells), old(pc))
      ensures o.Pass? ==>
        pc == WordAt(old(bus.cells), old(pc)) && s == old(s) - 2
        && bus.cells == PushedWord(old(bus.cells), bus.locked, old(s), old(pc) + 1)
    {
      var destination :- AddressAbsolute();
      PushWord(pc - 1);
      pc := destination;
      return Pass;
    }

    /** RTS: PC takes the word pulled from the stack, plus one. */
    method Rts() returns (o: Outcome<Fault>)
      modifies this`pc, this`s, bus`events
      ensures o.Pass? <==> WordDefined(bus.cells, PageOne + old(s) + 1)
      ensures o.Pass? ==> pc == WordAt(bus.cells, PageOne + old(s) + 1) + 1 && s == old(s) + 2
    {
      var word :- PopWord();
      pc := word + 1;
      return Pass;
    }

    /** RTI: PLP, then PC takes the word pulled from the stack. */
    method Rti() returns (o: Outcome<Fault>)
      modifies this`pc, this`s, this`p, bus`events
      ensures o.Pass? <==> PageOne + old(s) + 1 in bus.cells && WordDefined(bus.cells, PageOne + old(s) + 2)
      ensures o.Pass? ==> Status() == Decode(bus.cells[PageOne + old(s) + 1]).(reserved := true)
      ensures o.Pass? ==> pc == WordAt(bus.cells, PageOne + old(s) + 2) && s == old(s) + 3
      ensures p == old(p) || fresh(p)
    {
      o := PullStatus();
      if o.Fail? {
        return;
      }
      var word :- PopWord();
      pc := word;
      return Pass;
    }

    /** JMP absolute: PC takes the operand. */
    method Jmp() returns (o: Outcome<Fault>)
      modifies this`pc, bus`events
      ensures o.Pass? <==> WordDefined(bus.cells, old(pc))
      ensures o.Pass? ==> pc == WordAt(bus.cells, old(pc))
    {
      var destination :- AddressAbsolute();
      pc := destination;
      return Pass;
    }

    /** JMP indirect: PC takes the word the operand points at. */
    method JmpIndirect() returns (o: Outcome<Fault>)
      modifies this`pc, bus`events
      ensures o.Pass? <==> WordDefined(bus.cells, old(pc)) && WordDefined(bus.cells, WordAt(bus.cells, old(pc)))
      ensures o.Pass? ==> pc == WordAt(bus.cells, WordAt(bus.cells, old(pc)))
    {
      var pointer :- AddressAbsolute();
      var destination :- GetWord(pointer);
      pc := destination;
      return Pass;
    }

    /** JMP (absolute,X): PC takes the word at the operand plus X. */
    method JmpAbsoluteXIndirect() returns (o: Outcome<Fault>)
      modifies this`pc, bus`events
      ensures o.Pass? <==> WordDefined(bus.cells, old(pc)) && WordDefined(bus.cells, WordAt(bus.cells, old(pc)) + x)
      ensures o.Pass? ==> pc == WordAt(bus.cells, WordAt(bus.cells, old(pc)) + x)
    {
      var destination :- AddressAbsoluteXIndirect();
      pc := destination;
      return Pass;
    }

    /** The return address, then the flags byte, go onto the stack. */
    method PushFrame(w: int, status: int)
      modifies this`s, bus`cells, bus`events
      ensures s == old(s) - 3
      ensures bus.cells == InterruptFrame(old(bus.cells), bus.locked, old(s), w, status)
    {
      PushWord(w);
      PushByte(status);
    }

    /**
     * BRK: PC + 1 is pushed, then PHP; Interrupt is set, Decimal is cleared
     * from the 65SC02 on, and PC takes the IRQ vector.
     */
    method Brk() returns (o: Outcome<Fault>)
      modifies this`pc, this`s, p`brk, p`interrupt, p`decimal, bus`cells, bus`events
      ensures s == old(s) - 3
      ensures bus.cells == InterruptFrame(old(bus.cells), bus.locked, old(s), old(pc) + 1, Encode(old(Status()).(brk := true)))
      ensures Status() == old(Status()).(brk := true, interrupt := true,
                                         decimal := old(Status()).decimal && !level.AtLeast(I.Cpu65SC02))
      ensures o.Pass? <==> WordDefined(bus.cells, IrqVector)
      ensures o.Pass? ==> pc == WordAt(bus.cells, IrqVector)
    {
      PushBreakFrame(pc + 1);
      MaskInterrupts();
      var destination;
      o, destination := GetWord(IrqVector);
      if o.Pass? {
        pc := destination;
      }
    }

    /** BRK's pushes: the return address, then PHP. */
    method PushBreakFrame(w: int)
      modifies this`s, p`brk, bus`cells, bus`events
      ensures s == old(s) - 3
      ensures bus.cells == InterruptFrame(old(bus.cells), bus.locked, old(s), w, Encode(old(Status()).(brk := true)))
      ensures Status() == old(Status()).(brk := true)
    {
      PushWord(w);
      PushStatus();
    }

    /** BRK's flag changes after the push: Interrupt set, and Decimal cleared from the 65SC02 on. */
    method MaskInterrupts()
      modifies p`interrupt, p`decimal
      ensures Status() == old(Status()).(interrupt := true, decimal := old(Status()).decimal && !level.AtLeast(I.Cpu65SC02))
    {
      p.interrupt := true;
      if level.AtLeast(I.Cpu65SC02) {
        p.decimal := false;
      }
    }

    /** Interrupt: PC and the flags as they are are pushed, Interrupt is set and PC takes the vector. */
    method Interrupt(vector: int) returns (o: Outcome<Fault>)
      modifies this`pc, this`s, p`interrupt, bus`cells, bus`events
      ensures s == old(s) - 3
      ensures bus.cells == InterruptFrame(old(bus.cells), bus.locked, old(s), old(pc), Encode(old(Status())))
      ensures Status() == old(Status()).(interrupt := true)
      ensures o.Pass? <==> WordDefined(bus.cells, vector)
      ensures o.Pass? ==> pc == WordAt(bus.cells, vector)
    {
      var flags := p.ToNumber();
      PushFrame(pc, flags);
      p.interrupt := true;
      var destination;
      o, destination := GetWord(vector);
      if o.Pass? {
        pc := destination;
      }
    }

    /** The handler of an unfilled slot: a one-cycle NOP from the 65SC02 on, an illegal instruction before. */
    method Unfilled() returns (o: Outcome<Fault>)
      modifies this`cycles
      ensures o.Pass? <==> level.AtLeast(I.Cpu65SC02)
      ensures o.Pass? ==> cycles == old(cycles) + 1
      ensures o.Fail? ==> o.error == IllegalInstruction && cycles == old(cycles)
    {
      if level.AtLeast(I.Cpu65SC02) {
        cycles := cycles + 1;
        return Pass;
      }
      return Fail(IllegalInstruction);
    }

    // -------------------------------------------------------------------
    // Dispatch and the processor's life cycle

    /** Runs the handler an instruction descriptor points at. */
    method Perform(h: I.Handler) returns (o: Outcome<Fault>)
      modifies this`pc, this`a, this`x, this`y, this`s, this`p, this`cycles, p, bus`cells, bus`events
      ensures Performed(level, bus.locked, h, old(Snapshot()), o, Snapshot())
      ensures cycles >= old(cycles)
      ensures p == old(p) || fresh(p)
    {
      if DataHandler(h) {
        o := PerformDataOperation(h);
      } else if RegisterHandler(h) {
        o := PerformRegisterOperation(h);
      } else {
        o := PerformControl(h);
      }
    }

    /** The handlers that read or write an operand. */
    method PerformDataOperation(h: I.Handler) returns (o: Outcome<Fault>)
      modifies this`pc, this`a, this`x, this`y, this`cycles, p`zero, p`negative, p`overflow, p`carry, bus`cells, bus`events
      ensures DataHandler(h) ==> Performed(level, bus.locked, h, old(Snapshot()), o, Snapshot())
      ensures cycles >= old(cycles)
    {
      if h.Read? {
        o := PerformRead(h);
      } else if h.Store? {
        o := PerformStore(h);
      } else if h.ShiftAccumulator? || h.ShiftMemory? {
        o := PerformShift(h);
      } else if h.IncrementMemory? || h.DecrementMemory? {
        o := PerformCount(h);
      } else if h.TestAndSet? || h.TestAndReset? {
        o := PerformTest(h);
      } else {
        o := PerformMemoryBit(h);
      }
    }

    /** The handlers that move values between registers, the flags and the stack. */
    method PerformRegisterOperation(h: I.Handler) returns (o: Outcome<Fault>)
      modifies this`a, this`x, this`y, this`s, this`p, p, p`brk, p`zero, p`negative, bus`cells, bus`events
      ensures RegisterHandler(h) ==> Performed(level, bus.locked, h, old(Snapshot()), o, Snapshot())
      ensures p == old(p) || fresh(p)
    {
      if h.IncrementRegister? || h.DecrementRegister? {
        o := PerformCountRegister(h);
      } else if h.Transfer? || h.SetFlag? {
        o := PerformTransferOrFlag(h);
      } else if h.Push? || h.Pull? {
        o := PerformStack(h);
      } else {
        o := PerformStatusStack(h);
      }
    }

    /** The handlers that change the flow of control, and the ones that do nothing or fail. */
    method PerformControl(h: I.Handler) returns (o: Outcome<Fault>)
      modifies this`pc, this`s, this`p, this`cycles, p`brk, p`interrupt, p`decimal, bus`cells, bus`events
      ensures !DataHandler(h) && !RegisterHandler(h) ==> Performed(level, bus.locked, h, old(Snapshot()), o, Snapshot())
      ensures cycles >= old(cycles)
      ensures p == old(p) || fresh(p)
    {
      if h.JumpToSubroutine? || h.ReturnFromSubroutine? {
        o := PerformSubroutine(h);
      } else if h.Break? {
        o := PerformBreak(h);
      } else if h.ReturnFromInterrupt? {
        o := PerformReturnFromInterrupt(h);
      } else if h.Jump? || h.JumpIndirect? || h.JumpAbsoluteXIndirect? {
        o := PerformJump(h);
      } else if h.BranchIf? || h.BranchAlways? {
        o := PerformBranch(h);
      } else if h.BranchOnBit? {
        o := PerformBitBranch(h);
      } else if h.Missing? || h.Wait? || h.Stop? {
        o := PerformUnfilled(h);
      } else {
        o := PerformNop(h);
      }
    }

    /** LDA, LDX, LDY and the operations on A through a reading mode. */
    method PerformRead(h: I.Handler) returns (o: Outcome<Fault>)
      modifies this`pc, this`a, this`x, this`y, this`cycles, p`zero, p`negative, p`overflow, p`carry, bus`events
      ensures h.Read? ==> ReadPerformed(level, bus.locked, h, old(Snapshot()), o, Snapshot())
      ensures cycles >= old(cycles)
    {
      o := Pass;
      match h {
        case Read(op, from) => o := Read(op, from);
        case _ =>
      }
    }

    /** STA, STX, STY and STZ. */
    method PerformStore(h: I.Handler) returns (o: Outcome<Fault>)
      modifies this`pc, bus`cells, bus`events
      ensures h.Store? ==> StorePerformed(level, bus.locked, h, old(Snapshot()), o, Snapshot())
    {
      o := Pass;
      match h {
        case Store(stored, to) => o := Store(stored, to);
        case _ =>
      }
    }

    /** ASL, LSR, ROL and ROR, on A and on memory. */
    method PerformShift(h: I.Handler) returns (o: Outcome<Fault>)
      modifies this`pc, this`a, p`zero, p`negative, p`carry, bus`cells, bus`events
      ensures h.ShiftAccumulator? || h.ShiftMemory? ==> ShiftPerformed(level, bus.locked, h, old(Snapshot()), o, Snapshot())
    {
      o := Pass;
      match h {
        case ShiftAccumulator(shift) => ShiftAccumulator(shift);
        case ShiftMemory(shift, to) => o := ShiftMemory(shift, to);
        case _ =>
      }
    }

    /** INC and DEC on memory. */
    method PerformCount(h: I.Handler) returns (o: Outcome<Fault>)
      modifies this`pc, p`zero, p`negative, bus`cells, bus`events
      ensures h.IncrementMemory? || h.DecrementMemory? ==> CountPerformed(level, bus.locked, h, old(Snapshot()), o, Snapshot())
    {
      o := Pass;
      match h {
        case IncrementMemory(to) => o := IncrementMemory(to);
        case DecrementMemory(to) => o := DecrementMemory(to);
        case _ =>
      }
    }

    /** TSB and TRB. */
    method PerformTest(h: I.Handler) returns (o: Outcome<Fault>)
      modifies this`pc, p`zero, bus`cells, bus`events
      ensures h.TestAndSet? || h.TestAndReset? ==> TestPerformed(level, bus.locked, h, old(Snapshot()), o, Snapshot())
    {
      o := Pass;
      match h {
        case TestAndSet(to) => o := TestAndSet(to);
        case TestAndReset(to) => o := TestAndReset(to);
        case _ =>
      }
    }

    /** RMB and SMB. */
    method PerformMemoryBit(h: I.Handler) returns (o: Outcome<Fault>)
      modifies this`pc, bus`cells, bus`events
      ensures h.ResetMemoryBit? || h.SetMemoryBit? ==> MemoryBitPerformed(level, bus.locked, h, old(Snapshot()), o, Snapshot())
    {
      o := Pass;
      match h {
        case ResetMemoryBit(bit) => o := ResetMemoryBit(bit);
        case SetMemoryBit(bit) => o := SetMemoryBit(bit);
        case _ =>
      }
    }

    /** INX, INY, DEX, DEY, INC A and DEC A. */
    method PerformCountRegister(h: I.Handler) returns (o: Outcome<Fault>)
      modifies this`a, this`x, this`y, this`s, p`zero, p`negative
      ensures h.IncrementRegister? || h.DecrementRegister? ==> CountRegisterPerformed(level, bus.locked, h, old(Snapshot()), o, Snapshot())
    {
      o := Pass;
      match h {
        case IncrementRegister(reg) => IncrementRegister(reg);
        case DecrementRegister(reg) => DecrementRegister(reg);
        case _ =>
      }
    }

    /** The transfers between registers and the flag instructions. */
    method PerformTransferOrFlag(h: I.Handler) returns (o: Outcome<Fault>)
      modifies this`a, this`x, this`y, this`s, p, p`zero, p`negative
      ensures h.Transfer? || h.SetFlag? ==> TransferOrFlagPerformed(level, bus.locked, h, old(Snapshot()), o, Snapshot())
    {
      o := Pass;
      match h {
        case Transfer(source, target) => Transfer(source, target);
        case SetFlag(flag, value) => SetFlag(flag, value);
        case _ =>
      }
    }

    /** PHA, PHX, PHY, PLA, PLX and PLY. */
    method PerformStack(h: I.Handler) returns (o: Outcome<Fault>)
      modifies this`a, this`x, this`y, this`s, p`zero, p`negative, bus`cells, bus`events
      ensures h.Push? || h.Pull? ==> StackPerformed(level, bus.locked, h, old(Snapshot()), o, Snapshot())
    {
      o := Pass;
      match h {
        case Push(reg) => Push(reg);
        case Pull(reg) => o := Pull(reg);
        case _ =>
      }
    }

    /** PHP and PLP. */
    method PerformStatusStack(h: I.Handler) returns (o: Outcome<Fault>)
      modifies this`s, this`p, p`brk, bus`cells, bus`events
      ensures h.PushStatus? || h.PullStatus? ==> StatusStackPerformed(level, bus.locked, h, old(Snapshot()), o, Snapshot())
      ensures p == old(p) || fresh(p)
    {
      o := Pass;
      match h {
        case PushStatus => PushStatus();
        case PullStatus => o := PullStatus();
        case _ =>
      }
    }

    /** JSR and RTS. */
    method PerformSubroutine(h: I.Handler) returns (o: Outcome<Fault>)
      modifies this`pc, this`s, bus`cells, bus`events
      ensures h.JumpToSubroutine? || h.ReturnFromSubroutine? ==> SubroutinePerformed(level, bus.locked, h, old(Snapshot()), o, Snapshot())
    {
      o := Pass;
      match h {
        case JumpToSubroutine => o := Jsr();
        case ReturnFromSubroutine => o := Rts();
        case _ =>
      }
    }

    /** BRK. */
    method PerformBreak(h: I.Handler) returns (o: Outcome<Fault>)
      modifies this`pc, this`s, p`brk, p`interrupt, p`decimal, bus`cells, bus`events
      ensures h.Break? ==> BreakPerformed(level, bus.locked, h, old(Snapshot()), o, Snapshot())
    {
      o := Pass;
      match h {
        case Break => o := Brk();
        case _ =>
      }
    }

    /** RTI. */
    method PerformReturnFromInterrupt(h: I.Handler) returns (o: Outcome<Fault>)
      modifies this`pc, this`s, this`p, bus`events
      ensures h.ReturnFromInterrupt? ==> ReturnFromInterruptPerformed(level, bus.locked, h, old(Snapshot()), o, Snapshot())
      ensures p == old(p) || fresh(p)
    {
      o := Pass;
      match h {
        case ReturnFromInterrupt => o := Rti();
        case _ =>
      }
    }

    /** The three JMPs. */
    method PerformJump(h: I.Handler) returns (o: Outcome<Fault>)
      modifies this`pc, bus`events
      ensures h.Jump? || h.JumpIndirect? || h.JumpAbsoluteXIndirect? ==> JumpPerformed(level, bus.locked, h, old(Snapshot()), o, Snapshot())
    {
      o := Pass;
      match h {
        case Jump => o := Jmp();
        case JumpIndirect => o := JmpIndirect();
        case JumpAbsoluteXIndirect => o := JmpAbsoluteXIndirect();
        case _ =>
      }
    }

    /** The conditional branches and BRA. */
    method PerformBranch(h: I.Handler) returns (o: Outcome<Fault>)
      modifies this`pc, this`cycles, bus`events
      ensures h.BranchIf? || h.BranchAlways? ==> BranchPerformed(level, bus.locked, h, old(Snapshot()), o, Snapshot())
      ensures cycles >= old(cycles)
    {
      o := Pass;
      match h {
        case BranchIf(flag, whenSet) => o := BranchConditionally(Get(Status(), flag) == whenSet);
        case BranchAlways => o := Branch();
        case _ =>
      }
    }

    /** BBR and BBS. */
    method PerformBitBranch(h: I.Handler) returns (o: Outcome<Fault>)
      modifies this`pc, bus`events
      ensures h.BranchOnBit? ==> BitBranchPerformed(level, bus.locked, h, old(Snapshot()), o, Snapshot())
    {
      o := Pass;
      match h {
        case BranchOnBit(bit, whenSet) => o := BitBranch(Bits.Pow2(bit), whenSet);
        case _ =>
      }
    }

    /** The unfilled slot and the unimplemented WAI and STP. */
    method PerformUnfilled(h: I.Handler) returns (o: Outcome<Fault>)
      modifies this`cycles
      ensures h.Missing? || h.Wait? || h.Stop? ==> UnfilledPerformed(level, bus.locked, h, old(Snapshot()), o, Snapshot())
      ensures cycles >= old(cycles)
    {
      o := Pass;
      match h {
        case Missing => o := Unfilled();
        case Wait => o := Fail(NotImplemented("WAI"));
        case Stop => o := Fail(NotImplemented("STP"));
        case _ =>
      }
    }

    /** NOP and the NOPs that skip one or two operand bytes. */
    method PerformNop(h: I.Handler) returns (o: Outcome<Fault>)
      modifies this`pc, bus`events
      ensures h.Nop? || h.Nop2? || h.Nop3? ==> NopPerformed(level, bus.locked, h, old(Snapshot()), o, Snapshot())
    {
      o := Pass;
      match h {
        case Nop =>
        case Nop2 => var _, _ := FetchByte();
        case Nop3 => var _, _ := FetchWord();
        case _ =>
      }
    }

    /**
     * Execute: the handler of the opcode's slot runs, then the slot's count
     * is added to Cycles. A cell that indexes no slot is a fault.
     */
    method Execute(cell: int) returns (o: Outcome<Fault>)
      requires Valid()
      modifies this`pc, this`a, this`x, this`y, this`s, this`p, this`cycles, p, bus`cells, bus`events
      ensures Valid()
      ensures Executed(level, bus.locked, cell, old(Snapshot()), o, Snapshot())
      ensures o.Pass? ==> 0 <= cell < 256 && cycles >= old(cycles) + I.Installed(level)[cell].count
      ensures o.Pass? ==> cycles > old(cycles)
      ensures 0 <= cell < 256 && I.Installed(level)[cell].mode == I.Illegal ==>
        (o.Pass? <==> level.AtLeast(I.Cpu65SC02))
        && (o.Pass? ==> cycles == old(cycles) + 1 + I.Installed(level)[cell].count)
      ensures p == old(p) || fresh(p)
    {
      if !(0 <= cell < 256) {
        return Fail(UndefinedOpcode(cell));
      }
      var instruction := instructions[cell];
      I.InstalledWellFormed(level);
      :- Perform(instruction.vector);
      cycles := cycles + instruction.count;
      return Pass;
    }

    /** Step: the opcode at PC is fetched and executed. A step that completes always adds at least one cycle. */
    method Step() returns (o: Outcome<Fault>)
      requires Valid()
      modifies this`pc, this`a, this`x, this`y, this`s, this`p, this`cycles, p, bus`cells, bus`events
      ensures Valid()
      ensures Stepped(level, bus.locked, old(Snapshot()), o, Snapshot())
      ensures o.Pass? ==> old(pc) in old(bus.cells) && cycles > old(cycles)
      ensures p == old(p) || fresh(p)
    {
      var opcode :- FetchByte();
      o := Execute(opcode);
    }

    /** Step with LDA #v at PC: A takes v, Zero and Negative follow it, PC moves by two and Cycles by two. */
    method StepLoadImmediate() returns (o: Outcome<Fault>)
      requires Valid()
      requires pc in bus.cells && bus.cells[pc] == 0xA9 && pc + 1 in bus.cells
      modifies this`pc, this`a, this`x, this`y, this`s, this`p, this`cycles, p, bus`cells, bus`events
      ensures Valid()
      ensures o.Pass? && Regs() == old(Regs()).(a := old(bus.cells[pc + 1]))
      ensures Status() == A.ZeroNegative(old(Status()), old(bus.cells[pc + 1]))
      ensures pc == old(pc) + 2 && cycles == old(cycles) + 2 && bus.cells == old(bus.cells)
    {
      ghost var m := Snapshot();
      o := Step();
      LoadImmediateStep(level, bus.locked, m, o, Snapshot());
    }

    /** ResetRegisters: PC, Y and A zero, X 0x80, S 0xff, and a fresh status register with only Reserved set. */
    method ResetRegisters()
      modifies this`pc, this`a, this`x, this`y, this`s, this`p
      ensures pc == 0 && Regs() == Registers(0, 0x80, 0, 0xff)
      ensures fresh(p) && Status() == PowerOnStatus
    {
      pc := 0;
      x := 0x80;
      y := 0;
      a := 0;
      p := new StatusFlags(0);
      p.reserved := true;
      s := 0xff;
      DecodeZero();
    }

    /** Initialise: Cycles to zero, then ResetRegisters. */
    method Initialise()
      modifies this`pc, this`a, this`x, this`y, this`s, this`p, this`cycles
      ensures cycles == 0 && pc == 0 && Regs() == Registers(0, 0x80, 0, 0xff)
      ensures fresh(p) && Status() == PowerOnStatus
    {
      cycles := 0;
      ResetRegisters();
    }

    /** Start: PC takes the address. */
    method Start(address: int)
      modifies this`pc
      ensures pc == address
    {
      pc := address;
    }

    /** Reset: PC takes the reset vector. */
    method Reset() returns (o: Outcome<Fault>)
      modifies this`pc, bus`events
      ensures o.Pass? <==> WordDefined(bus.cells, ResetVector)
      ensures o.Pass? ==> pc == WordAt(bus.cells, ResetVector)
    {
      var destination :- GetWord(ResetVector);
      pc := destination;
      return Pass;
    }

    /** TriggerIRQ: an interrupt through the IRQ vector. */
    method TriggerIrq() returns (o: Outcome<Fault>)
      modifies this`pc, this`s, p`interrupt, bus`cells, bus`events
      ensures s == old(s) - 3 && Status() == old(Status()).(interrupt := true)
      ensures bus.cells == InterruptFrame(old(bus.cells), bus.locked, old(s), old(pc), Encode(old(Status())))
      ensures o.Pass? <==> WordDefined(bus.cells, IrqVector)
      ensures o.Pass? ==> pc == WordAt(bus.cells, IrqVector)
    {
      o := Interrupt(IrqVector);
    }

    /** TriggerNMI: an interrupt through the NMI vector. */
    method TriggerNmi() returns (o: Outcome<Fault>)
      modifies this`pc, this`s, p`interrupt, bus`cells, bus`events
      ensures s == old(s) - 3 && Status() == old(Status()).(interrupt := true)
      ensures bus.cells == InterruptFrame(old(bus.cells), bus.locked, old(s), old(pc), Encode(old(Status())))
      ensures o.Pass? <==> WordDefined(bus.cells, NmiVector)
      ensures o.Pass? ==> pc == WordAt(bus.cells, NmiVector)
    {
      o := Interrupt(NmiVector);
    }
  }

  /**
   * One Step over LDA #v: on every processor level, opcode 0xA9 loads the
   * operand byte into A, sets Zero and Negative from it, moves PC past both
   * bytes and counts two cycles; nothing else changes.
   */
  lemma LoadImmediateStep(level: I.ProcessorType, locked: map<int, bool>, m: Machine, o: Outcome<Fault>, n: Machine)
    requires m.pc in m.cells && m.cells[m.pc] == 0xA9 && m.pc + 1 in m.cells
    requires Stepped(level, locked, m, o, n)
    ensures o.Pass?
    ensures n == m.(pc := m.pc + 2, cycles := m.cycles + 2, regs := m.regs.(a := m.cells[m.pc + 1]),
                    flags := A.ZeroNegative(m.flags, m.cells[m.pc + 1]))
  {
    I.LdaImmediateSlot(level);
  }

  /**
   * LDA #$2A at address 0 of cleared, unlocked memory, on an NMOS processor
   * just initialised: one Step loads 0x2A into A, clears Zero and Negative,
   * leaves PC at 2 and counts the slot's two cycles.
   */
  method LoadImmediateExample() returns (o: Outcome<Fault>, a: int, zero: bool, negative: bool, pc: int, cycles: int)
    ensures o.Pass? && a == 0x2A && !zero && !negative && pc == 2 && cycles == 2
  {
    var bus := new Memory(0x10000);
    bus.ClearMemory();
    bus.ClearLocking();
    bus.SetByte(0, 0xA9);
    bus.SetByte(1, 0x2A);
    assert bus.cells[0] == 0xA9 && bus.cells[1] == 0x2A;
    var cpu := new MOS6502(I.Cpu6502, bus);
    cpu.Initialise();
    o := cpu.StepLoadImmediate();
    var flags := cpu.Status();
    a, zero, negative, pc, cycles := cpu.a, flags.zero, flags.negative, cpu.pc, cpu.cycles;
  }
}
