# ts-6502 in Dafny

This project models the core of the ts-6502 emulator. That emulator is written
in TypeScript and emulates the MOS 6502 processor and its CMOS successors,
the 65SC02 and the 65C02. The model covers these parts:

- **Processor** (`cpu.dfy`): the class `MOS6502`.
  - Its registers, status object, cycle counter and instruction table are the
    fields of a Dafny class.
  - Every handler is a method. It changes exactly the fields its `modifies`
    clause names, and its `ensures` ties the new state to specification
    functions.
  - The 256-entry opcode tables, and how they are laid over each other, are in
    `instructions.dfy`.
  - Operand addressing is in `addressing.dfy`.
  - The arithmetic and logic (ALU), including BCD (binary-coded decimal)
    arithmetic, is in `alu.dfy`.
- **StatusFlags** (`status_flags.dfy`): the processor status register P as a
  class over eight Booleans. `Encode`/`Decode` convert it to and from a byte.
- **Memory** (`memory.dfy`): the memory bus. It holds a sparse cell map and a
  lock map, and records the events it would emit.
- **System6502** (`system6502.dfy`): the processor wired to a 64 KiB memory
  bus.
  - It adds instruction events.
  - It adds the polling loop, which gives the processor a budget of cycles for
    each timer interval.
- **Disassembly** (`disassembly.dfy`): turns the instruction at an address
  into text, with symbol substitution.
- **Symbols** (`symbols.dfy`): reads a ca65/ld65 debug file. Labels,
  constants, addresses and scope sizes come out of it.
- **Profiler** (`profiler.dfy`): counts instructions, and cycles per address
  and per scope, and emits the profile.

Supporting modules spell out the JavaScript semantics the source relies on:

- `bits.dfy`: the 32-bit bitwise operators `& | ^ ~ << >>`, through ToInt32
  and ToUint32.
- `bytes.dfy`: the byte and word helpers.
- `numerals.dfy`: `toString(radix)` and `parseInt`.
- `text.dfy`: `String.prototype.split`.
- `js_objects.dfy`: property assignment, where the last write wins, and
  `for ... in` enumeration order. Integer keys come first in ascending order,
  then the others in insertion order.

JavaScript values are modelled exactly. Numbers are unbounded integers.
Nothing is masked to 8 or 16 bits unless the source masks it.

**Missing values.** A memory cell that was never written reads as `undefined`
in JavaScript. Here that read is an explicit fault: an `Outcome`/`Option` in
`Fail`/`None`. Each handler's contract says exactly when it faults.

**Exceptions.** These become `Fail` outcomes:
- a collision when one instruction table is laid over another;
- an illegal instruction on the NMOS 6502;
- WAI and STP, which are not implemented;
- a file that is too large.

**Quirks kept as written.** The model keeps some behaviours the source has,
and a lemma states each one:
- The indexed-read cycle penalty is charged on a low byte of `0xff`, not
  when a page is crossed (`Addressing.PenaltyIsNotPageCrossing`). For
  absolute,X and absolute,Y that is the low byte of the effective address.
  For (zp),Y it is the low byte of the indirect word, before Y is added.
- `Dump_rel` adds the displacement byte unsigned. A backward branch is
  therefore shown 0x100 too high (`Disassembly.RelativeOperandTarget`).
- `Dump_zprel` shows one less than the target BBR/BBS jump to
  (`Disassembly.BitBranchOperandTarget`).
- UpdateNegativeFlag tests `datum < 0`, applied to `toSignedByte(datum)`.
  INC and DEC store the unmasked result.

## Model

| member | source | states |
|---|---|---|
| Bits.BitOfOps | app/mos6502.ts:1318-1326 | bit k (k < 32) of JavaScript `a & b`, `a \| b`, `a ^ b`, `~a` is the and, or, xor of bit k of the operands, and the complement of bit k of `a` |
| Bits.ShlIsMultiply | app/mos6502.ts:72-74 | `a << n` is `a * 2^n` reduced to a signed 32-bit value, and exactly `a * 2^n` when that is below 2^31 |
| Bytes.SignedByte | app/mos6502.ts:31-38 | toSignedByte gives a value in -128..127 congruent to the input mod 256, negative exactly when bit 7 is set |
| Bytes.SignedByteIsJs | app/mos6502.ts:31-38 | the source's `(v & 0x7f) - (v & 0x80)` equals SignedByte for every number |
| Bytes.LowByte | app/mos6502.ts:64-66 | LowByte is in 0..0xff and congruent to the input mod 256 |
| Bytes.LowByteIsJs | app/mos6502.ts:64-66 | `v & 0xff` equals LowByte for every number |
| Bytes.HighByteIsQuotient | app/mos6502.ts:68-70 | for values within 32 bits, HighByte is the quotient by 256 |
| Bytes.HighByteIsJs | app/mos6502.ts:68-70 | `(v & ~0xff) >> 8` equals HighByte for every number |
| Bytes.MakeWord | app/mos6502.ts:72-74 | MakeWord is `high * 256 + low` whenever `high << 8` does not overflow 32 bits |
| Bytes.MakeWordIsJs | app/mos6502.ts:72-74 | `(high << 8) + low` equals MakeWord for every number |
| Bytes.LowNybble | app/mos6502.ts:48-50 | LowNybble is in 0..15 and congruent to the input mod 16 |
| Bytes.LowNybbleIsJs | app/mos6502.ts:48-50 | `v & 0xf` equals LowNybble |
| Bytes.HighNybble | app/mos6502.ts:52-54 | HighNybble is the quotient by 16 for values within 32 bits |
| Bytes.HighNybbleIsJs | app/mos6502.ts:52-54 | `v >> 4` equals HighNybble |
| Bytes.PromoteNybble | app/mos6502.ts:56-58 | PromoteNybble is `v * 16` when that stays within 32 bits |
| Bytes.PromoteNybbleIsJs | app/mos6502.ts:56-58 | `v << 4` equals PromoteNybble |
| Bytes.WordRoundTrip | app/mos6502.ts:64-74 | splitting a 16-bit word into its low and high bytes and joining them with MakeWord gives the word back |
| Bytes.BytesRoundTrip | app/mos6502.ts:64-74 | joining two bytes with MakeWord gives a 16-bit word whose LowByte and HighByte are those bytes |
| StatusRegister.Position | app/StatusBits.ts:3-12 | every status bit has a position below 8 |
| StatusRegister.MasksArePowers | app/StatusBits.ts:3-12 | the masks of N, V, R, B, D, I, Z, C are 2^7 down to 2^0 |
| StatusRegister.GetWith | app/StatusFlags.ts:29-51 | a property setter changes the flag it names to the new value and leaves every other flag as it was |
| StatusRegister.DecodeZero | app/mos6502.ts:191 | `new StatusFlags(0)` has every flag clear |
| StatusRegister.Encode | app/StatusFlags.ts:66-93 | the flags' number is a byte |
| StatusRegister.EncodeBits | app/StatusFlags.ts:66-93 | bit k of the flags' number is set exactly when the flag at position k is set |
| StatusRegister.OrIfChainIsEncode | app/StatusFlags.ts:66-93 | the eight `flags \|= mask` statements of toNumber, from N down to C, compute Encode |
| StatusRegister.DecodeEncode | app/StatusFlags.ts:18-27 | constructing flags from the number of some flags gives those flags back |
| StatusRegister.EncodeDecode | app/StatusFlags.ts:66-93 | for every byte, the number of the flags constructed from it is the byte itself |
| StatusRegister.TextMeaning | app/StatusFlags.ts:53-64 | the text has 8 characters; character i is letter i of "NORBDIZC" when the flag with mask 2^(7-i) is set, and '-' otherwise |
| StatusRegister.StatusFlags.constructor | app/StatusFlags.ts:18-27 | each flag of the new object is the bit of the value under its mask |
| StatusRegister.StatusFlags.ToNumber | app/StatusFlags.ts:66-93 | toNumber returns Encode of the current flags, the byte with each set flag's bit on |
| StatusRegister.StatusFlags.ToString | app/StatusFlags.ts:53-64 | toString returns the eight-letter text that TextMeaning characterises |
| MemoryBus.Memory.constructor | app/Memory.ts:14-17 | a new bus has the given size, no cells, no locks and no events |
| MemoryBus.Memory.ClearMemory | app/Memory.ts:19-24 | afterwards exactly the cells 0..size-1 exist, each holding 0 |
| MemoryBus.Memory.ClearLocking | app/Memory.ts:26-31 | afterwards the lock map holds false for 0..size-1, and no cell is locked |
| MemoryBus.Memory.GetByte | app/Memory.ts:33-37 | returns the cell's content, or None for a cell never given one, and records a readingByte event |
| MemoryBus.Memory.SetByte | app/Memory.ts:39-46 | a locked cell is left unchanged and an invalidWriteAttempt event is recorded; otherwise the cell gets the value and a writingByte event is recorded |
| MemoryBus.Memory.LockMemory | app/Memory.ts:57-61 | afterwards a cell is locked exactly when it was locked before or lies in offset..offset+length-1 |
| MemoryBus.Memory.LoadMemory | app/Memory.ts:63-77 | an image larger than the memory fails with "file too large" and changes nothing; otherwise it is copied to offset on and its length is returned |
| MemoryBus.Memory.LoadRom | app/Memory.ts:48-51 | loads as LoadMemory does, and on success locks exactly the loaded cells in addition |
| MemoryBus.Memory.LoadRam | app/Memory.ts:53-55 | loads as LoadMemory does, without locking |
| Instructions.Overlaid | app/mos6502.ts:993-1008 | every overlay slot that is taken (legal, or illegal ones included) replaces the base slot; every other base slot is kept |
| Instructions.LdaImmediateSlot | app/mos6502.ts:370 | opcode 0xA9 is LDA immediate, two cycles, at every processor level |
| Instructions.NoCollision65SC02 | app/mos6502.ts:461-723 | the 65SC02 table only fills opcodes the NMOS 6502 table leaves illegal, so laying it over cannot throw |
| Instructions.NoCollision65C02OnNmos | app/mos6502.ts:725-987 | the 65C02 table only fills opcodes the NMOS table leaves illegal |
| Instructions.OverlaysDisjoint | app/mos6502.ts:461-987 | no opcode is filled by both the 65SC02 and the 65C02 table |
| Instructions.NoCollision65C02 | app/mos6502.ts:725-987 | laying the 65C02 table over the 65SC02 processor's table cannot throw |
| Instructions.NmosWellFormed | app/mos6502.ts:199-459 | every NMOS entry is illegal exactly when its handler is `___`, a legal entry takes at least 2 cycles, and every bit number is below 8 |
| Instructions.Overlay65SC02WellFormed | app/mos6502.ts:461-723 | the same well-formedness for every entry of the 65SC02 table |
| Instructions.Overlay65C02WellFormed | app/mos6502.ts:725-987 | the same well-formedness for every entry of the 65C02 table |
| Instructions.InstalledWellFormed | app/mos6502.ts:82-87 | every entry of the table a processor of any level installs is well formed |
| Addressing.ReadWriteAgree | app/mos6502.ts:1077-1121 | the read and write forms of one addressing mode fail together and agree on address and operand size; writes never charge a penalty; only absolute,X / absolute,Y / (zp),Y reads can |
| Addressing.ResolveBounds | app/mos6502.ts:1061-1125 | every addressing mode takes a 1- or 2-byte operand and charges at most one extra cycle |
| Addressing.PenaltyIsNotPageCrossing | app/mos6502.ts:1097-1104 | $10FF,X with X=1 reaches $1100 with no extra cycle, while $10FE,X reaches $10FF with one: the extra cycle follows a low byte of 0xff, not a page crossing |
| Alu.ZeroNegative | app/mos6502.ts:1020-1026 | Zero is set exactly when the datum is 0; Negative exactly when it is not 0 and bit 7 is set; no other flag changes |
| Alu.Ora | app/mos6502.ts:1318-1321 | each bit of the result is the or of the operands' bits; Zero and Negative follow the result |
| Alu.AndOp | app/mos6502.ts:1323-1326 | each bit of the result is the and of the operands' bits; Zero and Negative follow the result |
| Alu.Eor | app/mos6502.ts:1377-1380 | each bit of the result is the xor of the operands' bits; Zero and Negative follow the result |
| Alu.AndZeroMeaning | app/mos6502.ts:1252-1255 | for bytes, `a & b` is 0 exactly when they share no set bit |
| Alu.BitImmediate | app/mos6502.ts:1252-1255 | BIT # sets Zero exactly when A and the operand share no set bit, and changes no other flag |
| Alu.BitTest | app/mos6502.ts:1257-1261 | BIT sets Zero as BIT # does, Negative to operand bit 7 and Overflow to bit 6, and changes nothing else |
| Alu.TestAndSet | app/mos6502.ts:1263-1269 | TSB stores the content with A's bits set, and sets Zero as BIT # does with A |
| Alu.TestAndReset | app/mos6502.ts:1271-1277 | TRB stores the content with A's bits cleared, and sets Zero as BIT # does with A |
| Alu.ResetBits | app/mos6502.ts:1465-1469 | every bit of the result is the data bit, cleared where the flag mask has a bit |
| Alu.SetBits | app/mos6502.ts:1471-1475 | every bit of the result is the data bit, set where the flag mask has a bit |
| Alu.SingleBitChanged | app/mos6502.ts:2228-2294 | RMBn clears bit n and SMBn sets bit n, and each keeps every other bit |
| Alu.Asl | app/mos6502.ts:1309-1316 | ASL doubles the datum (unmasked) and moves bit 7 into Carry; Zero and Negative follow the result |
| Alu.Lsr | app/mos6502.ts:1238-1246 | LSR halves the datum and moves bit 0 into Carry; Zero and Negative follow the result |
| Alu.Rol | app/mos6502.ts:1289-1303 | ROL doubles the datum and adds the old carry, moving bit 7 into Carry |
| Alu.Ror | app/mos6502.ts:1219-1232 | ROR halves a byte and puts the old carry in bit 7, moving bit 0 into Carry |
| Alu.RotateRoundTrip | app/mos6502.ts:1219-1303 | ROR after ROL gives back the byte and the original carry |
| Alu.CarryIn | app/mos6502.ts:1424-1425 | the carry added by ADC is 1 exactly when Carry is set |
| Alu.BorrowIn | app/mos6502.ts:1336-1337 | the borrow taken by SBC is 1 exactly when Carry is clear |
| Alu.AddOverflow | app/mos6502.ts:1429 | V after an addition: the operands have the same sign and the result's sign differs from it |
| Alu.AddOverflowMeaning | app/mos6502.ts:1429 | the source's `~(a ^ data) & (a ^ result) & 0x80` expression is AddOverflow |
| Alu.SubOverflow | app/mos6502.ts:1341 | V after a subtraction: the operands' signs differ and the result's sign differs from A's |
| Alu.SubOverflowMeaning | app/mos6502.ts:1341 | the source's `(a ^ data) & (a ^ result) & 0x80` expression is SubOverflow |
| Alu.AdcBinary | app/mos6502.ts:1424-1433 | A becomes a + data + carry; Z, N, V and C are set by their meaning, and for bytes Carry means the sum exceeds 0xff; R, B, D and I are kept |
| Alu.SbcBinary | app/mos6502.ts:1336-1345 | A becomes a - data - borrow; Z, N, V and C are set by their meaning, and for bytes Carry means no borrow (a >= data + borrow); R, B, D and I are kept |
| Alu.Compare | app/mos6502.ts:1394-1399 | for bytes, CMP/CPX/CPY set Zero exactly when the two are equal and Carry exactly when first >= second; N is bit 7 of the difference; other flags are kept |
| Alu.AdcOverflowIsSignedOverflow | app/mos6502.ts:1424-1433 | binary ADC sets V exactly when the signed sum leaves -128..127 |
| Alu.SbcOverflowIsSignedOverflow | app/mos6502.ts:1336-1345 | binary SBC sets V exactly when the signed difference leaves -128..127 |
| Alu.AddAdjust | app/mos6502.ts:1443-1453 | the decimal adjust carries out of a digit exactly when the digit sum exceeds 9 |
| Alu.SubAdjust | app/mos6502.ts:1358-1369 | the decimal adjust keeps a digit difference's sign |
| Alu.AdcDecimal | app/mos6502.ts:1435-1461 | decimal ADC keeps R, B, D and I; its value and flags are stated by AdcDecimalFlags |
| Alu.AdcDecimalFlags | app/mos6502.ts:1435-1461 | decimal ADC gives the adjusted digits. Z and N come from the binary sum below the 65SC02 and from the result from then on. V comes from the high digit as summed with the low digit's carry, before the +6 adjustment; C is set when that digit exceeds 9 |
| Alu.SbcDecimal | app/mos6502.ts:1347-1375 | decimal SBC keeps R, B, D and I; its value and flags are stated by SbcDecimalFlags |
| Alu.SbcDecimalFlags | app/mos6502.ts:1347-1375 | decimal SBC gives the adjusted digits. Z and N come from the binary difference below the 65SC02 and from the result from then on. V and C are those of the binary difference |
| Alu.BinaryBelow65SC02 | app/mos6502.ts:1439-1441 | setting Z and N from the binary result below the 65SC02 touches no other flag |
| Alu.DecimalFrom65SC02 | app/mos6502.ts:1458-1460 | setting Z and N from the decimal result from the 65SC02 on touches no other flag |
| Alu.ToBcd | app/mos6502.ts:1435-1461 | the BCD byte of a number below 100 is valid BCD and stands for that number |
| Alu.AdcDecimalValueIsBcd | app/mos6502.ts:1435-1461 | for BCD operands, the low byte of the adjusted digits is the BCD of the decimal total mod 100, and the high digit exceeds 9 exactly when the total is 100 or more |
| Alu.AdcDecimalAddsBcd | app/mos6502.ts:1435-1461 | for BCD operands, decimal ADC leaves the BCD of (a + data + carry) mod 100 in the low byte of A, with Carry set exactly when the decimal total is 100 or more |
| Alu.SbcDecimalValueIsBcd | app/mos6502.ts:1347-1375 | for BCD operands, the low byte of the adjusted digits is the BCD of the decimal difference mod 100 |
| Alu.SbcDecimalSubtractsBcd | app/mos6502.ts:1347-1375 | for BCD operands, decimal SBC leaves the BCD of (a - data - borrow) mod 100 in the low byte of A, with Carry set exactly when the decimal difference is not negative |
| Processor.Registers.With | app/mos6502.ts:102-112 | a register setter changes that register to the value and keeps the others |
| Processor.PushPopByte | app/mos6502.ts:1030-1036 | a byte pushed onto an unlocked stack cell is what PopByte reads once S is back |
| Processor.PushPopWord | app/mos6502.ts:1038-1047 | a word pushed onto two unlocked stack cells is what PopWord reads back once the stack pointer has moved down by two |
| Processor.Operation | app/mos6502.ts:1536-1894 | a reading instruction leaves S alone. It changes X only for LDX and Y only for LDY, and A not at all for compares, BIT and LDX/LDY. A load puts the datum in its register with Z and N set from it. R, B, D and I are never touched |
| Processor.Shifted | app/mos6502.ts:1219-1316 | every shift or rotate sets Carry from bit 7 (ASL, ROL) or bit 0 (LSR, ROR) of the datum; Z and N follow the result |
| Processor.BranchPenaltyIsPageCrossing | app/mos6502.ts:1479-1488 | a taken branch costs 1 extra cycle, or 3 when its target is on another 256-byte page |
| Processor.PushPullStatus | app/mos6502.ts:2075-2083 | PLP after PHP gives back the flags, with Break and Reserved set |
| Processor.JsrRtsReturn | app/mos6502.ts:2296-2309 | after JSR pushes pc+1, RTS returns to pc+2, the instruction after the JSR operand |
| Processor.InterruptReturn | app/mos6502.ts:2302-2305 | RTI after an interrupt entry (158-163) restores the pushed flags, with Reserved set, and the return address |
| Processor.MOS6502.constructor | app/mos6502.ts:82-87 | the new processor has the level and bus, may proceed, and holds a well-formed 256-entry table |
| Processor.MOS6502.OverlayInstructionSet | app/mos6502.ts:993-1008 | succeeds exactly when no taken overlay slot lands on a legal entry, and then the table is the overlaid one; otherwise it fails with a collision |
| Processor.MOS6502.GetByte | app/system6502.ts:103-105 | a read passes exactly when the cell exists, giving its content; otherwise it is an undefined-read fault |
| Processor.MOS6502.SetByte | app/system6502.ts:107-109 | the cell gets the value unless it is locked |
| Processor.MOS6502.GetWord | app/mos6502.ts:148-152 | defined exactly when both cells are, and is then the little-endian word of the two |
| Processor.MOS6502.PushByte | app/mos6502.ts:1030-1032 | stores at 0x100+S (unless locked) and decrements S |
| Processor.MOS6502.PopByte | app/mos6502.ts:1034-1036 | increments S and reads 0x100+S |
| Processor.MOS6502.PushWord | app/mos6502.ts:1038-1041 | stores the high byte, then the low byte, below it, and S goes down by two |
| Processor.MOS6502.PopWord | app/mos6502.ts:1043-1047 | reads the little-endian word above S and S goes up by two |
| Processor.MOS6502.FetchByte | app/mos6502.ts:1049-1051 | reads the byte at PC and advances PC by one |
| Processor.MOS6502.FetchWord | app/mos6502.ts:1053-1057 | advances PC by two; passes exactly when both bytes at the old PC exist, and then gives the little-endian word they hold |
| Processor.MOS6502.UpdateZeroFlag | app/mos6502.ts:1012-1014 | sets and returns Zero as `datum === 0`, touching nothing else |
| Processor.MOS6502.UpdateNegativeFlag | app/mos6502.ts:1016-1018 | sets Negative as `datum < 0`, touching nothing else |
| Processor.MOS6502.UpdateZeroNegativeFlags | app/mos6502.ts:1020-1026 | leaves the flags as ZeroNegative describes |
| Processor.MOS6502.AddressZeroPage | app/mos6502.ts:1061-1063 | the zero-page operand address; PC advances by the operand size |
| Processor.MOS6502.AddressZeroPageX | app/mos6502.ts:1065-1067 | the operand plus X, wrapped to the zero page |
| Processor.MOS6502.AddressZeroPageY | app/mos6502.ts:1069-1071 | the operand plus Y, wrapped to the zero page |
| Processor.MOS6502.AddressIndexedIndirectX | app/mos6502.ts:1073-1075 | the word at the zero-page operand plus X |
| Processor.MOS6502.AddressIndexedIndirectYRead | app/mos6502.ts:1077-1083 | the word at the zero-page operand, plus Y, with the extra cycle when the indirect word's low byte is 0xff |
| Processor.MOS6502.AddressIndexedIndirectYWrite | app/mos6502.ts:1085-1087 | the word at the zero-page operand, plus Y, with no extra cycle |
| Processor.MOS6502.AddressAbsolute | app/mos6502.ts:1089-1091 | the two-byte operand itself |
| Processor.MOS6502.AddressAbsoluteXIndirect | app/mos6502.ts:1093-1095 | the word at (operand + X) |
| Processor.MOS6502.AddressAbsoluteXRead | app/mos6502.ts:1097-1104 | operand + X, with the extra cycle when its low byte is 0xff |
| Processor.MOS6502.AddressAbsoluteXWrite | app/mos6502.ts:1106-1108 | operand + X, with no extra cycle |
| Processor.MOS6502.AddressAbsoluteYRead | app/mos6502.ts:1110-1117 | operand + Y, with the extra cycle when its low byte is 0xff |
| Processor.MOS6502.AddressAbsoluteYWrite | app/mos6502.ts:1119-1121 | operand + Y, with no extra cycle |
| Processor.MOS6502.AddressZeroPageIndirect | app/mos6502.ts:1123-1125 | the word at the zero-page operand |
| Processor.MOS6502.WriteAddress | app/mos6502.ts:1175-1209 | a write's effective address is the one its addressing mode describes, and PC moves past the operand |
| Processor.MOS6502.ReadByte | app/mos6502.ts:1129-1171 | a read returns the content of its mode's effective address; PC moves past the operand and cycles grow by the mode's penalty |
| Processor.MOS6502.WriteByte | app/mos6502.ts:1175-1209 | stores the value at the mode's effective address, unless that cell is locked |
| Processor.MOS6502.Ora | app/mos6502.ts:1318-1321 | A and the flags become what Alu.Ora describes |
| Processor.MOS6502.And | app/mos6502.ts:1323-1326 | A and the flags become what Alu.AndOp describes |
| Processor.MOS6502.Eor | app/mos6502.ts:1377-1380 | A and the flags become what Alu.Eor describes |
| Processor.MOS6502.Load | app/mos6502.ts:1401-1414 | LDA/LDX/LDY put the datum in the register alone and set Z and N from it |
| Processor.MOS6502.Cmp | app/mos6502.ts:1394-1399 | the flags become what Alu.Compare describes |
| Processor.MOS6502.AdcBinary | app/mos6502.ts:1424-1433 | A and the flags become what Alu.AdcBinary describes |
| Processor.MOS6502.AdcDecimal | app/mos6502.ts:1435-1461 | A and the flags become what Alu.AdcDecimal describes for the processor's level |
| Processor.MOS6502.Adc | app/mos6502.ts:1416-1422 | ADC is decimal exactly when the Decimal flag is set, binary otherwise |
| Processor.MOS6502.SbcBinary | app/mos6502.ts:1336-1345 | A and the flags become what Alu.SbcBinary describes |
| Processor.MOS6502.SbcDecimal | app/mos6502.ts:1347-1375 | A and the flags become what Alu.SbcDecimal describes for the processor's level |
| Processor.MOS6502.Sbc | app/mos6502.ts:1328-1334 | SBC is decimal exactly when the Decimal flag is set, binary otherwise |
| Processor.MOS6502.BitImmediate | app/mos6502.ts:1252-1255 | the flags become what Alu.BitImmediate describes |
| Processor.MOS6502.Bit | app/mos6502.ts:1257-1261 | the flags become what Alu.BitTest describes |
| Processor.MOS6502.Operate | app/mos6502.ts:1536-1894 | registers and flags become what Operation describes for the read operation |
| Processor.MOS6502.AslData | app/mos6502.ts:1309-1316 | returns and flags as Alu.Asl |
| Processor.MOS6502.LsrData | app/mos6502.ts:1238-1246 | returns and flags as Alu.Lsr |
| Processor.MOS6502.RolData | app/mos6502.ts:1289-1303 | returns and flags as Alu.Rol |
| Processor.MOS6502.RorData | app/mos6502.ts:1219-1232 | returns and flags as Alu.Ror |
| Processor.MOS6502.ShiftData | app/mos6502.ts:1219-1316 | returns and flags as Shifted for the shift |
| Processor.MOS6502.ShiftContents | app/mos6502.ts:1234-1307 | the `_contents` forms: the shifted cell is stored back (unless locked) with the shift's flags; an undefined cell faults and changes nothing |
| Processor.MOS6502.Inc | app/mos6502.ts:1279-1283 | stores content + 1 (unmasked) and sets Z and N from it; an undefined cell faults and changes nothing |
| Processor.MOS6502.Dec | app/mos6502.ts:1213-1217 | stores content - 1 (unmasked) and sets Z and N from it; an undefined cell faults and changes nothing |
| Processor.MOS6502.Tsb | app/mos6502.ts:1263-1269 | stores and flags as Alu.TestAndSet |
| Processor.MOS6502.Trb | app/mos6502.ts:1271-1277 | stores and flags as Alu.TestAndReset |
| Processor.MOS6502.Rmb | app/mos6502.ts:1465-1469 | stores the content with the flag's bits cleared |
| Processor.MOS6502.Smb | app/mos6502.ts:1471-1475 | stores the content with the flag's bits set |
| Processor.MOS6502.SetRegister | app/mos6502.ts:102-112 | one register gets the value, the others are kept |
| Processor.MOS6502.Transfer | app/mos6502.ts:2044-2071 | the target register gets the source's value; Z and N are set from it except for TXS |
| Processor.MOS6502.IncrementRegister | app/mos6502.ts:1930-1958 | INX, INY and INC A add one (unmasked) and set Z and N from the result |
| Processor.MOS6502.DecrementRegister | app/mos6502.ts:1898-1926 | DEX, DEY and DEC A subtract one (unmasked) and set Z and N from the result |
| Processor.MOS6502.Push | app/mos6502.ts:2090-2100 | PHA/PHX/PHY push the register's value |
| Processor.MOS6502.Pull | app/mos6502.ts:2085-2110 | PLA/PLX/PLY pop into the register and set Z and N from the value; only S and that register change |
| Processor.MOS6502.PushStatus | app/mos6502.ts:2075-2078 | PHP sets Break in P and pushes the flags' number with Break set |
| Processor.MOS6502.PullStatus | app/mos6502.ts:2080-2083 | PLP replaces P by a new flags object built from the popped byte, with Reserved set |
| Processor.MOS6502.SetFlag | app/mos6502.ts:2346-2372 | CLC/SEC/CLI/SEI/CLV/CLD/SED change that one flag |
| Processor.MOS6502.Store | app/mos6502.ts:1964-2040 | STA/STX/STY/STZ store A, X, Y or 0 at the mode's effective address (unless locked) |
| Processor.MOS6502.ShiftAccumulator | app/mos6502.ts:2116-2202 | ASL/LSR/ROL/ROR A replace A with the shifted value and set the flags as Shifted does |
| Processor.MOS6502.ShiftMemory | app/mos6502.ts:2116-2202 | the memory forms shift the cell at the effective address in place, as Shifted describes |
| Processor.MOS6502.IncrementMemory | app/mos6502.ts:1930-1948 | INC stores content + 1 at the effective address and sets Z and N from it |
| Processor.MOS6502.DecrementMemory | app/mos6502.ts:1898-1916 | DEC stores content - 1 at the effective address and sets Z and N from it |
| Processor.MOS6502.TestAndSet | app/mos6502.ts:2206-2214 | TSB on the effective address, as Alu.TestAndSet |
| Processor.MOS6502.TestAndReset | app/mos6502.ts:2216-2224 | TRB on the effective address, as Alu.TestAndReset |
| Processor.MOS6502.ResetMemoryBit | app/mos6502.ts:2228-2260 | RMBn clears bit n of the zero-page cell named by the operand |
| Processor.MOS6502.SetMemoryBit | app/mos6502.ts:2262-2294 | SMBn sets bit n of the zero-page cell named by the operand |
| Processor.MOS6502.Read | app/mos6502.ts:1536-1894 | every reading handler applies its operation to the content of its mode's effective address, charging the mode's penalty |
| Processor.MOS6502.BranchOffset | app/mos6502.ts:1479-1488 | PC moves by the displacement and cycles grow by the branch penalty |
| Processor.MOS6502.ReadDisplacement | app/mos6502.ts:1133-1135 | the displacement is the signed byte at PC |
| Processor.MOS6502.Branch | app/mos6502.ts:1490-1493 | a taken branch lands on the signed displacement past the operand |
| Processor.MOS6502.BranchConditionally | app/mos6502.ts:1495-1500 | taken only when the condition holds; otherwise PC just skips the operand and no cycle is charged |
| Processor.MOS6502.BitBranch | app/mos6502.ts:1502-1518 | BBR/BBS skip both operand bytes and add the unsigned displacement exactly when the selected bit is clear (BBR) or set (BBS) |
| Processor.MOS6502.Jsr | app/mos6502.ts:2296-2300 | pushes the address of the operand's last byte and jumps to the operand |
| Processor.MOS6502.Rts | app/mos6502.ts:2307-2309 | pops a word and continues one past it |
| Processor.MOS6502.Rti | app/mos6502.ts:2302-2305 | pops the flags (with Reserved set), then the return address |
| Processor.MOS6502.Jmp | app/mos6502.ts:2311-2313 | PC becomes the operand |
| Processor.MOS6502.JmpIndirect | app/mos6502.ts:2315-2317 | PC becomes the word at the operand |
| Processor.MOS6502.JmpAbsoluteXIndirect | app/mos6502.ts:2319-2321 | PC becomes the word at the operand plus X |
| Processor.MOS6502.PushFrame | app/mos6502.ts:158-160 | pushes the return address and the status byte; S goes down by three |
| Processor.MOS6502.Brk | app/mos6502.ts:2323-2332 | BRK pushes PC+1 and the flags with Break set. It sets Break and Interrupt, and clears Decimal from the 65SC02 on. Then it jumps through the IRQ vector |
| Processor.MOS6502.PushBreakFrame | app/mos6502.ts:2323-2325 | pushes the return address and the flags with Break set |
| Processor.MOS6502.MaskInterrupts | app/mos6502.ts:2326-2329 | sets Interrupt, and clears Decimal from the 65SC02 on |
| Processor.MOS6502.Interrupt | app/mos6502.ts:158-163 | pushes PC and the flags, sets Interrupt, and jumps through the vector |
| Processor.MOS6502.Unfilled | app/mos6502.ts:174-183 | from the 65SC02 on an unfilled opcode is a one-cycle NOP; on the 6502 it throws "Illegal instruction" |
| Processor.MOS6502.Perform | app/mos6502.ts:165-169 | running handler h moves the machine (PC, registers, flags, cycles, cells) from its state before to its state after exactly as Performed says for h; cycles never go down |
| Processor.MOS6502.PerformDataOperation | app/mos6502.ts:1532-2292 | for the reads, stores, shifts, INC/DEC on memory, TSB/TRB and RMB/SMB, the effect is the one Performed gives |
| Processor.MOS6502.PerformRegisterOperation | app/mos6502.ts:1894-2110 | for the register counts, transfers, flag changes and stack operations, the effect is the one Performed gives; P is kept or replaced by a new object |
| Processor.MOS6502.PerformControl | app/mos6502.ts:2294-2476 | for calls, returns, BRK, RTI, jumps, branches, `___`, WAI, STP and the NOPs, the effect is the one Performed gives |
| Processor.MOS6502.PerformRead | app/mos6502.ts:1532-1892 | a read fetches its operand through the read addressing mode and passes exactly when the operand cell exists; then the operation sets registers and flags, PC moves past the operand and the page penalty is added |
| Processor.MOS6502.PerformStore | app/mos6502.ts:1960-2040 | a store writes A, X, Y or zero to the effective address (unless locked) and passes exactly when the address resolves |
| Processor.MOS6502.PerformShift | app/mos6502.ts:2112-2200 | ASL, LSR, ROL and ROR on A always pass; on memory they rewrite the cell with the shifted value and its flags |
| Processor.MOS6502.PerformCount | app/mos6502.ts:1894-1948 | INC and DEC on memory rewrite the cell with the counted value and update Z and N from it |
| Processor.MOS6502.PerformTest | app/mos6502.ts:2202-2222 | TSB and TRB rewrite the cell with the bits set or reset, and Z from A AND the old cell |
| Processor.MOS6502.PerformMemoryBit | app/mos6502.ts:2224-2292 | RMB and SMB clear or set one bit of a zero-page cell and pass exactly when the cell exists |
| Processor.MOS6502.PerformCountRegister | app/mos6502.ts:1918-1958 | INC/DEC on A, X or Y always pass and change only that register and Z/N |
| Processor.MOS6502.PerformTransferOrFlag | app/mos6502.ts:2042-2071 | transfers copy one register into another, updating Z/N except into S; SEx/CLx set one flag to the given value |
| Processor.MOS6502.PerformStack | app/mos6502.ts:2085-2110 | pushes store a register at page one and decrement S; pulls pass exactly when the cell above S exists, load it and update Z/N |
| Processor.MOS6502.PerformStatusStack | app/mos6502.ts:2075-2083 | PHP pushes the flags with B set; PLP passes exactly when the cell exists and loads the flags with the reserved bit set |
| Processor.MOS6502.PerformSubroutine | app/mos6502.ts:2296-2309 | JSR pushes PC+1 and jumps to the operand word; RTS pulls the word and continues one past it |
| Processor.MOS6502.PerformBreak | app/mos6502.ts:2323-2332 | BRK pushes PC+1 and the flags with B set, sets I (and clears D from the 65SC02 on), and jumps through the IRQ vector; it passes exactly when the vector exists |
| Processor.MOS6502.PerformReturnFromInterrupt | app/mos6502.ts:2302-2305 | RTI pulls the flags and then PC, moving S up by three |
| Processor.MOS6502.PerformJump | app/mos6502.ts:2311-2321 | JMP absolute, indirect and (absolute,X) set PC to the word they address |
| Processor.MOS6502.PerformBranch | app/mos6502.ts:2374-2410 | a branch reads its signed displacement; when its condition holds it jumps by it and adds the branch penalty, otherwise PC moves past the operand |
| Processor.MOS6502.PerformBitBranch | app/mos6502.ts:2412-2476 | BBR and BBS test one bit of a zero-page cell and branch on it as a relative branch does |
| Processor.MOS6502.PerformUnfilled | app/mos6502.ts:174-176 | `___` fails as an illegal instruction on the NMOS 6502 and from the 65SC02 on spends one cycle; WAI and STP fail as not implemented and change nothing |
| Processor.MOS6502.PerformNop | app/mos6502.ts:1522-1530 | NOP changes nothing; the two- and three-byte NOPs only skip one or two operand bytes |
| Processor.MOS6502.Execute | app/mos6502.ts:165-172 | the cell selects the installed slot of the level, and the machine changes as Performed says for that slot's handler, with the slot's count added to the cycles. A cell outside 0..255 fails and changes nothing. An unfilled opcode passes exactly from the 65SC02 on and costs count + 1 |
| Processor.MOS6502.Step | app/mos6502.ts:132-134 | a step fetches the opcode at PC and executes it as Execute states; a step that passes spends cycles |
| Processor.MOS6502.StepLoadImmediate | app/mos6502.ts:1670-1672 | a step on `A9 nn` (LDA #nn) loads nn into A, updates Z and N from it, moves PC by two and spends two cycles |
| Processor.LoadImmediateStep | app/mos6502.ts:1670-1672 | on a machine whose PC holds `A9 nn`, every outcome Stepped allows passes with A = nn, Z/N from nn, PC + 2 and two more cycles |
| Processor.LoadImmediateExample | app/mos6502.ts:1670-1672 | on a cleared bus holding `A9 2A` at 0, a step leaves A = 0x2A, Z and N clear, PC = 2 and two cycles spent |
| Processor.MOS6502.ResetRegisters | app/mos6502.ts:185-195 | PC=0, A=0, X=0x80, Y=0, S=0xff, and a new P with only Reserved set |
| Processor.MOS6502.Initialise | app/mos6502.ts:117-120 | zero cycles and the reset registers |
| Processor.MOS6502.Start | app/mos6502.ts:122-124 | PC becomes the address |
| Processor.MOS6502.Reset | app/mos6502.ts:136-138 | PC becomes the word at the reset vector 0xfffc |
| Processor.MOS6502.TriggerIrq | app/mos6502.ts:140-142 | an interrupt through the IRQ vector 0xfffe |
| Processor.MOS6502.TriggerNmi | app/mos6502.ts:144-146 | an interrupt through the NMI vector 0xfffa |
| System.CyclesPerInterval | app/system6502.ts:53-55 | the cycles per poll interval are speed (MHz) * 10^6 * 0.001 * interval (ms) |
| System.OneMegahertzTenMilliseconds | app/system6502.ts:53-55 | 1 MHz polled every 10 ms gives 10000 cycles per interval |
| System.AllowedCyclesCatchUp | app/system6502.ts:125-135 | on schedule a poll's budget is one interval's worth; when m whole intervals late it is 1 + m intervals' worth |
| System.BracketedAppend | app/system6502.ts:111-121 | executing one more instruction keeps the event log a run of executing/executed pairs |
| System.System6502.constructor | app/system6502.ts:47-61 | a new system has the level, a fresh 64 KiB bus, the interval, the cycles per interval and empty counters |
| System.System6502.Initialise | app/system6502.ts:92-96 | the processor is initialised, and the bus holds 0 in every cell with nothing locked |
| System.System6502.Run | app/system6502.ts:98-101 | the Starting signal is recorded and the start time is taken |
| System.System6502.Execute | app/system6502.ts:111-121 | remembers the cycles before the instruction. It emits executing for PC-1 and lets the executing listeners clear Proceed. It runs the instruction, changing the machine as Executed says for the installed slot, and once the instruction completes emits executed. A completed instruction spends cycles |
| System.System6502.Step | app/mos6502.ts:132-134 | a step changes the machine as Stepped says for the opcode at the old PC. One that passes records its two events, and Proceed then holds exactly when it held before and the listeners did not stop |
| System.System6502.StepAndCount | app/system6502.ts:137-140 | one turn of the burst loop: a step that passes adds exactly the cycles it spent to the interval count, keeps or clears Proceed as the listeners decide, and records its two events |
| System.System6502.Budget | app/system6502.ts:125-135 | counts one more poll and returns AllowedCycles for the elapsed time |
| System.System6502.Burst | app/system6502.ts:137-141 | steps while proceeding and under budget. No step before the last is stopped by the listeners, and Proceed afterwards holds exactly when it held at the start and the last step was not stopped. The interval count grows by exactly the cycles spent; on exit it is at or over budget unless the processor stopped. No step runs exactly when the processor was stopped or over budget at the start. Every instruction is bracketed by its two events |
| System.System6502.Poll | app/system6502.ts:123-155 | one poll runs the burst for its budget, then takes one interval's worth off the interval count. The burst ends after the step at which the listeners stop the processor; the count then differs from its start by the cycles spent less one interval. When the processor has stopped, Finished is recorded once, after the burst's events, with the finish time |
| Numerals.NatToBaseDigits | app/Disassembly.ts:23-33 | `toString(base)` of a natural number writes only digits of the base |
| Numerals.NatToBaseValue | app/Disassembly.ts:23-33 | the digits that `toString(base)` writes are worth the number |
| Numerals.NatToBaseLength | app/Disassembly.ts:23-33 | a number below base^k has at most k digits |
| Numerals.DigitRunStops | app/Symbols.ts:57 | parseInt's digit run holds only digits and ends at the first non-digit |
| Numerals.ParseIntToBase | app/Symbols.ts:45-57 | parseInt (radix 10 or 16) reads back the `toString` of every integer, negative ones included |
| Numerals.ParseIntNumeral | app/Symbols.ts:45-57 | parseInt reads a run of digits as its value |
| Numerals.ParseUnsignedToBase | app/Symbols.ts:57 | the unsigned part of parseInt reads back `toString` of a natural number |
| Text.Split | app/Symbols.ts:82-88 | a split yields at least one piece |
| Text.SplitPieces | app/Symbols.ts:82-88 | a split yields one piece more than there are separators, and no piece holds a separator |
| Text.JoinSplit | app/Symbols.ts:82-88 | joining the pieces with the separators they were split at gives back the string |
| Text.Lines | app/Symbols.ts:78 | the split at `\n` or `\r\n` yields one line per line-feed piece |
| Text.LinesOfContents | app/Symbols.ts:78 | there is one line more than there are line feeds, and no line holds a line feed |
| JsObjects.CollectLastWins | app/Symbols.ts:90 | after assigning the pairs in order, a key is present exactly when some element assigns it, and holds the value the last such element assigns |
| JsObjects.CollectPut | app/Symbols.ts:60-65 | one more assignment updates that key and appends it to the key order only when it is new |
| JsObjects.LastWith | app/Symbols.ts:90 | the index found is the last element assigning the key, or -1 when none does |
| JsObjects.KeysInOrder | app/Symbols.ts:95-100 | the insertion order of an object lists each present key exactly once |
| JsObjects.KeysInOrderAppend | app/Symbols.ts:100 | assigning a key appends it to the order only when it is new |
| JsObjects.FiltersPartition | app/Symbols.ts:52 | the integer-index keys and the other keys together are exactly the keys |
| JsObjects.InsertAscending | app/Symbols.ts:52 | inserting a key into an ascending run of index keys keeps it ascending |
| JsObjects.SortIndexKeys | app/Symbols.ts:52 | sorting the index keys keeps the same keys and puts them in ascending order |
| JsObjects.EnumerateOrder | app/Profiler.ts:132 | `for ... in` visits every key once: first the array-index keys in ascending numeric order, then the other keys in insertion order |
| Disassembly.Repeat | app/Disassembly.ts:32 | the fill is n copies of the one-character pad |
| Disassembly.Pad | app/Disassembly.ts:23-33 | the padded text ends with `toString(base)` of the value, padded on the left with the pad character up to the width |
| Disassembly.PadNumeral | app/Disassembly.ts:23-33 | a padded natural number is a run of digits worth the number |
| Disassembly.PadRoundTrip | app/Disassembly.ts:23-33 | parseInt reads a padded natural number back |
| Disassembly.DumpByteValueDigits | app/Disassembly.ts:15-17 | a byte is dumped as exactly two hex digits worth it |
| Disassembly.DumpWordValueDigits | app/Disassembly.ts:19-21 | a word is dumped as exactly four hex digits worth it |
| Disassembly.DumpByteValueRoundTrip | app/Disassembly.ts:15-17 | parseInt(…, 16) reads a dumped byte back |
| Disassembly.DumpWordValueRoundTrip | app/Disassembly.ts:19-21 | parseInt(…, 16) reads a dumped word back |
| Disassembly.Decorate | app/Disassembly.ts:146-204 | an operand's text starts with its mode's prefix and ends with its suffix |
| Disassembly.Disassembler.ByteAt | app/Disassembly.ts:92-94 | the byte at an address, defined exactly when the cell is |
| Disassembly.Disassembler.WordAtAddress | app/Disassembly.ts:96-98 | the word at an address, defined exactly when both cells are, whose low and high bytes are the cells |
| Disassembly.Disassembler.ConvertWordAddress | app/Disassembly.ts:112-118 | the label of the address when there is one, otherwise `$` and the four-digit dump |
| Disassembly.Disassembler.ConvertByteAddress | app/Disassembly.ts:120-126 | the label of the address when there is one, otherwise `$` and the two-digit dump |
| Disassembly.Disassembler.ConvertByteConstant | app/Disassembly.ts:136-142 | the constant's name when there is one, otherwise `$` and the two-digit dump |
| Disassembly.Disassembler.DumpBytes | app/Disassembly.ts:66-68 | the operand bytes' dump is defined exactly when the mode's operand cells are |
| Disassembly.Disassembler.DumpOperand | app/Disassembly.ts:86-88 | the operand text is defined exactly when the mode's operand cells are |
| Disassembly.Disassembler.ByteOperand | app/Disassembly.ts:146-209 | the text of a one-byte operand carries its mode's prefix and suffix |
| Disassembly.Disassembler.WordOperand | app/Disassembly.ts:151-199 | the text of a two-byte operand carries its mode's prefix and suffix |
| Disassembly.Disassembler.Disassemble | app/Disassembly.ts:70-84 | "label: mnemonic operand" when the address has a label and "mnemonic operand" otherwise; defined exactly when the opcode and operand cells are |
| Disassembly.ConvertWordAddressDigits | app/Disassembly.ts:112-118 | an unlabelled 16-bit address is shown as `$` and four hex digits worth it |
| Disassembly.ConvertByteAddressDigits | app/Disassembly.ts:120-126 | an unlabelled byte address is shown as `$` and two hex digits worth it |
| Disassembly.ConvertByteConstantDigits | app/Disassembly.ts:136-142 | an unnamed byte constant is shown as `$` and two hex digits worth it |
| Disassembly.DumpBytesDigits | app/Disassembly.ts:102-108 | an operand's bytes are dumped as two hex digits per byte, in memory order |
| Disassembly.DumpTwoBytesText | app/Disassembly.ts:106-108 | Dump_DByte is the dump of the first byte followed by the dump of the second |
| Disassembly.OperandSyntax | app/Disassembly.ts:43-64 | every mode's operand text starts with its prefix (`#`, `(`) and ends with its suffix (`,X`, `,Y`, `),Y`, `,X)`, `)`, `A`) |
| Disassembly.RelativeOperandTarget | app/Disassembly.ts:206-209 | a relative operand shows the branch target for forward branches and 0x100 more than it for backward ones |
| Disassembly.BitBranchOperandTarget | app/Disassembly.ts:211-216 | a zero-page-relative operand shows the zero-page address and one less than the address BBR/BBS jump to |
| SymbolFile.TrimQuotesQuoted | app/Symbols.ts:14-16 | quoting a non-empty single-line text and trimming gives the text back |
| SymbolFile.TrimQuotesChanges | app/Symbols.ts:14-16 | trimming either keeps the text or removes exactly one surrounding pair of quotes |
| SymbolFile.RecordFields | app/Symbols.ts:85-92 | a record has a field exactly when some comma-separated element splits at `=` into that name and a value, and holds the value of the last such element |
| SymbolFile.LineEntryShape | app/Symbols.ts:82-101 | only a line with exactly one white-space character defines an entry. Its type is the part before it. Its record holds every field but `id` |
| SymbolFile.LineEntries | app/Symbols.ts:80-103 | one possible entry per line |
| SymbolFile.StoreTableOf | app/Symbols.ts:95-100 | filing a record into a type's table gives the table of one more pair |
| SymbolFile.FileAllByKind | app/Symbols.ts:94-101 | a type has a table exactly when some entry has that type, and that table holds that type's pairs in order |
| SymbolFile.ParsedRecords | app/Symbols.ts:75-104 | a type is in the parse exactly when some line defines an entry of it; an id holds the record of the last line defining it |
| SymbolFile.ParsedTablesValid | app/Symbols.ts:94-101 | every parsed table lists exactly the ids it holds |
| SymbolFile.EnumeratedIds | app/Symbols.ts:52-54 | enumerating a table's ids visits only ids it holds |
| SymbolFile.AssignSymbolCollects | app/Symbols.ts:54-70 | assigning one more named symbol adds exactly the label, constant and address pairs it defines |
| SymbolFile.AssignAllCollects | app/Symbols.ts:50-73 | assigning all symbols in order builds the tables of all the pairs they define |
| SymbolFile.LastSymbolWins | app/Symbols.ts:58-66 | a value has a label (constant) exactly when some `lab` (`equ`) symbol has that value, and gets the name of the last one; a name's address is the value of the last `lab` symbol with that name |
| SymbolFile.ScopeSizes | app/Symbols.ts:38-48 | a scope name has a size exactly when some scope record has that name, and the size is the decimal parse of the last one's `size` |
| SymbolFile.Symbols.constructor | app/Symbols.ts:18-24 | every table starts empty |
| SymbolFile.Symbols.FileLine | app/Symbols.ts:82-101 | one line files its entry, if any, into the parse |
| SymbolFile.Symbols.Parse | app/Symbols.ts:75-104 | parsing the contents gives the filing of every line's entry |
| SymbolFile.Symbols.AssignSymbols | app/Symbols.ts:50-73 | succeeds exactly when every `sym` record has a name, and then the tables are AssignAll of the records |
| SymbolFile.Symbols.AssignSymbolOf | app/Symbols.ts:54-70 | the tables after one symbol are AssignSymbol of the tables before |
| SymbolFile.Symbols.AssignEachSymbol | app/Symbols.ts:52-72 | the loop over the symbols builds AssignAll, and fails exactly when some symbol has no name |
| SymbolFile.Symbols.AssignScopes | app/Symbols.ts:38-48 | succeeds exactly when every scope record has a name, and then the scopes map names to parsed sizes |
| SymbolFile.Symbols.AssignEachScope | app/Symbols.ts:40-47 | the loop over the scope records builds the size map, and fails exactly when some scope has no name |
| SymbolFile.ParseRecord | app/Symbols.ts:85-92 | the loop over the elements builds the record that RecordFields characterises |
| SymbolFile.Load | app/Symbols.ts:18-31 | an empty path gives empty tables. Otherwise the parse is the file's, and loading fails exactly when a symbol or scope has no name. The tables are those of the symbol and scope records |
| Profiling.KeyStringReadsBack | app/Profiler.ts:132-137 | parseInt of a numeric key's property name gives the number back |
| Profiling.LabelKeys | app/Profiler.ts:132-133 | the label keys visited are all keys of the labels |
| Profiling.ScopeAtLastCover | app/Profiler.ts:131-144 | an address has a scope exactly when some label's scope covers it, and it is the name of the last label visited that covers it |
| Profiling.PositiveAddresses | app/Profiler.ts:78-86 | every listed address is below the bound |
| Profiling.PositiveAddressesExactly | app/Profiler.ts:78-86 | exactly the addresses with a positive cycle count are listed, in ascending order |
| Profiling.Lines | app/Profiler.ts:76-87 | one line per address with a positive cycle count |
| Profiling.LinesExactly | app/Profiler.ts:76-87 | the lines are the disassembly and cycles of exactly the profiled addresses, in ascending address order |
| Profiling.ScopeNamesListed | app/Profiler.ts:90-91 | the enumeration visits only scopes that spent cycles |
| Profiling.ScopeLines | app/Profiler.ts:89-97 | one scope line per enumerated scope |
| Profiling.ScopeLinesOnce | app/Profiler.ts:89-97 | every scope that spent cycles is emitted exactly once, with its cycles and the count at its address |
| Profiling.Profiler.constructor | app/Profiler.ts:28-66 | listeners are attached as the flags say; every count and profile starts at 0; the address scopes are built |
| Profiling.Profiler.BuildAddressScopes | app/Profiler.ts:131-144 | every address gets the scope of the last label, in enumeration order, whose scope covers it |
| Profiling.Profiler.FillLabel | app/Profiler.ts:134-141 | filling one more label's range gives the scopes of one more key |
| Profiling.Profiler.ExecutingInstruction | app/Profiler.ts:100-109 | when profiling addresses, remembers the cycles and counts the address; when counting instructions, counts the opcode |
| Profiling.Profiler.ExecutedInstruction | app/Profiler.ts:111-129 | when profiling, adds the cycles spent to the address and to its scope; a scope is added to the order when first seen |
| Profiling.Profiler.OnExecutingInstruction | app/Profiler.ts:38-42 | the executing listener acts only when attached |
| Profiling.Profiler.OnExecutedInstruction | app/Profiler.ts:44-48 | the executed listener acts only when attached. Then it adds the cycles spent to the address and, when the address has a scope, to that scope, appending the scope to the order when it is first seen |
| Profiling.Profiler.EmitLines | app/Profiler.ts:76-87 | the loop over every address emits Lines |
| Profiling.Profiler.EmitScopes | app/Profiler.ts:89-97 | the loop over the scopes emits ScopeLines |
| Profiling.Profiler.Generate | app/Profiler.ts:68-72 | starting, the line block, the scope block, finished, in that order |

## Left out

- Timers and clocks: `Date.now`, `setInterval`, `process.hrtime`, and the executing-time accumulator are not modelled. `System.System6502.Poll` and `Run` take the current time as a parameter.
- The processor speed is a natural number of MHz. A fractional speed, and the floating-point factor 0.001, are not modelled.
- `MOS6502.Run` (app/mos6502.ts:126-130) is a loop with no bound while `Proceed` holds. It is not modelled. The bounded stepping of `System.System6502.Burst` stands for it.
- Reading a cell that was never written: JavaScript yields `undefined`, which then spreads as `NaN`. The model turns that read into a fault instead. The disassembler returns `None` where the source would print `NaN` or throw.
- The signals and the EventEmitter: the events they carry are kept as event logs, and listeners are calls. Controller.ts, Configuration.ts, ConfigurationReader.ts, Wrapper.ts and app.ts are not part of this model. What the Controller's executing listeners decide (clearing Proceed at a stop address, on a loop or on BRK) is an input: `stop` for one instruction, `stops` for the steps of a burst or poll.
- Precision of JavaScript numbers beyond 2^53, and the exponent form `toString` uses from 10^21 on, are not modelled. Numbers here are exact integers.
- A `__proto__` key in the symbol file is not modelled.
- The `readingByte` events caused by the disassembler's reads are not modelled. Its memory is a value.
- Profiler: cycle counts come in as a parameter instead of being read from the processor. The profiler keeps copies of the symbol tables. Scope writes outside 0..0xffff, which JavaScript's sparse arrays would keep, are dropped.
- Reading files: the symbol file's contents and memory images are parameters. `SymbolFile.Load` returns `None` where the source throws a TypeError on a record without `name`.
- `console.assert` is not modelled. It only logs, and the model computes the value JavaScript goes on with. The assertions at mos6502.ts:36 and 1480, and at Profiler.ts:126, always hold. The one at mos6502.ts:32 does not: UpdateZeroNegativeFlags passes toSignedByte values that are not bytes. Examples are -1 from DEC of a cell holding 0 (mos6502.ts:1213-1216), 0x100 from INC of 0xff (mos6502.ts:1279-1282), and up to 0x1ff from ASL or ROL of a datum of 0x80 or more (mos6502.ts:1293, 1310). The assertion then logs, and `Bytes.SignedByteIsJs` gives the value computed anyway.
- Profiling.Profiler.constructor: Profiler.ts:39 and 45 attach the listeners with `.on(...)`, but System6502 announces instructions through its Signals (system6502.ts:32-33, 118-120). The model assumes that the profiler's handlers are the ones those Signals call.
- MemoryBus.Memory.constructor: in the source the cell and lock arrays do not exist until ClearMemory and ClearLocking run, so GetByte, SetByte, LockMemory and LoadMemory (Memory.ts:34, 40, 59, 73) would throw a TypeError before then. The model starts from empty maps instead: a read then fails as an undefined cell, and a write or a lock succeeds.
