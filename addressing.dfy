/**
 * The addressing modes as functions of the memory contents and the
 * registers: where an operand lives, how many operand bytes follow the
 * opcode, and the extra cycle the reading resolvers charge. A cell that holds
 * nothing (JavaScript `undefined`) makes the resolution fail.
 */
module Addressing {
  import opened Wrappers
  import opened Bytes
  import I = Instructions

  /** Both bytes of the little-endian word at offset hold something. */
  predicate WordDefined(cells: map<int, int>, offset: int) {
    offset in cells && offset + 1 in cells
  }

  /** GetWord: the low byte at offset, the high byte after it. */
  function WordAt(cells: map<int, int>, offset: int): int
    requires WordDefined(cells, offset)
  {
    MakeWord(cells[offset], cells[offset + 1])
  }

  /** A resolved operand: its address, the operand bytes consumed after the opcode, and the extra cycles charged. */
  datatype Effective = Effective(address: int, size: int, penalty: int)

  /** The extra cycle a reading resolver charges: when the low byte of the value it tests is 0xff. */
  function Penalty(v: int): int {
    if LowByte(v) == 0xff then 1 else 0
  }

  /**
   * The ReadByte_* family: where the operand of a reading instruction is, with
   * pc the address just after the opcode. Immediate operands are the byte at pc
   * itself.
   */
  function ResolveRead(from: I.ReadFrom, cells: map<int, int>, pc: int, x: int, y: int): Option<Effective> {
    match from
    case FromImmediate => Some(Effective(pc, 1, 0))
    case FromZeroPage =>
      if pc in cells then Some(Effective(cells[pc], 1, 0)) else None
    case FromZeroPageX =>
      if pc in cells then Some(Effective(LowByte(cells[pc] + x), 1, 0)) else None
    case FromZeroPageY =>
      if pc in cells then Some(Effective(LowByte(cells[pc] + y), 1, 0)) else None
    case FromAbsolute =>
      if WordDefined(cells, pc) then Some(Effective(WordAt(cells, pc), 2, 0)) else None
    case FromAbsoluteX =>
      if WordDefined(cells, pc) then
        var address := WordAt(cells, pc) + x;
        Some(Effective(address, 2, Penalty(address)))
      else None
    case FromAbsoluteY =>
      if WordDefined(cells, pc) then
        var address := WordAt(cells, pc) + y;
        Some(Effective(address, 2, Penalty(address)))
      else None
    case FromIndexedIndirectX =>
      if pc in cells && WordDefined(cells, LowByte(cells[pc] + x)) then
        Some(Effective(WordAt(cells, LowByte(cells[pc] + x)), 1, 0))
      else None
    case FromIndirectIndexedY =>
      if pc in cells && WordDefined(cells, cells[pc]) then
        var indirection := WordAt(cells, cells[pc]);
        Some(Effective(indirection + y, 1, Penalty(indirection)))
      else None
    case FromZeroPageIndirect =>
      if pc in cells && WordDefined(cells, cells[pc]) then Some(Effective(WordAt(cells, cells[pc]), 1, 0)) else None
  }

  /** The Address_* resolvers the writing and modifying instructions use: the same addresses, never a penalty. */
  function ResolveWrite(to: I.WriteTo, cells: map<int, int>, pc: int, x: int, y: int): Option<Effective> {
    match to
    case ToZeroPage =>
      if pc in cells then Some(Effective(cells[pc], 1, 0)) else None
    case ToZeroPageX =>
      if pc in cells then Some(Effective(LowByte(cells[pc] + x), 1, 0)) else None
    case ToZeroPageY =>
      if pc in cells then Some(Effective(LowByte(cells[pc] + y), 1, 0)) else None
    case ToAbsolute =>
      if WordDefined(cells, pc) then Some(Effective(WordAt(cells, pc), 2, 0)) else None
    case ToAbsoluteX =>
      if WordDefined(cells, pc) then Some(Effective(WordAt(cells, pc) + x, 2, 0)) else None
    case ToAbsoluteY =>
      if WordDefined(cells, pc) then Some(Effective(WordAt(cells, pc) + y, 2, 0)) else None
    case ToIndexedIndirectX =>
      if pc in cells && WordDefined(cells, LowByte(cells[pc] + x)) then
        Some(Effective(WordAt(cells, LowByte(cells[pc] + x)), 1, 0))
      else None
    case ToIndirectIndexedY =>
      if pc in cells && WordDefined(cells, cells[pc]) then Some(Effective(WordAt(cells, cells[pc]) + y, 1, 0)) else None
    case ToZeroPageIndirect =>
      if pc in cells && WordDefined(cells, cells[pc]) then Some(Effective(WordAt(cells, cells[pc]), 1, 0)) else None
  }

  /** The reading and the writing form of the same addressing mode. */
  predicate SameMode(from: I.ReadFrom, to: I.WriteTo) {
    match from
    case FromImmediate => false
    case FromZeroPage => to == I.ToZeroPage
    case FromZeroPageX => to == I.ToZeroPageX
    case FromZeroPageY => to == I.ToZeroPageY
    case FromAbsolute => to == I.ToAbsolute
    case FromAbsoluteX => to == I.ToAbsoluteX
    case FromAbsoluteY => to == I.ToAbsoluteY
    case FromIndexedIndirectX => to == I.ToIndexedIndirectX
    case FromIndirectIndexedY => to == I.ToIndirectIndexedY
    case FromZeroPageIndirect => to == I.ToZeroPageIndirect
  }

  /**
   * The read and write resolvers of one mode fail on the same memory, reach
   * the same address and consume the same operand bytes; only the read
   * resolver charges a penalty, and only in the indexed modes.
   */
  lemma ReadWriteAgree(from: I.ReadFrom, to: I.WriteTo, cells: map<int, int>, pc: int, x: int, y: int)
    requires SameMode(from, to)
    ensures ResolveRead(from, cells, pc, x, y).Some? <==> ResolveWrite(to, cells, pc, x, y).Some?
    ensures ResolveWrite(to, cells, pc, x, y).Some? ==>
      var r, w := ResolveRead(from, cells, pc, x, y).value, ResolveWrite(to, cells, pc, x, y).value;
      r.address == w.address && r.size == w.size && w.penalty == 0
      && (r.penalty != 0 ==> from in {I.FromAbsoluteX, I.FromAbsoluteY, I.FromIndirectIndexedY})
  {
  }

  /** Every resolution consumes one or two operand bytes and charges at most one cycle. */
  lemma ResolveBounds(from: I.ReadFrom, to: I.WriteTo, cells: map<int, int>, pc: int, x: int, y: int)
    ensures ResolveRead(from, cells, pc, x, y).Some? ==>
      var r := ResolveRead(from, cells, pc, x, y).value;
      1 <= r.size <= 2 && 0 <= r.penalty <= 1
    ensures ResolveWrite(to, cells, pc, x, y).Some? ==>
      var w := ResolveWrite(to, cells, pc, x, y).value;
      1 <= w.size <= 2 && w.penalty == 0
  {
  }

  /**
   * The absolute indexed reads charge their cycle when the effective address
   * ends in 0xff, not when the indexing moves to another page: 0x10ff,X with
   * X = 1 crosses into page 0x11 and costs nothing extra, while 0x10fe,X with
   * X = 1 stays in page 0x10 and is charged.
   */
  lemma PenaltyIsNotPageCrossing()
    ensures var cells := map[0 := 0xff, 1 := 0x10];
      ResolveRead(I.FromAbsoluteX, cells, 0, 1, 0) == Some(Effective(0x1100, 2, 0))
    ensures var cells := map[0 := 0xfe, 1 := 0x10];
      ResolveRead(I.FromAbsoluteX, cells, 0, 1, 0) == Some(Effective(0x10ff, 2, 1))
  {
    BytesRoundTrip(0xff, 0x10);
    BytesRoundTrip(0xfe, 0x10);
  }
}
