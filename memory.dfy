/**
 * The memory bus: a sparse array of cells with a parallel array of lock bits.
 * Writes to locked cells are refused (and reported), ROM images are locked
 * after they are loaded, and every access is reported as an event. The
 * JavaScript arrays are sparse and grow on writes past their end, so both are
 * modelled as maps from offset to content; an offset that is not a key is a
 * cell that reads as `undefined`.
 */
module MemoryBus {
  import opened Wrappers

  /** The notifications the bus emits, in the order they were emitted. */
  datatype BusEvent =
    | ReadingByte(offset: int, content: Option<int>)
    | WritingByte(offset: int, value: int)
    | InvalidWriteAttempt(offset: int, value: int)

  datatype LoadError = FileTooLarge

  /** offset <= i < offset + length, named so that the maps below have something to trigger on. */
  predicate InWindow(i: int, offset: int, length: int) {
    offset <= i < offset + length
  }

  /** The cells 0 .. size-1, each holding v. */
  function Filled<T>(size: int, v: T): (m: map<int, T>)
    ensures forall i :: i in m <==> 0 <= i < size
    ensures forall i :: i in m ==> m[i] == v
  {
    map i | 0 <= i < size && InWindow(i, 0, size) :: v
  }

  /** The cells offset .. offset+|image|-1, holding the image in order. */
  function Image(image: seq<int>, offset: int): (m: map<int, int>)
    ensures forall i :: i in m <==> offset <= i < offset + |image|
    ensures forall i :: i in m ==> m[i] == image[i - offset]
  {
    map i | offset <= i < offset + |image| && InWindow(i, offset, |image|) :: image[i - offset]
  }

  /** The lock bits set on offset .. offset+length-1. */
  function LockRange(offset: int, length: int): (m: map<int, bool>)
    ensures forall i :: i in m <==> offset <= i < offset + length
    ensures forall i :: i in m ==> m[i]
  {
    map i | offset <= i < offset + length && InWindow(i, offset, length) :: true
  }

  /** The cells after a write of value at offset: a locked cell keeps its content. */
  function Stored(cells: map<int, int>, locked: map<int, bool>, offset: int, value: int): map<int, int> {
    if offset in locked && locked[offset] then cells else cells[offset := value]
  }

  class Memory {
    const memorySize: int
    /** `_memory`: the content of every cell that has been given one. */
    var cells: map<int, int>
    /** `_locked`: the lock bit of every cell that has been given one. */
    var locked: map<int, bool>
    /** The events emitted so far. */
    ghost var events: seq<BusEvent>

    /** A new bus; neither array exists until it is cleared. */
    constructor(memorySize: int)
      ensures this.memorySize == memorySize
      ensures cells == map[] && locked == map[] && events == []
    {
      this.memorySize := memorySize;
      cells := map[];
      locked := map[];
      events := [];
    }

    /** A missing lock bit is `undefined`, which counts as unlocked. */
    predicate IsLocked(offset: int)
      reads this
    {
      offset in locked && locked[offset]
    }

    /** ClearMemory: a fresh array whose cells 0 .. memorySize-1 hold 0. */
    method ClearMemory()
      modifies this`cells
      ensures cells == Filled(memorySize, 0)
    {
      cells := map[];
      var i := 0;
      while i < memorySize
        invariant 0 <= i && (i <= memorySize || i == 0)
        invariant cells == Filled(if memorySize <= 0 then 0 else i, 0)
        decreases memorySize - i
      {
        cells := cells[i := 0];
        i := i + 1;
      }
    }

    /** ClearLocking: a fresh lock array whose cells 0 .. memorySize-1 are unlocked. */
    method ClearLocking()
      modifies this`locked
      ensures locked == Filled(memorySize, false)
      ensures forall i :: !IsLocked(i)
    {
      locked := map[];
      var i := 0;
      while i < memorySize
        invariant 0 <= i && (i <= memorySize || i == 0)
        invariant locked == Filled(if memorySize <= 0 then 0 else i, false)
        decreases memorySize - i
      {
        locked := locked[i := false];
        i := i + 1;
      }
    }

    /** GetByte: the content of a cell (None when it is `undefined`), reported as read. */
    method GetByte(offset: int) returns (content: Option<int>)
      modifies this`events
      ensures content == if offset in cells then Some(cells[offset]) else None
      ensures events == old(events) + [ReadingByte(offset, content)]
    {
      content := if offset in cells then Some(cells[offset]) else None;
      events := events + [ReadingByte(offset, content)];
    }

    /** SetByte: a locked cell keeps its content and the attempt is reported; any other cell takes the value. */
    method SetByte(offset: int, value: int)
      modifies this`cells, this`events
      ensures IsLocked(offset) ==> cells == old(cells) && events == old(events) + [InvalidWriteAttempt(offset, value)]
      ensures !IsLocked(offset) ==> cells == old(cells)[offset := value] && events == old(events) + [WritingByte(offset, value)]
      ensures cells == Stored(old(cells), locked, offset, value)
    {
      if IsLocked(offset) {
        events := events + [InvalidWriteAttempt(offset, value)];
      } else {
        cells := cells[offset := value];
        events := events + [WritingByte(offset, value)];
      }
    }

    /** LockMemory: locks offset .. offset+length-1 and no other cell; nothing is unlocked. */
    method LockMemory(offset: int, length: int)
      modifies this`locked
      ensures locked == old(locked) + LockRange(offset, length)
      ensures forall i :: IsLocked(i) <==> old(IsLocked(i)) || offset <= i < offset + length
    {
      var i := 0;
      while i < length
        invariant 0 <= i && (i <= length || i == 0)
        invariant locked == old(locked) + LockRange(offset, if length <= 0 then 0 else i)
        decreases length - i
      {
        locked := locked[offset + i := true];
        i := i + 1;
      }
    }

    /**
     * LoadMemory: an image longer than the whole memory is refused (wherever it
     * would go); otherwise its bytes are copied to offset onwards, locks or not,
     * and its length is returned.
     */
    method LoadMemory(image: seq<int>, offset: int) returns (r: Result<int, LoadError>)
      modifies this`cells
      ensures |image| > memorySize ==> r == Failure(FileTooLarge) && cells == old(cells)
      ensures |image| <= memorySize ==> r == Success(|image|) && cells == old(cells) + Image(image, offset)
    {
      var size := |image|;
      if size > memorySize {
        return Failure(FileTooLarge);
      }
      var index := 0;
      while index < size
        invariant 0 <= index <= size
        invariant cells == old(cells) + Image(image[..index], offset)
      {
        cells := cells[offset + index := image[index]];
        index := index + 1;
      }
      assert image[..size] == image;
      return Success(size);
    }

    /** LoadRom: loads the image, then locks the cells it was loaded into. */
    method LoadRom(image: seq<int>, offset: int) returns (r: Outcome<LoadError>)
      modifies this`cells, this`locked
      ensures |image| > memorySize ==> r == Fail(FileTooLarge) && cells == old(cells) && locked == old(locked)
      ensures |image| <= memorySize ==> r == Pass && cells == old(cells) + Image(image, offset)
      ensures |image| <= memorySize ==> locked == old(locked) + LockRange(offset, |image|)
    {
      var loaded := LoadMemory(image, offset);
      if loaded.Failure? {
        return Fail(loaded.error);
      }
      LockMemory(offset, loaded.value);
      return Pass;
    }

    /** LoadRam: loads the image and leaves every lock bit as it was. */
    method LoadRam(image: seq<int>, offset: int) returns (r: Outcome<LoadError>)
      modifies this`cells
      ensures |image| > memorySize ==> r == Fail(FileTooLarge) && cells == old(cells)
      ensures |image| <= memorySize ==> r == Pass && cells == old(cells) + Image(image, offset)
    {
      var loaded := LoadMemory(image, offset);
      if loaded.Failure? {
        return Fail(loaded.error);
      }
      return Pass;
    }
  }
}
