/**
 * The system: a processor wired to a 64K memory bus, driven in bursts by a
 * periodic poll. Each poll grants a budget of cycles, raised when the host
 * has fallen behind the nominal schedule, and runs instructions until the
 * budget is spent or the processor is told to stop; the cycles a burst runs
 * over the budget carry into the next poll. Every instruction is bracketed by
 * an "executing" and an "executed" notification, which other components (the
 * profiler) listen to. The wall clock is an input: each poll is given the
 * current time in milliseconds, and the timer that calls it is left out.
 */
module System {
  import opened Wrappers
  import opened Bits
  import opened MemoryBus
  import opened Processor
  import I = Instructions

  /** The size of the memory the system owns. */
  const MemorySize: int := 0x10000

  /** The notifications the system dispatches, in the order they were dispatched. */
  datatype SystemEvent =
    | Starting
    | Finished
    | ExecutingInstruction(address: int, cell: int)
    | ExecutedInstruction(address: int, cell: int)

  /** A run of instructions, each announced as executing and then as executed, at the same address with the same opcode. */
  predicate Bracketed(events: seq<SystemEvent>) {
    if |events| == 0 then true
    else
      |events| >= 2 && events[0].ExecutingInstruction?
      && events[1] == ExecutedInstruction(events[0].address, events[0].cell)
      && Bracketed(events[2..])
  }

  /** One more bracketed instruction after a bracketed run is a bracketed run. */
  lemma {:induction false} BracketedAppend(events: seq<SystemEvent>, address: int, cell: int)
    requires Bracketed(events)
    ensures Bracketed(events + [ExecutingInstruction(address, cell), ExecutedInstruction(address, cell)])
    decreases |events|
  {
    var pair := [ExecutingInstruction(address, cell), ExecutedInstruction(address, cell)];
    if |events| == 0 {
      assert events + pair == pair;
      assert pair[2..] == [];
    } else {
      assert (events + pair)[2..] == events[2..] + pair;
      BracketedAppend(events[2..], address, cell);
    }
  }

  /**
   * The cycles granted per poll: the clock rate in cycles per second (the
   * speed in MHz times a million), scaled to a millisecond, times the poll
   * interval in milliseconds.
   */
  function CyclesPerInterval(speed: nat, interval: nat): (r: nat)
    ensures r * 1000 == speed * 1_000_000 * interval
  {
    speed * 1000 * interval
  }

  /**
   * `(difference / interval) | 0`: the whole intervals in the difference,
   * truncated to a signed 32-bit integer; a zero interval divides to
   * Infinity, which `| 0` turns into 0.
   */
  function MissedJiffies(difference: int, interval: nat): int {
    if interval == 0 then 0 else ToInt32(difference / interval)
  }

  /**
   * The budget of a poll: one interval's worth of cycles, plus one interval's
   * worth for every whole interval by which the time elapsed since the start
   * exceeds the interval times the polls made before this one.
   */
  function AllowedCycles(perInterval: int, interval: nat, jiffies: int, elapsed: int): int {
    var calculated := interval * jiffies;
    if elapsed > calculated then perInterval + MissedJiffies(elapsed - calculated, interval) * perInterval
    else perInterval
  }

  /**
   * On schedule the budget is exactly one interval's worth; behind schedule
   * by d milliseconds (fewer than 2^31 intervals) it is one interval's worth
   * for each of the 1 + m intervals, m being the whole intervals in d.
   */
  lemma AllowedCyclesCatchUp(perInterval: int, interval: nat, jiffies: int, elapsed: int)
    requires interval > 0
    ensures elapsed <= interval * jiffies ==> AllowedCycles(perInterval, interval, jiffies, elapsed) == perInterval
    ensures elapsed > interval * jiffies && elapsed - interval * jiffies < interval * Pow31 ==>
      var d, m := elapsed - interval * jiffies, MissedJiffies(elapsed - interval * jiffies, interval);
      0 <= m && m * interval <= d < (m + 1) * interval
      && AllowedCycles(perInterval, interval, jiffies, elapsed) == (1 + m) * perInterval
  {
    var d := elapsed - interval * jiffies;
    if d > 0 && d < interval * Pow31 {
      QuotientBelow(d, interval);
      SmallIsInt32(d / interval);
    }
  }

  lemma QuotientBelow(d: int, interval: nat)
    requires interval > 0 && 0 < d < interval * Pow31
    ensures 0 <= d / interval < Pow31
    ensures (d / interval) * interval <= d < (d / interval + 1) * interval
  {
    var q := d / interval;
    assert q * interval <= d;
    MultiplyBelow(q, Pow31, interval);
  }

  lemma MultiplyBelow(q: int, bound: int, k: nat)
    requires k > 0 && q * k < bound * k
    ensures q < bound
  {
  }

  /** A poll interval of 10 ms at 1 MHz grants 10,000 cycles. */
  lemma OneMegahertzTenMilliseconds()
    ensures CyclesPerInterval(1, 10) == 10_000
  {
  }

  /** With an opcode at PC, a step is the execution of that opcode with PC already past it. */
  lemma FetchThenExecute(level: I.ProcessorType, locked: map<int, bool>, m: Machine, o: Outcome<Fault>, n: Machine)
    requires m.pc in m.cells
    ensures Executed(level, locked, m.cells[m.pc], m.(pc := m.pc + 1), o, n) ==> Stepped(level, locked, m, o, n)
  {
  }

  /** The listeners' decision at step k of a burst: past the decisions given, they let the processor proceed. */
  predicate StopAt(stops: seq<bool>, k: int) {
    0 <= k < |stops| && stops[k]
  }

  class System6502 {
    const cpu: MOS6502
    /** `_memory`: the bus the processor reads and writes. */
    const memory: Memory
    /** `_pollInterval`, in milliseconds. */
    const pollInterval: nat
    const cyclesPerInterval: int
    /** Set by the Starting and Finished notifications' own handlers. */
    var startTime: int
    var finishTime: int
    /** The cycle count when the current instruction started. */
    var oldCycles: int
    /** Cycles run in the current interval, less the budget already granted. */
    var intervalCycles: int
    /** Polls made so far. */
    var jiffies: int
    /** The notifications dispatched so far. */
    ghost var events: seq<SystemEvent>

    ghost predicate Valid()
      reads cpu.instructions
    {
      cpu.bus == memory && memory.memorySize == MemorySize && cpu.Valid()
    }

    /** A processor of the given level at the given speed (MHz), polled every pollInterval milliseconds. */
    constructor(level: I.ProcessorType, speed: nat, pollInterval: nat)
      ensures Valid() && fresh(cpu) && fresh(memory)
      ensures cpu.level == level && memory.memorySize == MemorySize
      ensures this.pollInterval == pollInterval && cyclesPerInterval == CyclesPerInterval(speed, pollInterval)
      ensures oldCycles == 0 && intervalCycles == 0 && jiffies == 0 && events == []
    {
      var bus := new Memory(MemorySize);
      memory := bus;
      cpu := new MOS6502(level, bus);
      this.pollInterval := pollInterval;
      cyclesPerInterval := speed * 1000 * pollInterval;
      oldCycles, intervalCycles, jiffies := 0, 0, 0;
      events := [];
    }

    /** Initialise: the processor's Initialise, then every lock cleared and every cell zeroed. */
    method Initialise()
      requires Valid()
      modifies cpu`pc, cpu`a, cpu`x, cpu`y, cpu`s, cpu`p, cpu`cycles, memory`cells, memory`locked
      ensures Valid()
      ensures cpu.cycles == 0 && cpu.pc == 0 && cpu.Regs() == Registers(0, 0x80, 0, 0xff) && cpu.Status() == PowerOnStatus
      ensures memory.cells == Filled(MemorySize, 0) && memory.locked == Filled(MemorySize, false)
    {
      cpu.Initialise();
      memory.ClearLocking();
      memory.ClearMemory();
    }

    /** Run: Starting is dispatched and its handler records the start time. */
    method Run(now: int)
      modifies this`startTime, this`events
      ensures startTime == now && events == old(events) + [Starting]
    {
      events := events + [Starting];
      startTime := now;
    }

    /**
     * Execute: the cycle count is recorded, the instruction is announced at
     * the address of its opcode, the processor executes it and, unless that
     * fails, it is announced again as executed. `stop` is the decision of the
     * listeners to the executing notification: when it holds they clear
     * Proceed, after the announcement and before the instruction runs, which
     * still runs to its end.
     */
    method Execute(cell: int, stop: bool) returns (o: Outcome<Fault>)
      requires Valid()
      modifies cpu`pc, cpu`a, cpu`x, cpu`y, cpu`s, cpu`p, cpu`cycles, cpu`proceed, cpu.p, memory`cells, memory`events
      modifies this`oldCycles, this`events
      ensures Valid() && (cpu.p == old(cpu.p) || fresh(cpu.p))
      ensures Executed(cpu.level, memory.locked, cell, old(cpu.Snapshot()), o, cpu.Snapshot())
      ensures cpu.proceed == (old(cpu.proceed) && !stop)
      ensures oldCycles == old(cpu.cycles)
      ensures o.Pass? ==> cpu.cycles > oldCycles
      ensures o.Pass? ==> events == old(events) + [ExecutingInstruction(old(cpu.pc) - 1, cell), ExecutedInstruction(old(cpu.pc) - 1, cell)]
      ensures o.Fail? ==> events == old(events) + [ExecutingInstruction(old(cpu.pc) - 1, cell)]
    {
      var executingAddress := cpu.pc - 1;
      oldCycles := cpu.cycles;
      events := events + [ExecutingInstruction(executingAddress, cell)];
      if stop {
        cpu.proceed := false;
      }
      o := cpu.Execute(cell);
      if o.Fail? {
        return;
      }
      events := events + [ExecutedInstruction(executingAddress, cell)];
      return Pass;
    }

    /** Step: the opcode at PC is fetched and executed through the bracketing Execute. */
    method Step(stop: bool) returns (o: Outcome<Fault>)
      requires Valid()
      modifies cpu`pc, cpu`a, cpu`x, cpu`y, cpu`s, cpu`p, cpu`cycles, cpu`proceed, cpu.p, memory`cells, memory`events
      modifies this`oldCycles, this`events
      ensures Valid() && (cpu.p == old(cpu.p) || fresh(cpu.p))
      ensures Stepped(cpu.level, memory.locked, old(cpu.Snapshot()), o, cpu.Snapshot())
      ensures o.Pass? ==> cpu.proceed == (old(cpu.proceed) && !stop)
      ensures o.Pass? ==> oldCycles == old(cpu.cycles) && cpu.cycles > old(cpu.cycles)
      ensures |old(events)| <= |events| && events[..|old(events)|] == old(events)
      ensures o.Pass? ==> old(cpu.pc) in old(memory.cells)
      ensures o.Pass? ==>
        var cell := old(memory.cells)[old(cpu.pc)];
        events == old(events) + [ExecutingInstruction(old(cpu.pc), cell), ExecutedInstruction(old(cpu.pc), cell)]
    {
      ghost var m := cpu.Snapshot();
      var cell :- cpu.FetchByte();
      o := Execute(cell, stop);
      FetchThenExecute(cpu.level, memory.locked, m, o, cpu.Snapshot());
    }

    /**
     * One turn of the burst: a step, whose cycles are then added to the
     * interval's count. What the step does to the machine is stated by Step.
     */
    method StepAndCount(stop: bool) returns (o: Outcome<Fault>)
      requires Valid()
      modifies cpu`pc, cpu`a, cpu`x, cpu`y, cpu`s, cpu`p, cpu`cycles, cpu`proceed, cpu.p, memory`cells, memory`events
      modifies this`oldCycles, this`events, this`intervalCycles
      ensures Valid() && (cpu.p == old(cpu.p) || fresh(cpu.p))
      ensures |old(events)| <= |events| && events[..|old(events)|] == old(events)
      ensures o.Pass? ==>
        old(cpu.pc) in old(memory.cells)
        && cpu.proceed == (old(cpu.proceed) && !stop)
        && cpu.cycles > old(cpu.cycles)
        && intervalCycles - old(intervalCycles) == cpu.cycles - old(cpu.cycles)
        && var cell := old(memory.cells)[old(cpu.pc)];
           events == old(events) + [ExecutingInstruction(old(cpu.pc), cell), ExecutedInstruction(old(cpu.pc), cell)]
    {
      o := Step(stop);
      if o.Pass? {
        intervalCycles := intervalCycles + (cpu.cycles - oldCycles);
      }
    }

    /** The start of a poll: one more jiffy, and the budget for the time now. */
    method Budget(now: int) returns (allowedCycles: int)
      modifies this`jiffies
      ensures jiffies == old(jiffies) + 1
      ensures allowedCycles == AllowedCycles(cyclesPerInterval, pollInterval, old(jiffies), now - startTime)
    {
      var calculatedElapsed := pollInterval * jiffies;
      jiffies := jiffies + 1;
      var actualElapsed := now - startTime;
      allowedCycles := cyclesPerInterval;
      if actualElapsed > calculatedElapsed {
        var difference := actualElapsed - calculatedElapsed;
        var missedJiffies := if pollInterval == 0 then 0 else ToInt32(difference / pollInterval);
        allowedCycles := allowedCycles + missedJiffies * cyclesPerInterval;
      }
    }

    /**
     * The burst of a poll: steps while the processor may proceed and the
     * interval's cycles are below the budget. Every cycle the steps run is
     * added to the interval's count, and every step is bracketed. The
     * listeners' decision at the k-th step of the burst is StopAt(stops, k);
     * `steps` is the number of steps run. The burst ends with the first step
     * at which the listeners stop the processor.
     */
    method Burst(allowedCycles: int, stops: seq<bool>) returns (o: Outcome<Fault>, steps: nat)
      requires Valid()
      modifies cpu`pc, cpu`a, cpu`x, cpu`y, cpu`s, cpu`p, cpu`cycles, cpu`proceed, cpu.p, memory`cells, memory`events
      modifies this`oldCycles, this`events, this`intervalCycles
      ensures Valid()
      ensures |old(events)| <= |events| && events[..|old(events)|] == old(events)
      ensures forall k :: 0 <= k < steps - 1 ==> !StopAt(stops, k)
      ensures o.Pass? ==>
        intervalCycles - old(intervalCycles) == cpu.cycles - old(cpu.cycles)
        && cpu.proceed == (old(cpu.proceed) && (steps == 0 || !StopAt(stops, steps - 1)))
        && (cpu.proceed ==> intervalCycles >= allowedCycles)
        && (steps == 0 <==> !old(cpu.proceed) || old(intervalCycles) >= allowedCycles)
        && (steps == 0 ==> cpu.cycles == old(cpu.cycles))
        && |events| == |old(events)| + 2 * steps && Bracketed(events[|old(events)|..])
    {
      o, steps := Pass, 0;
      while cpu.proceed && intervalCycles < allowedCycles
        invariant Valid()
        invariant cpu.p == old(cpu.p) || fresh(cpu.p)
        invariant intervalCycles - old(intervalCycles) == cpu.cycles - old(cpu.cycles)
        invariant cpu.cycles >= old(cpu.cycles)
        invariant forall k :: 0 <= k < steps - 1 ==> !StopAt(stops, k)
        invariant cpu.proceed == (old(cpu.proceed) && (steps == 0 || !StopAt(stops, steps - 1)))
        invariant steps == 0 ==> cpu.cycles == old(cpu.cycles)
        invariant steps > 0 ==> old(cpu.proceed) && old(intervalCycles) < allowedCycles
        invariant |old(events)| <= |events| && events[..|old(events)|] == old(events)
        invariant |events| == |old(events)| + 2 * steps && Bracketed(events[|old(events)|..])
        decreases allowedCycles - intervalCycles
      {
        ghost var before, address, cells := events, cpu.pc, memory.cells;
        o := StepAndCount(StopAt(stops, steps));
        if o.Fail? {
          return;
        }
        steps := steps + 1;
        var pair := [ExecutingInstruction(address, cells[address]), ExecutedInstruction(address, cells[address])];
        assert events[|old(events)|..] == before[|old(events)|..] + pair;
        BracketedAppend(before[|old(events)|..], address, cells[address]);
      }
    }

    /**
     * Poll: one more jiffy; a burst of steps while the processor may proceed
     * and the interval's cycles are below the budget; the budget of one
     * interval taken off the count, so that an overshoot carries into the
     * next poll; and Finished, once, with the finish time, when the processor
     * may not proceed. A step that fails ends the poll with its fault.
     */
    method Poll(now: int, stops: seq<bool>) returns (o: Outcome<Fault>, steps: nat)
      requires Valid()
      modifies cpu`pc, cpu`a, cpu`x, cpu`y, cpu`s, cpu`p, cpu`cycles, cpu`proceed, cpu.p, memory`cells, memory`events
      modifies this`oldCycles, this`events, this`jiffies, this`intervalCycles, this`finishTime
      ensures Valid()
      ensures jiffies == old(jiffies) + 1
      ensures forall k :: 0 <= k < steps - 1 ==> !StopAt(stops, k)
      ensures o.Pass? ==>
        var allowed := AllowedCycles(cyclesPerInterval, pollInterval, old(jiffies), now - startTime);
        var fin := if cpu.proceed then [] else [Finished];
        intervalCycles + cyclesPerInterval - old(intervalCycles) == cpu.cycles - old(cpu.cycles)
        && cpu.proceed == (old(cpu.proceed) && (steps == 0 || !StopAt(stops, steps - 1)))
        && (cpu.proceed ==> intervalCycles + cyclesPerInterval >= allowed)
        && (steps == 0 <==> !old(cpu.proceed) || old(intervalCycles) >= allowed)
        && (steps == 0 ==> cpu.cycles == old(cpu.cycles))
        && |events| == |old(events)| + 2 * steps + |fin| && events[..|old(events)|] == old(events)
        && Bracketed(events[|old(events)|..|events| - |fin|]) && events[|events| - |fin|..] == fin
        && (!cpu.proceed ==> finishTime == now)
    {
      var allowedCycles := Budget(now);
      o, steps := Burst(allowedCycles, stops);
      if o.Fail? {
        return;
      }
      intervalCycles := intervalCycles - cyclesPerInterval;
      ghost var burst := events[|old(events)|..];
      assert events == old(events) + burst;
      if !cpu.proceed {
        events := events + [Finished];
        finishTime := now;
      }
      assert events[|old(events)|..|events| - (if cpu.proceed then 0 else 1)] == burst;
    }
  }
}
