/**
 * The profiler: it counts how often each opcode and each address executes,
 * how many cycles each address and each labelled scope spends, and writes
 * the profile out as a sequence of events. The processor's cycle counter is
 * handed to the handlers as a parameter, and the profile's output events are
 * returned in order instead of being emitted.
 */
module Profiling {
  import opened Wrappers
  import opened Numerals
  import opened JsObjects
  import opened Disassembly
  import SymbolFile

  /** The profiler's output, in the order it is written. */
  datatype Event =
    | StartingOutput
    | StartingLineOutput
    | EmitLine(source: Option<string>, cycles: int)
    | FinishedLineOutput
    | StartingScopeOutput
    | EmitScope(name: string, cycles: int, count: Option<int>)
    | FinishedScopeOutput
    | FinishedOutput

  /** The property key under which an object stores a numeric key: its decimal text, or "NaN". */
  function KeyString(n: JsNumber): string {
    if n.Number? then ToBase(n.value, 10) else "NaN"
  }

  /** Reading a numeric key back from its property key with parseInt gives the number again. */
  lemma KeyStringReadsBack(n: JsNumber)
    ensures ParseInt(KeyString(n), 10) == n
  {
    if n.Number? {
      ParseIntToBase(n.value, 10);
    } else {
      assert DigitRun("NaN", 10) == 0;
    }
  }

  /** Every key of the order has a label. */
  predicate Listed(order: seq<JsNumber>, labels: map<JsNumber, string>) {
    forall i :: 0 <= i < |order| ==> order[i] in labels
  }

  /** The enumeration of listed keys visits only listed keys. */
  lemma EnumerateListed(order: seq<JsNumber>, labels: map<JsNumber, string>)
    requires Listed(order, labels)
    ensures Listed(Enumerate(order, KeyString), labels)
  {
    var keys := Enumerate(order, KeyString);
    EnumerateOrder(order, KeyString);
    forall i | 0 <= i < |keys|
      ensures keys[i] in labels
    {
      assert keys[i] in multiset(order);
    }
  }

  /** The labelled values in the order `for ... in` visits the keys of the labels. */
  function LabelKeys(order: seq<JsNumber>, labels: map<JsNumber, string>): (keys: seq<JsNumber>)
    requires Listed(order, labels)
    ensures Listed(keys, labels)
  {
    EnumerateListed(order, labels);
    Enumerate(order, KeyString)
  }

  /**
   * The label at `start` covers the address: its name has a scope size, and
   * the address lies in the size's run of addresses from the start.
   */
  predicate Covers(start: JsNumber, name: string, scopes: map<string, JsNumber>, address: int) {
    name in scopes && start.Number? && scopes[name].Number?
    && start.value <= address < start.value + scopes[name].value
  }

  /** The scope of an address after the labels in `keys` fill theirs in turn: the name of the last label that covers it. */
  function ScopeAt(keys: seq<JsNumber>, labels: map<JsNumber, string>, scopes: map<string, JsNumber>, address: int): Option<string>
    requires Listed(keys, labels)
  {
    if |keys| == 0 then None
    else
      var start := keys[|keys| - 1];
      if Covers(start, labels[start], scopes, address) then Some(labels[start])
      else ScopeAt(keys[..|keys| - 1], labels, scopes, address)
  }

  /**
   * An address has a scope exactly when some label covers it, and its scope
   * is the name of the last such label; a later label overrides the scope
   * of an earlier one where their runs overlap.
   */
  lemma {:induction false} ScopeAtLastCover(keys: seq<JsNumber>, labels: map<JsNumber, string>, scopes: map<string, JsNumber>, address: int)
    requires Listed(keys, labels)
    ensures ScopeAt(keys, labels, scopes, address).None? <==>
      forall j :: 0 <= j < |keys| ==> !Covers(keys[j], labels[keys[j]], scopes, address)
    ensures ScopeAt(keys, labels, scopes, address).Some? ==>
      exists j :: 0 <= j < |keys| && Covers(keys[j], labels[keys[j]], scopes, address)
        && ScopeAt(keys, labels, scopes, address).value == labels[keys[j]]
        && forall l :: j < l < |keys| ==> !Covers(keys[l], labels[keys[l]], scopes, address)
    decreases |keys|
  {
    if |keys| > 0 {
      var prefix, start := keys[..|keys| - 1], keys[|keys| - 1];
      assert Listed(prefix, labels) by {
        assert forall j :: 0 <= j < |prefix| ==> prefix[j] == keys[j];
      }
      ScopeAtLastCover(prefix, labels, scopes, address);
      assert forall j :: 0 <= j < |prefix| ==> prefix[j] == keys[j];
      if !Covers(start, labels[start], scopes, address) && ScopeAt(prefix, labels, scopes, address).Some? {
        var j :| 0 <= j < |prefix| && Covers(prefix[j], labels[prefix[j]], scopes, address)
          && ScopeAt(prefix, labels, scopes, address).value == labels[prefix[j]]
          && forall l :: j < l < |prefix| ==> !Covers(prefix[l], labels[prefix[l]], scopes, address);
        assert keys[j] == prefix[j];
      }
    }
  }

  /** Filling one more label's run of addresses. */
  lemma ScopeAtNext(keys: seq<JsNumber>, k: int, labels: map<JsNumber, string>, scopes: map<string, JsNumber>, address: int)
    requires Listed(keys, labels) && 0 <= k < |keys|
    ensures Listed(keys[..k], labels) && Listed(keys[..k + 1], labels)
    ensures ScopeAt(keys[..k + 1], labels, scopes, address) ==
      if Covers(keys[k], labels[keys[k]], scopes, address) then Some(labels[keys[k]])
      else ScopeAt(keys[..k], labels, scopes, address)
  {
    assert keys[..k + 1][..k] == keys[..k];
  }

  /** The addresses below n whose profile holds cycles, in ascending order. */
  function PositiveAddresses(profiles: seq<int>, n: nat): (addresses: seq<int>)
    requires n <= |profiles|
    ensures forall j :: 0 <= j < |addresses| ==> 0 <= addresses[j] < n
  {
    if n == 0 then []
    else PositiveAddresses(profiles, n - 1) + (if profiles[n - 1] > 0 then [n - 1] else [])
  }

  /** Exactly the addresses below n with cycles are listed, each once and in ascending order. */
  lemma {:induction false} PositiveAddressesExactly(profiles: seq<int>, n: nat)
    requires n <= |profiles|
    ensures forall a :: a in PositiveAddresses(profiles, n) <==> 0 <= a < n && profiles[a] > 0
    ensures forall i, j :: 0 <= i < j < |PositiveAddresses(profiles, n)| ==>
      PositiveAddresses(profiles, n)[i] < PositiveAddresses(profiles, n)[j]
    decreases n
  {
    if n > 0 {
      PositiveAddressesExactly(profiles, n - 1);
    }
  }

  /** The line of one address: its disassembly and its cycles. */
  function LineOf(d: Disassembler, profiles: seq<int>, address: int): Event
    requires 0 <= address < |profiles|
  {
    EmitLine(d.Disassemble(address), profiles[address])
  }

  /** The lines of the profile: one for each address with cycles, in ascending address order. */
  function Lines(d: Disassembler, profiles: seq<int>): (lines: seq<Event>)
    requires |profiles| == 0x10000
    ensures |lines| == |PositiveAddresses(profiles, 0x10000)|
  {
    var addresses := PositiveAddresses(profiles, 0x10000);
    seq(|addresses|, j requires 0 <= j < |addresses| => LineOf(d, profiles, addresses[j]))
  }

  /**
   * A line is written for an address exactly when the address spent cycles,
   * the lines follow ascending addresses, and each shows its address's
   * disassembly and cycles.
   */
  lemma LinesExactly(d: Disassembler, profiles: seq<int>, address: int)
    requires |profiles| == 0x10000
    ensures (exists j :: 0 <= j < |Lines(d, profiles)| && PositiveAddresses(profiles, 0x10000)[j] == address)
            <==> 0 <= address < 0x10000 && profiles[address] > 0
    ensures forall j :: 0 <= j < |Lines(d, profiles)| ==>
      Lines(d, profiles)[j] == LineOf(d, profiles, PositiveAddresses(profiles, 0x10000)[j])
    ensures forall i, j :: 0 <= i < j < |Lines(d, profiles)| ==>
      PositiveAddresses(profiles, 0x10000)[i] < PositiveAddresses(profiles, 0x10000)[j]
  {
    PositiveAddressesExactly(profiles, 0x10000);
    var addresses := PositiveAddresses(profiles, 0x10000);
    var lines := Lines(d, profiles);
    assert forall j :: 0 <= j < |lines| ==> lines[j] == LineOf(d, profiles, addresses[j]);
    if 0 <= address < 0x10000 && profiles[address] > 0 {
      var j :| 0 <= j < |addresses| && addresses[j] == address;
      assert 0 <= j < |Lines(d, profiles)| && PositiveAddresses(profiles, 0x10000)[j] == address;
    } else {
      forall j | 0 <= j < |addresses|
        ensures addresses[j] != address
      {
        assert addresses[j] in addresses;
      }
    }
  }

  /** The execution count of a scope: the count of the address its name labels, undefined (None) without one. */
  function ScopeCount(counts: seq<int>, addresses: map<string, JsNumber>, name: string): Option<int> {
    if name in addresses && addresses[name].Number? && 0 <= addresses[name].value < |counts|
    then Some(counts[addresses[name].value])
    else None
  }

  /** The order in which `for ... in` visits the scopes that spent cycles. */
  function ScopeNames(scopeOrder: seq<string>): seq<string> {
    Enumerate(scopeOrder, Id)
  }

  /** The scopes that the order lists all spent cycles, and so do the names the enumeration visits. */
  lemma ScopeNamesListed(scopeCycles: map<string, int>, scopeOrder: seq<string>)
    requires forall name :: name in scopeOrder ==> name in scopeCycles
    ensures forall j :: 0 <= j < |ScopeNames(scopeOrder)| ==> ScopeNames(scopeOrder)[j] in scopeCycles
  {
    var names := ScopeNames(scopeOrder);
    EnumerateOrder(scopeOrder, Id);
    forall j | 0 <= j < |names|
      ensures names[j] in scopeCycles
    {
      assert names[j] in multiset(scopeOrder);
    }
  }

  /** The line of one scope: its cycles and the execution count of its label. */
  function ScopeLine(scopeCycles: map<string, int>, counts: seq<int>, addresses: map<string, JsNumber>, name: string): Event
    requires name in scopeCycles
  {
    EmitScope(name, scopeCycles[name], ScopeCount(counts, addresses, name))
  }

  /** The scope lines: one per scope that spent cycles, in the order the enumeration visits them. */
  function ScopeLines(scopeCycles: map<string, int>, scopeOrder: seq<string>, counts: seq<int>,
                      addresses: map<string, JsNumber>): (lines: seq<Event>)
    requires forall name :: name in scopeOrder ==> name in scopeCycles
    ensures |lines| == |ScopeNames(scopeOrder)|
  {
    var names := ScopeNames(scopeOrder);
    ScopeNamesListed(scopeCycles, scopeOrder);
    seq(|names|, j requires 0 <= j < |names| => ScopeLine(scopeCycles, counts, addresses, names[j]))
  }

  /**
   * The enumeration visits each scope that spent cycles exactly once and no
   * other name, so each such scope has exactly one scope line, which shows
   * its cycles and its label's execution count.
   */
  lemma ScopeLinesOnce(scopeCycles: map<string, int>, scopeOrder: seq<string>, counts: seq<int>,
                       addresses: map<string, JsNumber>, name: string)
    requires forall n :: n in scopeOrder <==> n in scopeCycles
    requires forall i, j :: 0 <= i < j < |scopeOrder| ==> scopeOrder[i] != scopeOrder[j]
    ensures multiset(ScopeNames(scopeOrder))[name] == if name in scopeCycles then 1 else 0
    ensures forall j :: 0 <= j < |ScopeNames(scopeOrder)| ==>
      ScopeNames(scopeOrder)[j] in scopeCycles
      && ScopeLines(scopeCycles, scopeOrder, counts, addresses)[j]
         == ScopeLine(scopeCycles, counts, addresses, ScopeNames(scopeOrder)[j])
  {
    EnumerateOrder(scopeOrder, Id);
    ScopeNamesListed(scopeCycles, scopeOrder);
    DistinctOnce(scopeOrder, name);
  }

  /** A sequence without repeats holds each of its elements once. */
  lemma {:induction false} DistinctOnce(s: seq<string>, x: string)
    requires forall i, j :: 0 <= i < j < |s| ==> s[i] != s[j]
    ensures multiset(s)[x] == if x in s then 1 else 0
    decreases |s|
  {
    if |s| > 0 {
      var rest := s[1..];
      assert s == [s[0]] + rest;
      DistinctOnce(rest, x);
      if x == s[0] {
        assert x !in rest by {
          forall i | 0 <= i < |rest|
            ensures rest[i] != x
          {
            assert rest[i] == s[i + 1];
          }
        }
      }
    }
  }

  /** The profile of a run of the processor. */
  class Profiler {
    /** The disassembler of the lines of the profile. */
    const disassembler: Disassembler
    /** The symbol tables the profiler reads: labels and their order, scope sizes, label addresses. */
    const labels: map<JsNumber, string>
    const labelOrder: seq<JsNumber>
    const scopes: map<string, JsNumber>
    const addresses: map<string, JsNumber>
    const countInstructions: bool
    const profileAddresses: bool
    /** The executing-instruction handler listens to the processor. */
    const executingAttached: bool
    /** The executed-instruction handler listens to the processor. */
    const executedAttached: bool
    /** Executions of each opcode. */
    const instructionCounts: array<int>
    /** Cycles spent at each address. */
    const addressProfiles: array<int>
    /** Executions at each address. */
    const addressCounts: array<int>
    /** The scope each address belongs to, if any. */
    const addressScopes: array<Option<string>>
    /** Cycles spent in each scope, and the order in which the scopes first spent some. */
    var scopeCycles: map<string, int>
    var scopeOrder: seq<string>
    /** The processor's cycle count when the current instruction started. */
    var priorCycleCount: int

    /** The tables have their sizes, and the scope order lists each scope with cycles once. */
    ghost predicate Valid()
      reads this
    {
      instructionCounts.Length == 0x100 && addressProfiles.Length == 0x10000
      && addressCounts.Length == 0x10000 && addressScopes.Length == 0x10000
      && addressProfiles != addressCounts
      && executingAttached == (countInstructions || profileAddresses) && executedAttached == profileAddresses
      && Listed(labelOrder, labels)
      && (forall name :: name in scopeOrder <==> name in scopeCycles)
      && (forall i, j :: 0 <= i < j < |scopeOrder| ==> scopeOrder[i] != scopeOrder[j])
    }

    /**
     * A profiler over the symbol tables: both handlers listen when counting
     * or profiling is on, the executed-instruction one only when profiling;
     * every count and profile starts at zero, and every address is given
     * the scope of the last label covering it.
     */
    constructor (d: Disassembler, symbols: SymbolFile.Symbols, countInstructions: bool, profileAddresses: bool)
      requires Listed(symbols.labelOrder, symbols.labels)
      ensures Valid()
      ensures disassembler == d && labels == symbols.labels && labelOrder == symbols.labelOrder
      ensures scopes == symbols.scopes && addresses == symbols.addresses
      ensures this.countInstructions == countInstructions && this.profileAddresses == profileAddresses
      ensures executingAttached == (countInstructions || profileAddresses) && executedAttached == profileAddresses
      ensures forall c :: 0 <= c < 0x100 ==> instructionCounts[c] == 0
      ensures forall a :: 0 <= a < 0x10000 ==> addressProfiles[a] == 0 && addressCounts[a] == 0
      ensures forall a :: 0 <= a < 0x10000 ==>
        addressScopes[a] == ScopeAt(LabelKeys(labelOrder, labels), labels, scopes, a)
      ensures scopeCycles == map[] && scopeOrder == [] && priorCycleCount == 0
      ensures fresh(instructionCounts) && fresh(addressProfiles) && fresh(addressCounts) && fresh(addressScopes)
    {
      disassembler := d;
      labels := symbols.labels;
      labelOrder := symbols.labelOrder;
      scopes := symbols.scopes;
      addresses := symbols.addresses;
      this.countInstructions := countInstructions;
      this.profileAddresses := profileAddresses;
      executingAttached := countInstructions || profileAddresses;
      executedAttached := profileAddresses;
      instructionCounts := new int[0x100];
      addressProfiles := new int[0x10000];
      addressCounts := new int[0x10000];
      addressScopes := new Option<string>[0x10000](_ => None);
      scopeCycles := map[];
      scopeOrder := [];
      priorCycleCount := 0;
      new;
      var i := 0;
      while i < 0x100
        invariant 0 <= i <= 0x100
        invariant forall c :: 0 <= c < i ==> instructionCounts[c] == 0
        invariant forall a :: 0 <= a < 0x10000 ==> addressScopes[a].None?
        invariant scopeCycles == map[] && scopeOrder == [] && priorCycleCount == 0
      {
        instructionCounts[i] := 0;
        i := i + 1;
      }
      i := 0;
      while i < 0x10000
        invariant 0 <= i <= 0x10000
        invariant forall a :: 0 <= a < i ==> addressProfiles[a] == 0 && addressCounts[a] == 0
        invariant forall c :: 0 <= c < 0x100 ==> instructionCounts[c] == 0
        invariant forall a :: 0 <= a < 0x10000 ==> addressScopes[a].None?
        invariant scopeCycles == map[] && scopeOrder == [] && priorCycleCount == 0
      {
        addressProfiles[i] := 0;
        addressCounts[i] := 0;
        i := i + 1;
      }
      BuildAddressScopes();
    }

    /**
     * Gives every address the scope of the last label, in the order
     * `for ... in` visits the labels, whose scope size covers it; the
     * addresses no label covers keep no scope.
     */
    method BuildAddressScopes()
      requires Valid()
      requires forall a :: 0 <= a < 0x10000 ==> addressScopes[a].None?
      modifies addressScopes
      ensures forall a :: 0 <= a < 0x10000 ==>
        addressScopes[a] == ScopeAt(LabelKeys(labelOrder, labels), labels, scopes, a)
    {
      var keys := LabelKeys(labelOrder, labels);
      var k := 0;
      assert keys[..0] == [];
      while k < |keys|
        invariant 0 <= k <= |keys|
        invariant Listed(keys[..k], labels)
        invariant forall a :: 0 <= a < 0x10000 ==> addressScopes[a] == ScopeAt(keys[..k], labels, scopes, a)
      {
        FillLabel(keys, k);
        k := k + 1;
      }
      assert keys[..k] == keys;
    }

    /** One turn of the loop of BuildAddressScopes: the label keys[k] gives its name to the run of addresses its scope covers. */
    method FillLabel(keys: seq<JsNumber>, k: int)
      requires Valid() && Listed(keys, labels) && 0 <= k < |keys| && Listed(keys[..k], labels)
      requires forall a :: 0 <= a < 0x10000 ==> addressScopes[a] == ScopeAt(keys[..k], labels, scopes, a)
      modifies addressScopes
      ensures Listed(keys[..k + 1], labels)
      ensures forall a :: 0 <= a < 0x10000 ==> addressScopes[a] == ScopeAt(keys[..k + 1], labels, scopes, a)
    {
      var address := keys[k];
      var key := labels[address];
      if key in scopes {
        var scope := scopes[key];
        var addressInteger := ParseInt(KeyString(address), 10);
        KeyStringReadsBack(address);
        if addressInteger.Number? && scope.Number? {
          var start, size := addressInteger.value, scope.value;
          var i := start;
          while i < start + size
            invariant start <= i && (i <= start + size || i == start)
            invariant forall a :: 0 <= a < 0x10000 ==>
              addressScopes[a] == if start <= a < i then Some(key) else ScopeAt(keys[..k], labels, scopes, a)
            decreases start + size - i
          {
            if 0 <= i < 0x10000 {
              addressScopes[i] := Some(key);
            }
            i := i + 1;
          }
        }
      }
      forall a | 0 <= a < 0x10000
        ensures addressScopes[a] == ScopeAt(keys[..k + 1], labels, scopes, a)
      {
        ScopeAtNext(keys, k, labels, scopes, a);
      }
    }

    /**
     * The processor starts the instruction at `address` whose opcode is
     * `cell`, with its cycle counter at `cycles`: when profiling, the count
     * of the address goes up by one and the cycle count is remembered; when
     * counting, the count of the opcode goes up by one.
     */
    method ExecutingInstruction(address: int, cell: int, cycles: int)
      requires Valid() && 0 <= address < 0x10000 && 0 <= cell < 0x100
      modifies `priorCycleCount, addressCounts, instructionCounts
      ensures priorCycleCount == if profileAddresses then cycles else old(priorCycleCount)
      ensures forall a :: 0 <= a < 0x10000 ==>
        addressCounts[a] == old(addressCounts[a]) + if profileAddresses && a == address then 1 else 0
      ensures forall c :: 0 <= c < 0x100 ==>
        instructionCounts[c] == old(instructionCounts[c]) + if countInstructions && c == cell then 1 else 0
    {
      if profileAddresses {
        priorCycleCount := cycles;
        addressCounts[address] := addressCounts[address] + 1;
      }
      if countInstructions {
        instructionCounts[cell] := instructionCounts[cell] + 1;
      }
    }

    /**
     * The processor finished the instruction at `address`, with its cycle
     * counter at `cycles`: when profiling, the cycles since the instruction
     * started are added to the address and, if the address has a scope, to
     * the scope, which starts from zero the first time.
     */
    method ExecutedInstruction(address: int, cell: int, cycles: int)
      requires Valid() && 0 <= address < 0x10000
      modifies `scopeCycles, `scopeOrder, addressProfiles
      ensures Valid()
      ensures var spent := if profileAddresses then cycles - priorCycleCount else 0;
        forall a :: 0 <= a < 0x10000 ==>
          addressProfiles[a] == old(addressProfiles[a]) + if a == address then spent else 0
      ensures !profileAddresses || addressScopes[address].None? ==>
        scopeCycles == old(scopeCycles) && scopeOrder == old(scopeOrder)
      ensures profileAddresses && addressScopes[address].Some? ==>
        var scope, spent := addressScopes[address].value, cycles - priorCycleCount;
        scopeCycles == old(scopeCycles)[scope := (if scope in old(scopeCycles) then old(scopeCycles)[scope] else 0) + spent]
        && scopeOrder == if scope in old(scopeCycles) then old(scopeOrder) else old(scopeOrder) + [scope]
    {
      if profileAddresses {
        var spent := cycles - priorCycleCount;
        addressProfiles[address] := addressProfiles[address] + spent;
        var addressScope := addressScopes[address];
        if addressScope.Some? {
          var scope := addressScope.value;
          if scope !in scopeCycles {
            scopeCycles := scopeCycles[scope := 0];
            scopeOrder := scopeOrder + [scope];
          }
          scopeCycles := scopeCycles[scope := scopeCycles[scope] + spent];
        }
      }
    }

    /**
     * The processor's executing-instruction event, which reaches the
     * handler only when it listens: when counting or profiling is on.
     */
    method OnExecutingInstruction(address: int, cell: int, cycles: int)
      requires Valid() && 0 <= address < 0x10000 && 0 <= cell < 0x100
      modifies `priorCycleCount, addressCounts, instructionCounts
      ensures priorCycleCount == if executingAttached && profileAddresses then cycles else old(priorCycleCount)
      ensures forall a :: 0 <= a < 0x10000 ==>
        addressCounts[a] == old(addressCounts[a]) + if executingAttached && profileAddresses && a == address then 1 else 0
      ensures forall c :: 0 <= c < 0x100 ==>
        instructionCounts[c] == old(instructionCounts[c]) + if executingAttached && countInstructions && c == cell then 1 else 0
    {
      if executingAttached {
        ExecutingInstruction(address, cell, cycles);
      }
    }

    /**
     * The processor's executed-instruction event, which reaches the handler
     * only when it listens: when profiling is on.
     */
    method OnExecutedInstruction(address: int, cell: int, cycles: int)
      requires Valid() && 0 <= address < 0x10000
      modifies `scopeCycles, `scopeOrder, addressProfiles
      ensures Valid()
      ensures !executedAttached ==>
        addressProfiles[..] == old(addressProfiles[..]) && scopeCycles == old(scopeCycles) && scopeOrder == old(scopeOrder)
      ensures executedAttached ==> forall a :: 0 <= a < 0x10000 ==>
        addressProfiles[a] == old(addressProfiles[a]) + if a == address then cycles - priorCycleCount else 0
      ensures executedAttached && (!profileAddresses || addressScopes[address].None?) ==>
        scopeCycles == old(scopeCycles) && scopeOrder == old(scopeOrder)
      ensures executedAttached && profileAddresses && addressScopes[address].Some? ==>
        var scope, spent := addressScopes[address].value, cycles - priorCycleCount;
        scopeCycles == old(scopeCycles)[scope := (if scope in old(scopeCycles) then old(scopeCycles)[scope] else 0) + spent]
        && scopeOrder == if scope in old(scopeCycles) then old(scopeOrder) else old(scopeOrder) + [scope]
    {
      if executedAttached {
        ExecutedInstruction(address, cell, cycles);
      }
    }

    /** The profile lines: each address with cycles, in ascending order, with its disassembly. */
    method EmitLines() returns (lines: seq<Event>)
      requires Valid()
      ensures lines == Lines(disassembler, addressProfiles[..])
    {
      ghost var profiles := addressProfiles[..];
      lines := [];
      var i := 0;
      while i < 0x10000
        invariant 0 <= i <= 0x10000
        invariant |lines| == |PositiveAddresses(profiles, i)|
        invariant forall j :: 0 <= j < |lines| ==>
          PositiveAddresses(profiles, i)[j] < i && lines[j] == LineOf(disassembler, profiles, PositiveAddresses(profiles, i)[j])
      {
        var cycles := addressProfiles[i];
        if cycles > 0 {
          var source := disassembler.Disassemble(i);
          lines := lines + [EmitLine(source, cycles)];
        }
        i := i + 1;
      }
    }

    /** The scope lines: each scope with cycles, in the order `for ... in` visits them. */
    method EmitScopes() returns (lines: seq<Event>)
      requires Valid()
      ensures lines == ScopeLines(scopeCycles, scopeOrder, addressCounts[..], addresses)
    {
      var names := Enumerate(scopeOrder, Id);
      ScopeNamesListed(scopeCycles, scopeOrder);
      ghost var expected := ScopeLines(scopeCycles, scopeOrder, addressCounts[..], addresses);
      lines := [];
      var j := 0;
      while j < |names|
        invariant 0 <= j <= |names| && |expected| == |names|
        invariant |lines| == j && forall l :: 0 <= l < j ==> lines[l] == expected[l]
      {
        var name := names[j];
        var cycles := scopeCycles[name];
        var count := None;
        if name in addresses && addresses[name].Number? && 0 <= addresses[name].value < 0x10000 {
          count := Some(addressCounts[addresses[name].value]);
        }
        lines := lines + [EmitScope(name, cycles, count)];
        j := j + 1;
      }
    }

    /** The whole profile: the lines between their markers, then the scope lines between theirs. */
    method Generate() returns (events: seq<Event>)
      requires Valid()
      ensures events ==
        [StartingOutput, StartingLineOutput] + Lines(disassembler, addressProfiles[..])
        + [FinishedLineOutput, StartingScopeOutput]
        + ScopeLines(scopeCycles, scopeOrder, addressCounts[..], addresses)
        + [FinishedScopeOutput, FinishedOutput]
    {
      var lines := EmitLines();
      var scopeLines := EmitScopes();
      events := [StartingOutput, StartingLineOutput] + lines + [FinishedLineOutput, StartingScopeOutput]
        + scopeLines + [FinishedScopeOutput, FinishedOutput];
    }
  }
}
