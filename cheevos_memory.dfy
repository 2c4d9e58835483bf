/**
 * Where an operand's address points and what reading it yields.  A guest
 * address from an achievement definition is resolved once, at load time,
 * into a bank (a memory descriptor of the core, or one of the four memory
 * regions the frontend knows) and an offset in it; every frame the operand
 * reads one to four little-endian bytes there.
 */
module CheevosMemory {
  import opened CheevosTypes

  /** C `size_t` on a 64-bit host. */
  type u64 = x: int | 0 <= x < 0x1_0000_0000_0000_0000

  /** A core's memory descriptor, as far as address translation uses it. */
  datatype Descriptor = Descriptor(select: u64, start: u64, offset: u64)

  /**
   * What address translation consults: the console, the core's memory map
   * (may be empty) and the sizes of the four memory regions used when the
   * map is empty.
   */
  datatype MemoryLayout = MemoryLayout(consoleId: int, descriptors: seq<Descriptor>, regionSizes: seq<nat>)

  /** A resolved address: bank -1 means the address maps to no memory. */
  datatype GuestAddress = GuestAddress(bankId: int, value: u32)

  /**
   * Addresses of two consoles are rebased before the memory map is searched:
   * Game Boy Advance internal RAM (below 0x8000) moves to 0x3000000 and the
   * rest to 0x2000000 onwards; PC Engine addresses move up by 0x1f0000.
   */
  function ConsoleAddress(consoleId: int, value: u32): u32
  {
    if consoleId == CONSOLE_GAMEBOY_ADVANCE then
      if value < 0x8000 then value + 0x3000000 else Wrap32(value + 0x2000000 - 0x8000)
    else if consoleId == CONSOLE_PC_ENGINE then Wrap32(value + 0x1f0000)
    else value
  }

  /** Bitwise AND of two naturals, bit by bit from the least significant. */
  function BitAnd(a: nat, b: nat): (r: nat)
    ensures r <= a && r <= b
  {
    if a == 0 || b == 0 then 0
    else 2 * BitAnd(a / 2, b / 2) + (if a % 2 == 1 && b % 2 == 1 then 1 else 0)
  }

  /** A descriptor selects an address when the address's selected bits equal its start. */
  predicate Selects(d: Descriptor, value: u32)
  {
    BitAnd(value, d.select) == d.start
  }

  /** The descriptor search from index `i` on: the first descriptor that selects `value`. */
  function FindDescriptor(descs: seq<Descriptor>, value: u32, i: nat): (r: Option<nat>)
    ensures r.Some? ==> i <= r.value < |descs|
    decreases |descs| - i
  {
    if i >= |descs| then None
    else if Selects(descs[i], value) then Some(i)
    else FindDescriptor(descs, value, i + 1)
  }

  /**
   * The region search from index `i` on, with `value` already reduced by the
   * sizes of the regions before `i`.
   */
  function FindRegion(sizes: seq<nat>, value: u32, i: nat): GuestAddress
    decreases |sizes| - i
  {
    if i >= |sizes| then GuestAddress(-1, value)
    else if value < sizes[i] then GuestAddress(i, value)
    else FindRegion(sizes, value - sizes[i], i + 1)
  }

  /** `cheevos_parse_guest_addr` as a function of the layout and the parsed address. */
  function ResolveAddress(layout: MemoryLayout, value: u32): GuestAddress
  {
    if |layout.descriptors| != 0 then
      var v := ConsoleAddress(layout.consoleId, value);
      match FindDescriptor(layout.descriptors, v, 0)
      case Some(i) =>
        var d := layout.descriptors[i];
        GuestAddress(i, Wrap32(v - d.start + d.offset))
      case None => GuestAddress(-1, v)
    else FindRegion(layout.regionSizes, value, 0)
  }

  /** Total size of the regions before index `i`. */
  function SizeBefore(sizes: seq<nat>, i: nat): nat
    requires i <= |sizes|
  {
    if i == 0 then 0 else SizeBefore(sizes, i - 1) + sizes[i - 1]
  }

  lemma {:induction false} FindDescriptorIsFirst(descs: seq<Descriptor>, value: u32, i: nat)
    ensures match FindDescriptor(descs, value, i)
            case Some(k) => i <= k < |descs| && Selects(descs[k], value) &&
                            forall j :: i <= j < k ==> !Selects(descs[j], value)
            case None => forall j :: i <= j < |descs| ==> !Selects(descs[j], value)
    decreases |descs| - i
  {
    if i < |descs| && !Selects(descs[i], value) {
      FindDescriptorIsFirst(descs, value, i + 1);
    }
  }

  /**
   * With a memory map, the bank is the first descriptor that selects the
   * (rebased) address, and the offset is taken relative to its start; with
   * no selecting descriptor the bank is -1.
   */
  lemma DescriptorBank(layout: MemoryLayout, value: u32)
    requires |layout.descriptors| != 0
    ensures var v := ConsoleAddress(layout.consoleId, value);
            var r := ResolveAddress(layout, value);
            (r.bankId == -1 <==> forall j :: 0 <= j < |layout.descriptors| ==> !Selects(layout.descriptors[j], v)) &&
            (r.bankId != -1 ==>
               (0 <= r.bankId < |layout.descriptors| &&
                Selects(layout.descriptors[r.bankId], v) &&
                (forall j :: 0 <= j < r.bankId ==> !Selects(layout.descriptors[j], v)) &&
                r.value == Wrap32(v - layout.descriptors[r.bankId].start + layout.descriptors[r.bankId].offset)))
  {
    FindDescriptorIsFirst(layout.descriptors, ConsoleAddress(layout.consoleId, value), 0);
  }

  lemma {:induction false} FindRegionByBounds(sizes: seq<nat>, value: u32, i: nat)
    requires i <= |sizes| && SizeBefore(sizes, i) <= value
    ensures var r := FindRegion(sizes, value - SizeBefore(sizes, i), i);
            (r.bankId == -1 <==> value >= SizeBefore(sizes, |sizes|)) &&
            (r.bankId == -1 ==> r.value == value - SizeBefore(sizes, |sizes|)) &&
            (r.bankId != -1 ==>
               (i <= r.bankId < |sizes| &&
                SizeBefore(sizes, r.bankId) <= value < SizeBefore(sizes, r.bankId + 1) &&
                r.value == value - SizeBefore(sizes, r.bankId)))
    decreases |sizes| - i
  {
    if i < |sizes| {
      if value - SizeBefore(sizes, i) >= sizes[i] {
        FindRegionByBounds(sizes, value, i + 1);
      } else {
        SizeBeforeMonotone(sizes, i + 1, |sizes|);
      }
    }
  }

  lemma {:induction false} SizeBeforeMonotone(sizes: seq<nat>, i: nat, j: nat)
    requires i <= j <= |sizes|
    ensures SizeBefore(sizes, i) <= SizeBefore(sizes, j)
    decreases j - i
  {
    if i < j {
      SizeBeforeMonotone(sizes, i, j - 1);
    }
  }

  /**
   * Without a memory map, the regions are laid end to end: the bank is the
   * region whose span [start, start + size) holds the address, and the
   * offset is the distance from that region's start.  Past the last region
   * the bank is -1 and the value is what is left after subtracting all sizes.
   */
  lemma RegionBank(layout: MemoryLayout, value: u32)
    requires |layout.descriptors| == 0
    ensures var sizes, r := layout.regionSizes, ResolveAddress(layout, value);
            (r.bankId == -1 <==> value >= SizeBefore(sizes, |sizes|)) &&
            (r.bankId == -1 ==> r.value == value - SizeBefore(sizes, |sizes|)) &&
            (r.bankId != -1 ==>
               (0 <= r.bankId < |sizes| &&
                SizeBefore(sizes, r.bankId) <= value < SizeBefore(sizes, r.bankId + 1) &&
                r.value == value - SizeBefore(sizes, r.bankId)))
  {
    FindRegionByBounds(layout.regionSizes, value, 0);
  }

  /** The loops of `cheevos_parse_guest_addr`. */
  method ParseGuestAddr(layout: MemoryLayout, value: u32) returns (bankId: int, addr: u32)
    ensures GuestAddress(bankId, addr) == ResolveAddress(layout, value)
  {
    if |layout.descriptors| != 0 {
      var v := ConsoleAddress(layout.consoleId, value);
      var i := SearchDescriptors(layout.descriptors, v);
      if i < |layout.descriptors| {
        var d := layout.descriptors[i];
        bankId, addr := i, Wrap32(v - d.start + d.offset);
      } else {
        bankId, addr := -1, v;
      }
    } else {
      bankId, addr := SearchRegions(layout.regionSizes, value);
    }
  }

  /** Index of the first descriptor that selects `value`, or the count when none does. */
  method SearchDescriptors(descs: seq<Descriptor>, value: u32) returns (i: nat)
    ensures i <= |descs|
    ensures FindDescriptor(descs, value, 0) == if i < |descs| then Some(i) else None
  {
    i := 0;
    while i < |descs|
      invariant i <= |descs|
      invariant FindDescriptor(descs, value, 0) == FindDescriptor(descs, value, i)
    {
      var d := descs[i];
      if Selects(d, value) {
        return;
      }
      i := i + 1;
    }
  }

  method SearchRegions(sizes: seq<nat>, value: u32) returns (bankId: int, addr: u32)
    ensures GuestAddress(bankId, addr) == FindRegion(sizes, value, 0)
  {
    bankId, addr := -1, value;
    var i := 0;
    while i < |sizes|
      invariant i <= |sizes|
      invariant FindRegion(sizes, value, 0) == FindRegion(sizes, addr, i)
    {
      if addr < sizes[i] {
        bankId := i;
        return;
      }
      addr := addr - sizes[i];
      i := i + 1;
    }
  }

  // ---------------------------------------------------------------------
  // Reading an operand

  /** An unsigned byte. */
  type u8 = x: int | 0 <= x < 256

  /**
   * The bytes of each bank: a descriptor's memory when the core has a memory
   * map, otherwise a region's.  A bank outside this list has no memory.
   */
  type Memory = seq<seq<u8>>

  /** A byte of a bank; bytes past a bank's end read as 0. */
  function ReadByte(mem: Memory, bank: nat, offset: nat): u8
    requires bank < |mem|
  {
    if offset < |mem[bank]| then mem[bank][offset] else 0
  }

  /** Bit `n` of `b`: `(b >> n) & 1`. */
  function BitOf(b: nat, n: nat): (r: nat)
    ensures r < 2
  {
    if n == 0 then b % 2 else BitOf(b / 2, n - 1)
  }

  /** The largest value plus one each read width can produce. */
  function SizeLimit(size: Size): nat
  {
    match size
    case Bit(n) => if n == 0 then 256 else 2
    case NibbleLower => 16
    case NibbleUpper => 16
    case EightBits => 256
    case SixteenBits => 0x1_0000
    case ThirtyTwoBits => 0x1_0000_0000
  }

  /**
   * The live value at an operand's address: a single bit, a nibble, or one,
   * two or four bytes read little-endian; 0 when the address maps to no
   * memory.  A size of `Bit(0)` reads the whole byte.
   */
  function LiveValue(v: Var, mem: Memory): (r: u32)
    ensures r < SizeLimit(v.size)
  {
    if v.bankId < 0 || v.bankId >= |mem| then 0
    else
      var b0 := ReadByte(mem, v.bankId, v.value);
      match v.size
      case Bit(n) => if n == 0 then b0 else BitOf(b0, n)
      case NibbleLower => b0 % 16
      case NibbleUpper => b0 / 16
      case EightBits => b0
      case SixteenBits => b0 + 0x100 * ReadByte(mem, v.bankId, v.value + 1)
      case ThirtyTwoBits =>
        b0 + 0x100 * ReadByte(mem, v.bankId, v.value + 1)
        + 0x1_0000 * ReadByte(mem, v.bankId, v.value + 2)
        + 0x100_0000 * ReadByte(mem, v.bankId, v.value + 3)
  }

  /**
   * `cheevos_get_var_value`: the operand's value this frame and the operand
   * afterwards.  A constant yields itself, an address its live value, a
   * delta the live value of the previous read (remembering the current one).
   */
  function ReadVar(v: Var, mem: Memory): (u32, Var)
  {
    match v.varType
    case ValueComp => (v.value, v)
    case Address => (LiveValue(v, mem), v)
    case DeltaMem => (v.previous, v.(previous := LiveValue(v, mem)))
    case DynamicVar => (0, v)
  }

  /** Reading never changes an operand except a delta operand's remembered value. */
  lemma ReadVarChangesOnlyPrevious(v: Var, mem: Memory)
    ensures var (_, w) := ReadVar(v, mem);
            w == v.(previous := w.previous) && (w != v ==> v.varType == DeltaMem)
  {
  }

  /**
   * A delta operand lags by one read: the second of two consecutive reads
   * returns the live value the first read saw.
   */
  lemma DeltaLagsOneRead(v: Var, m1: Memory, m2: Memory)
    requires v.varType == DeltaMem
    ensures ReadVar(ReadVar(v, m1).1, m2).0 == LiveValue(v, m1)
    ensures ReadVar(ReadVar(v, m1).1, m2).1 == v.(previous := LiveValue(v, m2))
  {
  }
}
