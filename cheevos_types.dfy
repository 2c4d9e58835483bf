/**
 * Value types shared by the achievement ("cheevos") engine: unsigned 32-bit
 * words, the enumerations of a condition's parts, and the condition record
 * itself.  The engine keeps every achievement as condition sets, each a
 * fixed-size array of conditions that the per-frame evaluator rewrites in place.
 */
module CheevosTypes {

  const U32_MODULUS: int := 0x1_0000_0000

  /** C `unsigned` (32 bits). */
  type u32 = x: int | 0 <= x < 0x1_0000_0000

  /** Reduction of an integer into `unsigned`, as a C conversion does. */
  function Wrap32(x: int): (r: u32)
    ensures 0 <= x < U32_MODULUS ==> r == x
    ensures (r - x) % U32_MODULUS == 0
  {
    x % U32_MODULUS
  }

  datatype Option<T> = None | Some(value: T)

  /** Console identifiers the memory resolver treats specially. */
  const CONSOLE_GAMEBOY_ADVANCE: int := 5
  const CONSOLE_PC_ENGINE: int := 8

  /** Flag bit set in an achievement's `dirty` mask when a hit count changed. */
  const DIRTY_CONDITIONS: bv32 := 1 << 6

  /** Position of a single bit inside a byte. */
  type BitIndex = i: nat | i < 8

  /**
   * Width of a memory read: one bit, a nibble, a byte, 16 or 32 bits.  The
   * source's enumeration lists BIT_0 .. BIT_7 first, so `Bit(0)` is also what
   * a zero-filled field holds.
   */
  datatype Size =
    | Bit(index: BitIndex)
    | NibbleLower
    | NibbleUpper
    | EightBits
    | SixteenBits
    | ThirtyTwoBits

  /** How an operand obtains its value. */
  datatype VarType =
    | Address      // the live value at a guest address
    | ValueComp    // a constant
    | DeltaMem     // the value the address held on the previous read
    | DynamicVar   // never produced by the parser; reads as 0

  /**
   * An operand.  `bankId` is -1 when the address maps to no memory bank;
   * `value` is the constant or the offset inside the bank; `previous` is the
   * last live value read, used by delta operands.
   */
  datatype Var = Var(varType: VarType, size: Size, bankId: int, value: u32, previous: u32)

  datatype Op =
    | Equals
    | LessThan
    | LessThanOrEqual
    | GreaterThan
    | GreaterThanOrEqual
    | NotEqualTo

  datatype CondType = Standard | PauseIf | ResetIf

  /** One comparison with its hit counter; `reqHits == 0` means no target. */
  datatype Cond = Cond(condType: CondType, reqHits: u32, currHits: u32, source: Var, op: Op, target: Var)

  /**
   * A condition set: the conditions (an array that evaluation rewrites in
   * place) and the text it was parsed from, absent for an empty set.
   */
  datatype CondSet = CondSet(conds: array<Cond>, expression: Option<string>)
}
