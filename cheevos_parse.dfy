/**
 * The MemAddr parser.  An achievement's conditions arrive as one string
 * such as `0xH0012=5_R:d0x0100>0x0100(3)S0xX0200!=h10`: conditions joined by
 * `_`, condition sets started by `S`, each condition an optional `R:`/`P:`
 * type, a source operand, an operator, a target operand and an optional hit
 * count.  Each parser takes a cursor position and returns what it read and
 * where the cursor ends up, as the source's `const char **` arguments do.
 */
module CheevosParse {
  import opened CheevosTypes
  import opened CheevosUtil
  import opened CheevosMemory

  /** The character under the cursor; the string is followed by a terminator. */
  function At(s: string, i: nat): char
  {
    if i < |s| then s[i] else '\0'
  }

  /** C `toupper` on ASCII letters. */
  function ToUpper(c: char): char
  {
    if 'a' <= c <= 'z' then (c as int - 32) as char else c
  }

  predicate IsDigit(c: char, base: nat)
  {
    '0' <= c <= '9' || (base == 16 && ('a' <= c <= 'f' || 'A' <= c <= 'F'))
  }

  // ---------------------------------------------------------------------
  // Numbers (`strtol` on operands and hit counts as they are written: the
  // run of digits, none read as 0; no whitespace, sign or `0x` prefix)

  /** End of the run of digits starting at `p`. */
  function DigitEnd(s: string, p: nat, base: nat): (e: nat)
    ensures p <= e
    decreases |s| - p
  {
    if p < |s| && IsDigit(s[p], base) then DigitEnd(s, p + 1, base) else p
  }

  /** The value of the digits in [p, e). */
  function DigitsValue(s: string, p: nat, e: nat, base: nat): nat
    requires p <= e
    decreases e - p
  {
    if e == p then 0
    else if base == 10 then DigitsValue(s, p, e - 1, base) * 10 + HexValue(At(s, e - 1))
    else DigitsValue(s, p, e - 1, base) * 16 + HexValue(At(s, e - 1))
  }

  /**
   * `strtol(str, &end, base)` stored into an `unsigned`: the value of the
   * digit run reduced to 32 bits, and the end of the run.
   */
  function ReadNumber(s: string, p: nat, base: nat): (r: (u32, nat))
    ensures p <= r.1
  {
    var e := DigitEnd(s, p, base);
    (Wrap32(DigitsValue(s, p, e, base)), e)
  }

  // ---------------------------------------------------------------------
  // Operand widths, hit counts and operators

  /** `cheevos_prefix_to_comp_size`: the width letter of a memory operand, 16 bits by default. */
  function PrefixToCompSize(c: char): Size
  {
    match ToUpper(c)
    case 'M' => Bit(0)
    case 'N' => Bit(1)
    case 'O' => Bit(2)
    case 'P' => Bit(3)
    case 'Q' => Bit(4)
    case 'R' => Bit(5)
    case 'S' => Bit(6)
    case 'T' => Bit(7)
    case 'L' => NibbleLower
    case 'U' => NibbleUpper
    case 'H' => EightBits
    case 'X' => ThirtyTwoBits
    case _ => SixteenBits
  }

  /** `cheevos_read_hits`: `(N` or `.N` gives N and skips one character after the digits. */
  function ReadHits(s: string, p: nat): (r: (u32, nat))
    ensures p <= r.1
  {
    if At(s, p) == '(' || At(s, p) == '.' then
      var (n, e) := ReadNumber(s, p + 1, 10);
      (n, e + 1)
    else (0, p)
  }

  /** `cheevos_parse_operator`: an unknown character reads as equality and is not consumed. */
  function ParseOperator(s: string, p: nat): (r: (Op, nat))
    ensures p <= r.1 <= p + 2
  {
    var c, d := At(s, p), At(s, p + 1);
    if c == '=' && d == '=' then (Equals, p + 2)
    else if c == '=' then (Equals, p + 1)
    else if c == '!' && d == '=' then (NotEqualTo, p + 2)
    else if c == '<' && d == '=' then (LessThanOrEqual, p + 2)
    else if c == '<' then (LessThan, p + 1)
    else if c == '>' && d == '=' then (GreaterThanOrEqual, p + 2)
    else if c == '>' then (GreaterThan, p + 1)
    else (Equals, p)
  }

  // ---------------------------------------------------------------------
  // Operands and conditions

  /**
   * The operand kind: `d0x` a delta read and `0x` a memory read (letters in
   * either case), `h`/`H` a hexadecimal constant, anything else a decimal
   * constant; with the cursor after the prefix and the base of the number.
   */
  function ReadVarKind(s: string, p: nat): (r: (VarType, nat, nat))
    ensures p <= r.1 && (r.2 == 10 || r.2 == 16)
  {
    if ToUpper(At(s, p)) == 'D' && At(s, p + 1) == '0' && ToUpper(At(s, p + 2)) == 'X' then (DeltaMem, p + 3, 16)
    else if At(s, p) == '0' && ToUpper(At(s, p + 1)) == 'X' then (Address, p + 2, 16)
    else if ToUpper(At(s, p)) == 'H' then (ValueComp, p + 1, 16)
    else (ValueComp, p, 10)
  }

  /** The width of a memory operand; its letter is consumed unless the width is the 16-bit default. */
  function ReadWidth(s: string, q: nat): (r: (Size, nat))
    ensures q <= r.1
  {
    var size := PrefixToCompSize(At(s, q));
    (size, if size == SixteenBits then q else q + 1)
  }

  /**
   * `cheevos_parse_var`: a memory operand reads its width and a hexadecimal
   * address, which is resolved at once; a constant reads its number and
   * keeps the zeroes its freshly cleared record held in the other fields.
   */
  function ParseVar(s: string, layout: MemoryLayout, p: nat): (r: (Var, nat))
    ensures p <= r.1
  {
    var (varType, q, base) := ReadVarKind(s, p);
    if varType == ValueComp then
      var (n, e) := ReadNumber(s, q, base);
      (Var(ValueComp, Bit(0), 0, n, 0), e)
    else
      var (size, q1) := ReadWidth(s, q);
      var (n, e) := ReadNumber(s, q1, base);
      var g := ResolveAddress(layout, n);
      (Var(varType, size, g.bankId, g.value, 0), e)
  }

  /** The condition type: `R:` reset-if, `P:` pause-if, otherwise standard. */
  function ReadCondType(s: string, p: nat): (r: (CondType, nat))
    ensures p <= r.1
  {
    if At(s, p) == 'R' && At(s, p + 1) == ':' then (ResetIf, p + 2)
    else if At(s, p) == 'P' && At(s, p + 1) == ':' then (PauseIf, p + 2)
    else (Standard, p)
  }

  /** `cheevos_parse_cond`: type, source, operator, target, hit count; no hits counted yet. */
  function ParseCond(s: string, layout: MemoryLayout, p: nat): (r: (Cond, nat))
    ensures p <= r.1
  {
    var (condType, q) := ReadCondType(s, p);
    var (source, q1) := ParseVar(s, layout, q);
    var (op, q2) := ParseOperator(s, q1);
    var (target, q3) := ParseVar(s, layout, q2);
    var (hits, q4) := ReadHits(s, q3);
    (Cond(condType, hits, 0, source, op, target), q4)
  }

  // ---------------------------------------------------------------------
  // The written form of a condition, which the parsers invert

  /** The width letter that selects each width other than the 16-bit default. */
  function SizePrefix(size: Size): string
  {
    match size
    case Bit(n) => ["MNOPQRST"[n]]
    case NibbleLower => "L"
    case NibbleUpper => "U"
    case EightBits => "H"
    case SixteenBits => ""
    case ThirtyTwoBits => "X"
  }

  /** `n` without its last digit in base 10 or 16. */
  function Leading(n: nat, base: nat): (r: nat)
    requires base == 10 || base == 16
    ensures n >= base ==> r < n
  {
    if base == 10 then n / 10 else n / 16
  }

  /** The last digit of `n` in base 10 or 16. */
  function LastDigit(n: nat, base: nat): (d: nat)
    requires base == 10 || base == 16
    ensures d < base && Leading(n, base) * base + d == n
  {
    if base == 10 then n % 10 else n % 16
  }

  /** Digits of `n`, most significant first, in base 10 or 16 (lower-case). */
  function Numeral(n: nat, base: nat): (t: string)
    requires base == 10 || base == 16
    ensures |t| >= 1
    decreases n
  {
    if n < base then [HexDigit(n)] else Numeral(Leading(n, base), base) + [HexDigit(LastDigit(n, base))]
  }

  lemma {:induction false} NumeralDigits(n: nat, base: nat)
    requires base == 10 || base == 16
    ensures forall i :: 0 <= i < |Numeral(n, base)| ==> IsDigit(Numeral(n, base)[i], base)
    decreases n
  {
    if n >= base {
      NumeralDigits(Leading(n, base), base);
    }
  }

  /** An operand as written: a (delta) memory read of some width, or a constant. */
  datatype Operand =
    | MemOperand(delta: bool, size: Size, address: u32)
    | ConstOperand(hex: bool, n: u32)

  function OperandText(o: Operand): string
  {
    match o
    case MemOperand(delta, size, address) =>
      (if delta then "d0x" else "0x") + SizePrefix(size) + Numeral(address, 16)
    case ConstOperand(hex, n) =>
      if hex then "h" + Numeral(n, 16) else Numeral(n, 10)
  }

  /** The operand record a written operand stands for, its address resolved in `layout`. */
  function OperandVar(o: Operand, layout: MemoryLayout): Var
  {
    match o
    case MemOperand(delta, size, address) =>
      var g := ResolveAddress(layout, address);
      Var(if delta then DeltaMem else Address, size, g.bankId, g.value, 0)
    case ConstOperand(_, n) => Var(ValueComp, Bit(0), 0, n, 0)
  }

  function OpText(op: Op): string
  {
    match op
    case Equals => "="
    case LessThan => "<"
    case LessThanOrEqual => "<="
    case GreaterThan => ">"
    case GreaterThanOrEqual => ">="
    case NotEqualTo => "!="
  }

  function HitsText(hits: u32): string
  {
    if hits == 0 then "" else "(" + Numeral(hits, 10) + ")"
  }

  function TypeText(t: CondType): string
  {
    match t
    case Standard => ""
    case PauseIf => "P:"
    case ResetIf => "R:"
  }

  datatype CondSyntax = CondSyntax(condType: CondType, source: Operand, op: Op, target: Operand, hits: u32)

  function CondText(c: CondSyntax): string
  {
    TypeText(c.condType) + OperandText(c.source) + OpText(c.op) + OperandText(c.target) + HitsText(c.hits)
  }

  /** The condition a written condition stands for, with no hits counted. */
  function CondValue(c: CondSyntax, layout: MemoryLayout): Cond
  {
    Cond(c.condType, c.hits, 0, OperandVar(c.source, layout), c.op, OperandVar(c.target, layout))
  }

  /** A character that cannot continue an operand: not a hexadecimal digit and not an `x`. */
  predicate Delimits(c: char)
  {
    !IsDigit(c, 16) && ToUpper(c) != 'X'
  }

  /** A character that can follow a condition without a hit count. */
  predicate EndsCondition(c: char)
  {
    Delimits(c) && c != '(' && c != '.'
  }

  // ---------------------------------------------------------------------
  // Text positions

  /** The parser, looking from `p` on, sees the characters of `t`. */
  predicate TextAt(s: string, p: nat, t: string)
  {
    forall i :: 0 <= i < |t| ==> At(s, p + i) == t[i]
  }

  lemma TextAtSplit(s: string, p: nat, t1: string, t2: string)
    requires TextAt(s, p, t1 + t2)
    ensures TextAt(s, p, t1) && TextAt(s, p + |t1|, t2)
  {
    forall i | 0 <= i < |t1|
      ensures At(s, p + i) == t1[i]
    {
      assert (t1 + t2)[i] == t1[i];
    }
    forall i | 0 <= i < |t2|
      ensures At(s, p + |t1| + i) == t2[i]
    {
      assert (t1 + t2)[|t1| + i] == t2[i];
    }
  }

  lemma TextAtChar(s: string, p: nat, t: string, i: nat)
    requires TextAt(s, p, t) && i < |t|
    ensures At(s, p + i) == t[i]
  {
  }

  /** Every string is seen from its own start. */
  lemma TextAtSuffix(s: string, p: nat)
    requires p <= |s|
    ensures TextAt(s, p, s[p..])
  {
  }

  // ---------------------------------------------------------------------
  // Round trips

  lemma {:induction false} DigitEndAt(s: string, p: nat, e: nat, base: nat)
    requires p <= e
    requires forall i :: p <= i < e ==> IsDigit(At(s, i), base)
    requires !IsDigit(At(s, e), base)
    ensures DigitEnd(s, p, base) == e
    decreases e - p
  {
    if p < e {
      assert IsDigit(At(s, p), base);
      DigitEndAt(s, p + 1, e, base);
    }
  }

  lemma {:induction false} NumeralValue(s: string, p: nat, n: nat, base: nat)
    requires base == 10 || base == 16
    requires TextAt(s, p, Numeral(n, base))
    ensures DigitsValue(s, p, p + |Numeral(n, base)|, base) == n
    decreases n
  {
    var t := Numeral(n, base);
    var e := p + |t|;
    if n < base {
      TextAtChar(s, p, t, 0);
      HexRoundTrip(n);
    } else {
      var hi := Numeral(Leading(n, base), base);
      TextAtSplit(s, p, hi, [HexDigit(LastDigit(n, base))]);
      NumeralValue(s, p, Leading(n, base), base);
      TextAtChar(s, p, t, |t| - 1);
      HexRoundTrip(LastDigit(n, base));
      assert e - 1 == p + |hi|;
    }
  }

  /** Reading a number back from its numeral, up to any character that is not a digit. */
  lemma NumeralRoundTrip(s: string, p: nat, n: u32, base: nat)
    requires base == 10 || base == 16
    requires TextAt(s, p, Numeral(n, base))
    requires !IsDigit(At(s, p + |Numeral(n, base)|), base)
    ensures ReadNumber(s, p, base) == (n, p + |Numeral(n, base)|)
  {
    var t := Numeral(n, base);
    NumeralDigits(n, base);
    forall i | p <= i < p + |t|
      ensures IsDigit(At(s, i), base)
    {
      TextAtChar(s, p, t, i - p);
    }
    DigitEndAt(s, p, p + |t|, base);
    NumeralValue(s, p, n, base);
  }

  /** Every width but the 16-bit default has a letter, in either case, that selects it. */
  lemma SizePrefixRoundTrip(size: Size)
    requires size != SixteenBits
    ensures |SizePrefix(size)| == 1
    ensures PrefixToCompSize(SizePrefix(size)[0]) == size
    ensures 'A' <= SizePrefix(size)[0] <= 'Z'
    ensures PrefixToCompSize((SizePrefix(size)[0] as int + 32) as char) == size
  {
  }

  /** No hexadecimal digit is a width letter, so an address may start right after `0x`. */
  lemma DigitsSelectSixteenBits(c: char)
    requires IsDigit(c, 16) || c == '\0'
    ensures PrefixToCompSize(c) == SixteenBits
  {
  }

  lemma OperatorRoundTrip(s: string, p: nat, op: Op)
    requires TextAt(s, p, OpText(op)) && At(s, p + |OpText(op)|) != '='
    ensures ParseOperator(s, p) == (op, p + |OpText(op)|)
  {
    TextAtChar(s, p, OpText(op), 0);
    if |OpText(op)| == 2 {
      TextAtChar(s, p, OpText(op), 1);
    }
  }

  /** `==` is equality too, and a character that starts no operator is equality and is left unread. */
  lemma OperatorFallbacks(s: string, p: nat)
    ensures At(s, p) == '=' && At(s, p + 1) == '=' ==> ParseOperator(s, p) == (Equals, p + 2)
    ensures At(s, p) !in "=!<>" ==> ParseOperator(s, p) == (Equals, p)
  {
  }

  lemma HitsTextParts(s: string, p: nat, t: string)
    requires TextAt(s, p, "(" + t + ")")
    ensures At(s, p) == '(' && TextAt(s, p + 1, t) && At(s, p + 1 + |t|) == ')'
  {
    TextAtSplit(s, p, "(" + t, ")");
    TextAtSplit(s, p, "(", t);
    TextAtChar(s, p, "(", 0);
    TextAtChar(s, p + 1 + |t|, ")", 0);
  }

  lemma ReadHitsSteps(s: string, p: nat, n: u32, e: nat)
    requires At(s, p) == '(' && ReadNumber(s, p + 1, 10) == (n, e)
    ensures ReadHits(s, p) == (n, e + 1)
  {
  }

  /** A hit count written `(N)` reads as N with the cursor after the `)`. */
  lemma HitsRoundTrip(s: string, p: nat, hits: u32)
    requires TextAt(s, p, HitsText(hits))
    requires hits == 0 ==> At(s, p) != '(' && At(s, p) != '.'
    ensures ReadHits(s, p) == (hits, p + |HitsText(hits)|)
  {
    if hits != 0 {
      var t := Numeral(hits, 10);
      HitsTextParts(s, p, t);
      NumeralRoundTrip(s, p + 1, hits, 10);
      ReadHitsSteps(s, p, hits, p + 1 + |t|);
      assert |HitsText(hits)| == |t| + 2;
    }
  }

  lemma OperandRoundTrip(s: string, p: nat, o: Operand, layout: MemoryLayout)
    requires TextAt(s, p, OperandText(o)) && Delimits(At(s, p + |OperandText(o)|))
    ensures ParseVar(s, layout, p) == (OperandVar(o, layout), p + |OperandText(o)|)
  {
    if o.MemOperand? {
      MemOperandRoundTrip(s, p, o, layout);
    } else {
      ConstOperandRoundTrip(s, p, o, layout);
    }
  }

  /** The `0x` or `d0x` lead of a memory operand selects its kind and base 16. */
  lemma MemOperandKind(s: string, p: nat, delta: bool, prefix: string, num: string)
    requires TextAt(s, p, (if delta then "d0x" else "0x") + prefix + num)
    ensures var q := p + (if delta then 3 else 2);
            ReadVarKind(s, p) == (if delta then DeltaMem else Address, q, 16) &&
            TextAt(s, q, prefix) && TextAt(s, q + |prefix|, num)
  {
    var lead := if delta then "d0x" else "0x";
    TextAtSplit(s, p, lead + prefix, num);
    TextAtSplit(s, p, lead, prefix);
    TextAtChar(s, p, lead, 0);
    TextAtChar(s, p, lead, 1);
    if delta {
      TextAtChar(s, p, lead, 2);
    }
  }

  /** The width letter, or none for 16 bits when a hexadecimal digit follows. */
  lemma MemOperandWidth(s: string, q: nat, size: Size, address: u32)
    requires TextAt(s, q, SizePrefix(size)) && TextAt(s, q + |SizePrefix(size)|, Numeral(address, 16))
    ensures ReadWidth(s, q) == (size, q + |SizePrefix(size)|)
  {
    if size == SixteenBits {
      var num := Numeral(address, 16);
      TextAtChar(s, q, num, 0);
      NumeralDigits(address, 16);
      DigitsSelectSixteenBits(num[0]);
    } else {
      SizePrefixRoundTrip(size);
      TextAtChar(s, q, SizePrefix(size), 0);
    }
  }

  lemma ParseMemVarSteps(s: string, layout: MemoryLayout, p: nat, varType: VarType, q: nat, size: Size, e: nat, n: u32, e2: nat)
    requires ReadVarKind(s, p) == (varType, q, 16) && varType != ValueComp
    requires ReadWidth(s, q) == (size, e) && ReadNumber(s, e, 16) == (n, e2)
    ensures var g := ResolveAddress(layout, n);
            ParseVar(s, layout, p) == (Var(varType, size, g.bankId, g.value, 0), e2)
  {
  }

  lemma MemOperandRoundTrip(s: string, p: nat, o: Operand, layout: MemoryLayout)
    requires o.MemOperand?
    requires TextAt(s, p, OperandText(o)) && Delimits(At(s, p + |OperandText(o)|))
    ensures ParseVar(s, layout, p) == (OperandVar(o, layout), p + |OperandText(o)|)
  {
    var delta, size, address := o.delta, o.size, o.address;
    var prefix := SizePrefix(size);
    var num := Numeral(address, 16);
    var varType := if delta then DeltaMem else Address;
    var q := p + (if delta then 3 else 2);
    var e := q + |prefix|;
    assert ReadVarKind(s, p) == (varType, q, 16) && TextAt(s, q, prefix) && TextAt(s, e, num) by {
      MemOperandKind(s, p, delta, prefix, num);
    }
    assert ReadWidth(s, q) == (size, e) by {
      MemOperandWidth(s, q, size, address);
    }
    assert ReadNumber(s, e, 16) == (address, e + |num|) by {
      NumeralRoundTrip(s, e, address, 16);
    }
    ParseMemVarSteps(s, layout, p, varType, q, size, e, address, e + |num|);
  }

  lemma ConstOperandRoundTrip(s: string, p: nat, o: Operand, layout: MemoryLayout)
    requires o.ConstOperand?
    requires TextAt(s, p, OperandText(o)) && Delimits(At(s, p + |OperandText(o)|))
    ensures ParseVar(s, layout, p) == (OperandVar(o, layout), p + |OperandText(o)|)
  {
    var hex, n := o.hex, o.n;
    if hex {
      var num := Numeral(n, 16);
      assert TextAt(s, p + 1, num) && ReadVarKind(s, p) == (ValueComp, p + 1, 16) by {
        TextAtSplit(s, p, "h", num);
        TextAtChar(s, p, "h", 0);
      }
      assert ReadNumber(s, p + 1, 16) == (n, p + 1 + |num|) by {
        NumeralRoundTrip(s, p + 1, n, 16);
      }
      ParseConstVarSteps(s, layout, p, p + 1, 16, n, p + 1 + |num|);
    } else {
      var num := Numeral(n, 10);
      assert ReadVarKind(s, p) == (ValueComp, p, 10) by {
        NumeralDigits(n, 10);
        TextAtChar(s, p, num, 0);
        if |num| > 1 {
          TextAtChar(s, p, num, 1);
        }
      }
      assert ReadNumber(s, p, 10) == (n, p + |num|) by {
        NumeralRoundTrip(s, p, n, 10);
      }
      ParseConstVarSteps(s, layout, p, p, 10, n, p + |num|);
    }
  }

  lemma ParseConstVarSteps(s: string, layout: MemoryLayout, p: nat, q: nat, base: nat, n: u32, e: nat)
    requires ReadVarKind(s, p) == (ValueComp, q, base) && ReadNumber(s, q, base) == (n, e)
    ensures ParseVar(s, layout, p) == (Var(ValueComp, Bit(0), 0, n, 0), e)
  {
  }

  /** An operand's text starts with a digit, `d` or `h`: nothing an operator, separator or type prefix starts with. */
  lemma OperandStart(o: Operand)
    ensures var c := OperandText(o)[0];
            ('0' <= c <= '9' || c == 'd' || c == 'h') && c != '='
  {
    if o.ConstOperand? && !o.hex {
      NumeralDigits(o.n, 10);
    }
  }

  lemma TextAtSplit5(s: string, p: nat, a: string, b: string, c: string, d: string, e: string)
    requires TextAt(s, p, a + b + c + d + e)
    ensures TextAt(s, p, a) && TextAt(s, p + |a|, b) && TextAt(s, p + |a| + |b|, c)
    ensures TextAt(s, p + |a| + |b| + |c|, d) && TextAt(s, p + |a| + |b| + |c| + |d|, e)
  {
    TextAtSplit(s, p, a + b + c + d, e);
    TextAtSplit(s, p, a + b + c, d);
    TextAtSplit(s, p, a + b, c);
    TextAtSplit(s, p, a, b);
  }

  lemma CondTypeRoundTrip(s: string, p: nat, c: CondSyntax)
    requires TextAt(s, p, TypeText(c.condType)) && TextAt(s, p + |TypeText(c.condType)|, OperandText(c.source))
    ensures ReadCondType(s, p) == (c.condType, p + |TypeText(c.condType)|)
  {
    match c.condType
    case ResetIf =>
      TextAtChar(s, p, "R:", 0);
      TextAtChar(s, p, "R:", 1);
    case PauseIf =>
      TextAtChar(s, p, "P:", 0);
      TextAtChar(s, p, "P:", 1);
    case Standard =>
      OperandStart(c.source);
      TextAtChar(s, p + 0, OperandText(c.source), 0);
      assert At(s, p) != 'R' && At(s, p) != 'P';
  }

  lemma OpTextStart(op: Op)
    ensures 1 <= |OpText(op)| <= 2 && OpText(op)[0] in "=<>!"
  {
  }

  /** `cheevos_parse_cond` is its five readers run one after another. */
  lemma ParseCondSteps(s: string, layout: MemoryLayout, p: nat, q: nat, q1: nat, q2: nat, q3: nat, q4: nat,
                       t: CondType, source: Var, op: Op, target: Var, hits: u32)
    requires ReadCondType(s, p) == (t, q)
    requires ParseVar(s, layout, q) == (source, q1)
    requires ParseOperator(s, q1) == (op, q2)
    requires ParseVar(s, layout, q2) == (target, q3)
    requires ReadHits(s, q3) == (hits, q4)
    ensures ParseCond(s, layout, p) == (Cond(t, hits, 0, source, op, target), q4)
  {
  }

  /** The type, source and operator of a written condition read back. */
  lemma SourceHalfRoundTrip(s: string, layout: MemoryLayout, c: CondSyntax, p: nat, p1: nat, p2: nat, p3: nat)
    requires p1 == p + |TypeText(c.condType)| && p2 == p1 + |OperandText(c.source)| && p3 == p2 + |OpText(c.op)|
    requires TextAt(s, p, TypeText(c.condType)) && TextAt(s, p1, OperandText(c.source))
    requires TextAt(s, p2, OpText(c.op)) && TextAt(s, p3, OperandText(c.target))
    ensures ReadCondType(s, p) == (c.condType, p1)
    ensures ParseVar(s, layout, p1) == (OperandVar(c.source, layout), p2)
    ensures ParseOperator(s, p2) == (c.op, p3)
  {
    CondTypeRoundTrip(s, p, c);
    OperandBeforeOperator(s, layout, c.source, c.op, p1, p2);
    OperatorBeforeOperand(s, c.op, c.target, p2, p3);
  }

  lemma OperandBeforeOperator(s: string, layout: MemoryLayout, o: Operand, op: Op, p1: nat, p2: nat)
    requires p2 == p1 + |OperandText(o)|
    requires TextAt(s, p1, OperandText(o)) && TextAt(s, p2, OpText(op))
    ensures ParseVar(s, layout, p1) == (OperandVar(o, layout), p2)
  {
    OpTextStart(op);
    TextAtChar(s, p2, OpText(op), 0);
    OperandRoundTrip(s, p1, o, layout);
  }

  lemma OperatorBeforeOperand(s: string, op: Op, o: Operand, p2: nat, p3: nat)
    requires p3 == p2 + |OpText(op)|
    requires TextAt(s, p2, OpText(op)) && TextAt(s, p3, OperandText(o))
    ensures ParseOperator(s, p2) == (op, p3)
  {
    OperandStart(o);
    TextAtChar(s, p3, OperandText(o), 0);
    OperatorRoundTrip(s, p2, op);
  }

  /** The target and hit count of a written condition read back. */
  lemma TargetHalfRoundTrip(s: string, layout: MemoryLayout, c: CondSyntax, p3: nat, p4: nat, e: nat)
    requires p4 == p3 + |OperandText(c.target)| && e == p4 + |HitsText(c.hits)|
    requires TextAt(s, p3, OperandText(c.target)) && TextAt(s, p4, HitsText(c.hits))
    requires EndsCondition(At(s, e))
    ensures ParseVar(s, layout, p3) == (OperandVar(c.target, layout), p4)
    ensures ReadHits(s, p4) == (c.hits, e)
  {
    HitsDelimit(s, p4, c.hits, e);
    OperandRoundTrip(s, p3, c.target, layout);
    HitsRoundTrip(s, p4, c.hits);
  }

  /** Whatever stands after an operand, a hit count or the end of the condition, stops its digits. */
  lemma HitsDelimit(s: string, p4: nat, hits: u32, e: nat)
    requires e == p4 + |HitsText(hits)| && TextAt(s, p4, HitsText(hits)) && EndsCondition(At(s, e))
    ensures Delimits(At(s, p4)) && (hits == 0 ==> At(s, p4) != '(' && At(s, p4) != '.')
  {
    if hits != 0 {
      TextAtChar(s, p4, HitsText(hits), 0);
    }
  }

  /**
   * A written condition, followed by a character that ends it, parses to the
   * condition it stands for, with the cursor right after it.
   */
  lemma CondRoundTrip(s: string, p: nat, c: CondSyntax, layout: MemoryLayout)
    requires TextAt(s, p, CondText(c)) && EndsCondition(At(s, p + |CondText(c)|))
    ensures ParseCond(s, layout, p) == (CondValue(c, layout), p + |CondText(c)|)
  {
    var p1 := p + |TypeText(c.condType)|;
    var p2 := p1 + |OperandText(c.source)|;
    var p3 := p2 + |OpText(c.op)|;
    var p4 := p3 + |OperandText(c.target)|;
    CondTextSplit(s, p, c);
    CondPartsRoundTrip(s, layout, c, p, p1, p2, p3, p4, p4 + |HitsText(c.hits)|);
  }

  lemma CondTextSplit(s: string, p: nat, c: CondSyntax)
    requires TextAt(s, p, CondText(c))
    ensures var p1 := p + |TypeText(c.condType)|;
            var p2 := p1 + |OperandText(c.source)|;
            var p3 := p2 + |OpText(c.op)|;
            var p4 := p3 + |OperandText(c.target)|;
            TextAt(s, p, TypeText(c.condType)) && TextAt(s, p1, OperandText(c.source)) && TextAt(s, p2, OpText(c.op)) &&
            TextAt(s, p3, OperandText(c.target)) && TextAt(s, p4, HitsText(c.hits)) &&
            p + |CondText(c)| == p4 + |HitsText(c.hits)|
  {
    TextAtSplit5(s, p, TypeText(c.condType), OperandText(c.source), OpText(c.op), OperandText(c.target), HitsText(c.hits));
  }

  /** The five parts of a written condition, laid out one after another, parse back one by one. */
  lemma CondPartsRoundTrip(s: string, layout: MemoryLayout, c: CondSyntax, p: nat, p1: nat, p2: nat, p3: nat, p4: nat, e: nat)
    requires p1 == p + |TypeText(c.condType)| && p2 == p1 + |OperandText(c.source)| && p3 == p2 + |OpText(c.op)|
    requires p4 == p3 + |OperandText(c.target)| && e == p4 + |HitsText(c.hits)|
    requires TextAt(s, p, TypeText(c.condType)) && TextAt(s, p1, OperandText(c.source))
    requires TextAt(s, p2, OpText(c.op)) && TextAt(s, p3, OperandText(c.target)) && TextAt(s, p4, HitsText(c.hits))
    requires EndsCondition(At(s, e))
    ensures ParseCond(s, layout, p) == (CondValue(c, layout), e)
  {
    SourceHalfRoundTrip(s, layout, c, p, p1, p2, p3);
    TargetHalfRoundTrip(s, layout, c, p3, p4, e);
    ParseCondSteps(s, layout, p, p1, p2, p3, p4, e, c.condType, OperandVar(c.source, layout), c.op,
                   OperandVar(c.target, layout), c.hits);
  }

  // ---------------------------------------------------------------------
  // Scanning a whole MemAddr string

  /** Characters skipped before each condition. */
  predicate IsSkipped(c: char)
  {
    c == ' ' || c == '_' || c == '|' || c == 'S'
  }

  /** Characters after a condition that continue the current set: AND, ResetIf, PauseIf. */
  predicate ContinuesSet(c: char)
  {
    c == '_' || c == 'R' || c == 'P'
  }

  function SkipSeps(s: string, p: nat): (q: nat)
    ensures p <= q && !IsSkipped(At(s, q))
    ensures IsSkipped(At(s, p)) ==> p < q
    decreases |s| - p
  {
    if IsSkipped(At(s, p)) then SkipSeps(s, p + 1) else p
  }

  /**
   * What scanning a MemAddr string yields: every condition in string order
   * and the number of condition sets; or `Stuck` when a condition makes no
   * progress before a character that continues the set (an `R` or `P` not
   * followed by `:`), where the source's loops never end.
   */
  datatype Scan = Parsed(conds: seq<Cond>, sets: nat) | Stuck

  /** A condition parser: from a cursor, the condition read and the cursor after it. */
  type CondReader = nat -> (Cond, nat)

  function CondParser(s: string, layout: MemoryLayout): CondReader
  {
    q => ParseCond(s, layout, q)
  }

  /**
   * The scanners' common loop from cursor `p` on, with the conditions and
   * sets found so far, for any condition parser `parse`: skip separators,
   * read one condition, then continue the set, start a new set or stop.
   */
  function ScanWith(parse: CondReader, s: string, p: nat, conds: seq<Cond>, sets: nat): Scan
    requires p <= |s|
    decreases |s| - p
  {
    var (c, r) := parse(SkipSeps(s, p));
    if ContinuesSet(At(s, r)) || At(s, r) == 'S' then
      if r <= p then Stuck
      else ScanWith(parse, s, r, conds + [c], if At(s, r) == 'S' then sets + 1 else sets)
    else Parsed(conds + [c], sets + 1)
  }

  function ScanMemaddr(s: string, layout: MemoryLayout): Scan
  {
    ScanWith(CondParser(s, layout), s, 0, [], 0)
  }

  /**
   * One turn of the scan: the condition read at `p` is appended, and either
   * the scan goes on strictly further along `s` or it ends here.
   */
  lemma ScanStep(parse: CondReader, s: string, p: nat, conds: seq<Cond>, sets: nat, c: Cond, r: nat)
    requires p <= |s| && ScanWith(parse, s, p, conds, sets).Parsed?
    requires (c, r) == parse(SkipSeps(s, p))
    ensures |ScanWith(parse, s, p, conds, sets).conds| > |conds|
    ensures ContinuesSet(At(s, r)) || At(s, r) == 'S' ==>
              p < r <= |s| &&
              ScanWith(parse, s, p, conds, sets) ==
              ScanWith(parse, s, r, conds + [c], if At(s, r) == 'S' then sets + 1 else sets)
    ensures !ContinuesSet(At(s, r)) && At(s, r) != 'S' ==>
              ScanWith(parse, s, p, conds, sets) == Parsed(conds + [c], sets + 1)
  {
    ScanExtends(parse, s, p, conds, sets);
  }

  lemma {:induction false} ScanExtends(parse: CondReader, s: string, p: nat, conds: seq<Cond>, sets: nat)
    requires p <= |s| && ScanWith(parse, s, p, conds, sets).Parsed?
    ensures var r := ScanWith(parse, s, p, conds, sets);
            |r.conds| > |conds| && r.conds[..|conds|] == conds && r.sets > sets
    decreases |s| - p
  {
    var (c, r) := parse(SkipSeps(s, p));
    if ContinuesSet(At(s, r)) || At(s, r) == 'S' {
      var sets' := if At(s, r) == 'S' then sets + 1 else sets;
      ScanExtends(parse, s, r, conds + [c], sets');
      var res := ScanWith(parse, s, r, conds + [c], sets');
      assert res.conds[..|conds|] == res.conds[..|conds + [c]|][..|conds|];
    }
  }

  /** A MemAddr string that scans at all has at least one condition and one set. */
  lemma ScanHasConditions(s: string, layout: MemoryLayout)
    requires ScanMemaddr(s, layout).Parsed?
    ensures |ScanMemaddr(s, layout).conds| >= 1 && ScanMemaddr(s, layout).sets >= 1
  {
    ScanExtends(CondParser(s, layout), s, 0, [], 0);
  }

  /**
   * The head of each scanner iteration: skip separators, then parse one
   * condition.
   */
  method ReadNextCond(s: string, layout: MemoryLayout, p: nat) returns (c: Cond, r: nat)
    requires p <= |s|
    ensures (c, r) == CondParser(s, layout)(SkipSeps(s, p))
  {
    var q := p;
    while IsSkipped(At(s, q))
      invariant p <= q <= |s| && SkipSeps(s, p) == SkipSeps(s, q)
      decreases |s| - q
    {
      q := q + 1;
    }
    c, r := ParseCond(s, layout, q).0, ParseCond(s, layout, q).1;
  }

  /** `cheevos_count_cond_sets`: one more set after every condition not followed by `_`, `R` or `P`. */
  method CountCondSets(s: string, layout: MemoryLayout) returns (count: nat)
    requires ScanMemaddr(s, layout).Parsed?
    ensures count == ScanMemaddr(s, layout).sets
  {
    count := 0;
    var p := 0;
    ghost var conds: seq<Cond> := [];
    ghost var parse := CondParser(s, layout);
    ghost var scan := ScanMemaddr(s, layout);
    while true
      invariant p <= |s|
      invariant scan == ScanWith(parse, s, p, conds, count)
      decreases |s| - p
    {
      var c, r := ReadNextCond(s, layout, p);
      ScanStep(parse, s, p, conds, count, c, r);
      p := r;
      conds := conds + [c];
      if !ContinuesSet(At(s, p)) {
        count := count + 1;
        if At(s, p) != 'S' {
          break;
        }
      }
    }
  }

  /**
   * `cheevos_count_conds_in_set`: counts the conditions scanned while the
   * set index equals `setIndex`.  The index is never advanced, so set 0
   * gets every condition and every other set none.
   */
  method CountCondsInSet(s: string, layout: MemoryLayout, setIndex: nat) returns (count: nat)
    requires ScanMemaddr(s, layout).Parsed?
    ensures count == if setIndex == 0 then |ScanMemaddr(s, layout).conds| else 0
  {
    var index := 0;
    count := 0;
    var p := 0;
    ghost var conds: seq<Cond> := [];
    ghost var sets := 0;
    ghost var parse := CondParser(s, layout);
    ghost var scan := ScanMemaddr(s, layout);
    while true
      invariant p <= |s|
      invariant scan == ScanWith(parse, s, p, conds, sets)
      invariant count == if setIndex == 0 then |conds| else 0
      decreases |s| - p
    {
      var c, r := ReadNextCond(s, layout, p);
      ScanStep(parse, s, p, conds, sets, c, r);
      p := r;
      conds := conds + [c];
      if index == setIndex {
        count := count + 1;
      }
      if !ContinuesSet(At(s, p)) {
        sets := sets + 1;
        if At(s, p) != 'S' {
          break;
        }
      }
    }
  }

  /**
   * `cheevos_parse_memaddr`: writes every condition of the string, in order,
   * into consecutive slots of `conds`; the slots after them are untouched.
   */
  method ParseMemaddr(conds: array<Cond>, s: string, layout: MemoryLayout)
    requires ScanMemaddr(s, layout).Parsed? && |ScanMemaddr(s, layout).conds| <= conds.Length
    modifies conds
    ensures var parsed := ScanMemaddr(s, layout).conds;
            conds[..|parsed|] == parsed &&
            forall i :: |parsed| <= i < conds.Length ==> conds[i] == old(conds[i])
  {
    var k := 0;
    var p := 0;
    ghost var written: seq<Cond> := [];
    ghost var sets := 0;
    ghost var parse := CondParser(s, layout);
    ghost var scan := ScanMemaddr(s, layout);
    while true
      invariant p <= |s| && k == |written| <= conds.Length
      invariant scan == ScanWith(parse, s, p, written, sets)
      invariant conds[..k] == written
      invariant forall i :: k <= i < conds.Length ==> conds[i] == old(conds[i])
      decreases |s| - p
    {
      var c, r := ReadNextCond(s, layout, p);
      ScanStep(parse, s, p, written, sets, c, r);
      Put(conds, k, c, written);
      written := written + [c];
      k := k + 1;
      if !ContinuesSet(At(s, r)) && At(s, r) != 'S' {
        return;
      }
      sets := if At(s, r) == 'S' then sets + 1 else sets;
      p := r;
    }
  }

  /** Stores `c` just after the conditions already written; the later slots keep their values. */
  method Put(conds: array<Cond>, k: nat, c: Cond, ghost written: seq<Cond>)
    requires k == |written| < conds.Length && conds[..k] == written
    modifies conds
    ensures conds[..k + 1] == written + [c]
    ensures forall i :: k < i < conds.Length ==> conds[i] == old(conds[i])
  {
    conds[k] := c;
    assert conds[..k + 1] == conds[..k] + [c];
  }

  // ---------------------------------------------------------------------
  // Written MemAddr strings

  /** Between two written conditions: `_` continues the set, `S` starts a new one. */
  predicate IsSeparator(c: char)
  {
    c == '_' || c == 'S'
  }

  /** Texts written one after another with the given separators between them. */
  function Joined(texts: seq<string>, seps: seq<char>): string
    requires |texts| == |seps| + 1
    decreases |seps|
  {
    if |seps| == 0 then texts[0]
    else texts[0] + [seps[0]] + Joined(texts[1..], seps[1..])
  }

  /** The written form of each condition. */
  function CondTexts(cs: seq<CondSyntax>): (r: seq<string>)
    ensures |r| == |cs|
  {
    seq(|cs|, i requires 0 <= i < |cs| => CondText(cs[i]))
  }

  /** A MemAddr string written from conditions and separators. */
  function MemaddrText(cs: seq<CondSyntax>, seps: seq<char>): string
    requires |cs| == |seps| + 1
  {
    Joined(CondTexts(cs), seps)
  }

  function CondValues(cs: seq<CondSyntax>, layout: MemoryLayout): (r: seq<Cond>)
    ensures |r| == |cs|
  {
    seq(|cs|, i requires 0 <= i < |cs| => CondValue(cs[i], layout))
  }

  /** How many separators start a new set. */
  function NewSets(seps: seq<char>): nat
  {
    if |seps| == 0 then 0 else (if seps[0] == 'S' then 1 else 0) + NewSets(seps[1..])
  }

  /** A character after the last condition that stops every scanner. */
  predicate EndsMemaddr(c: char)
  {
    EndsCondition(c) && !ContinuesSet(c) && c != 'S'
  }

  lemma CondTextStart(c: CondSyntax)
    ensures |CondText(c)| >= 1 && !IsSkipped(CondText(c)[0])
  {
    OperandStart(c.source);
    var a := TypeText(c.condType);
    var b := OperandText(c.source);
    assert CondText(c)[0] == (a + b)[0];
  }

  lemma {:induction false} JoinedStart(texts: seq<string>, seps: seq<char>)
    requires |texts| == |seps| + 1 && |texts[0]| >= 1
    ensures |Joined(texts, seps)| >= 1 && Joined(texts, seps)[0] == texts[0][0]
  {
  }

  /**
   * Texts written at `q` one after another, each followed by its separator,
   * the last by a character that stops the scanners.
   */
  predicate WrittenAt(s: string, q: nat, texts: seq<string>, seps: seq<char>)
    requires |texts| == |seps| + 1
    decreases |seps|
  {
    TextAt(s, q, texts[0]) &&
    if |seps| == 0 then EndsMemaddr(At(s, q + |texts[0]|))
    else IsSeparator(seps[0]) && At(s, q + |texts[0]|) == seps[0] && WrittenAt(s, q + |texts[0]| + 1, texts[1..], seps[1..])
  }

  lemma TextAtSeparated(s: string, q: nat, t0: string, sep: char, rest: string)
    requires TextAt(s, q, t0 + [sep] + rest)
    ensures TextAt(s, q, t0) && At(s, q + |t0|) == sep && TextAt(s, q + |t0| + 1, rest)
  {
    TextAtSplit(s, q, t0 + [sep], rest);
    TextAtSplit(s, q, t0, [sep]);
    TextAtChar(s, q + |t0|, [sep], 0);
    assert |t0 + [sep]| == |t0| + 1;
  }

  lemma {:induction false} TextWritten(s: string, q: nat, texts: seq<string>, seps: seq<char>, e: nat)
    requires |texts| == |seps| + 1 && forall i :: 0 <= i < |seps| ==> IsSeparator(seps[i])
    requires TextAt(s, q, Joined(texts, seps)) && e == q + |Joined(texts, seps)| && EndsMemaddr(At(s, e))
    ensures WrittenAt(s, q, texts, seps)
    decreases |seps|
  {
    if |seps| > 0 {
      var rest := Joined(texts[1..], seps[1..]);
      TextAtSeparated(s, q, texts[0], seps[0], rest);
      assert IsSeparator(seps[0]);
      assert forall i :: 0 <= i < |seps[1..]| ==> IsSeparator(seps[1..][i]) by {
        forall i | 0 <= i < |seps[1..]|
          ensures IsSeparator(seps[1..][i])
        {
          assert seps[1..][i] == seps[i + 1];
        }
      }
      TextWritten(s, q + |texts[0]| + 1, texts[1..], seps[1..], e);
    }
  }

  /** No text is empty or starts with a character the scanners skip. */
  predicate StartsUnskipped(texts: seq<string>)
  {
    forall i :: 0 <= i < |texts| ==> |texts[i]| >= 1 && !IsSkipped(texts[i][0])
  }

  /**
   * `parse` reads `t` back as `v` wherever `t` is written in `s` and
   * followed by a character that ends a condition.
   */
  ghost predicate ReadsBackAt(parse: CondReader, s: string, t: string, v: Cond)
  {
    forall q: nat {:trigger TextAt(s, q, t)} ::
      TextAt(s, q, t) && EndsCondition(At(s, q + |t|)) ==> parse(q) == (v, q + |t|)
  }

  ghost predicate ReadsBack(parse: CondReader, s: string, texts: seq<string>, vals: seq<Cond>)
    requires |texts| == |vals|
  {
    forall i :: 0 <= i < |texts| ==> ReadsBackAt(parse, s, texts[i], vals[i])
  }

  lemma ReadsBackTail(parse: CondReader, s: string, texts: seq<string>, vals: seq<Cond>)
    requires |texts| == |vals| >= 1 && ReadsBack(parse, s, texts, vals) && StartsUnskipped(texts)
    ensures ReadsBack(parse, s, texts[1..], vals[1..]) && StartsUnskipped(texts[1..])
  {
    forall i | 0 <= i < |texts[1..]|
      ensures ReadsBackAt(parse, s, texts[1..][i], vals[1..][i])
      ensures |texts[1..][i]| >= 1 && !IsSkipped(texts[1..][i][0])
    {
      assert texts[1..][i] == texts[i + 1] && vals[1..][i] == vals[i + 1];
    }
  }

  /** The first written text parses back, and what follows it is laid out for the next step. */
  lemma WrittenHead(parse: CondReader, s: string, q: nat, texts: seq<string>, vals: seq<Cond>, seps: seq<char>)
    requires |texts| == |vals| == |seps| + 1 && ReadsBack(parse, s, texts, vals) && StartsUnskipped(texts)
    requires WrittenAt(s, q, texts, seps)
    ensures var r := q + |texts[0]|;
            parse(q) == (vals[0], r) &&
            (|seps| == 0 ==> EndsMemaddr(At(s, r))) &&
            (|seps| > 0 ==> r < |s| && At(s, r) == seps[0] && SkipSeps(s, r) == r + 1 &&
                            WrittenAt(s, r + 1, texts[1..], seps[1..]))
  {
    var r := q + |texts[0]|;
    assert EndsCondition(At(s, r));
    assert ReadsBackAt(parse, s, texts[0], vals[0]);
    if |seps| > 0 {
      TextAtChar(s, r + 1, texts[1], 0);
    }
  }

  /** One scan step over a condition that continues or ends the input. */
  lemma ScanWithStep(parse: CondReader, s: string, p: nat, conds: seq<Cond>, sets: nat, v: Cond, r: nat)
    requires p < r <= |s| && parse(SkipSeps(s, p)) == (v, r)
    ensures ScanWith(parse, s, p, conds, sets) ==
            if ContinuesSet(At(s, r)) || At(s, r) == 'S' then
              ScanWith(parse, s, r, conds + [v], if At(s, r) == 'S' then sets + 1 else sets)
            else Parsed(conds + [v], sets + 1)
  {
  }

  /**
   * Scanning texts written one after another, from a cursor whose skipped
   * separators lead to them, reads back each value in order and counts one
   * set per `S` plus the last.
   */
  lemma {:induction false} ScanWritten(parse: CondReader, s: string, p: nat, texts: seq<string>, vals: seq<Cond>,
                                       seps: seq<char>, conds: seq<Cond>, sets: nat)
    requires |texts| == |vals| == |seps| + 1 && ReadsBack(parse, s, texts, vals) && StartsUnskipped(texts)
    requires p <= |s| && WrittenAt(s, SkipSeps(s, p), texts, seps)
    ensures ScanWith(parse, s, p, conds, sets) == Parsed(conds + vals, sets + 1 + NewSets(seps))
    decreases |seps|
  {
    var q := SkipSeps(s, p);
    var r := q + |texts[0]|;
    WrittenHead(parse, s, q, texts, vals, seps);
    if |seps| == 0 {
      assert vals == [vals[0]];
    } else {
      ScanWithStep(parse, s, p, conds, sets, vals[0], r);
      ReadsBackTail(parse, s, texts, vals);
      ScanWritten(parse, s, r, texts[1..], vals[1..], seps[1..], conds + [vals[0]], sets + (if seps[0] == 'S' then 1 else 0));
      assert conds + vals == (conds + [vals[0]]) + vals[1..];
    }
  }

  /** Texts joined into a whole string scan back to their values. */
  lemma ScanJoined(parse: CondReader, s: string, texts: seq<string>, vals: seq<Cond>, seps: seq<char>)
    requires |texts| == |vals| == |seps| + 1 && forall i :: 0 <= i < |seps| ==> IsSeparator(seps[i])
    requires s == Joined(texts, seps) && ReadsBack(parse, s, texts, vals) && StartsUnskipped(texts)
    ensures ScanWith(parse, s, 0, [], 0) == Parsed(vals, 1 + NewSets(seps))
  {
    JoinedStart(texts, seps);
    assert SkipSeps(s, 0) == 0;
    TextAtSuffix(s, 0);
    assert s[0..] == s;
    TextWritten(s, 0, texts, seps, |s|);
    ScanWritten(parse, s, 0, texts, vals, seps, [], 0);
  }

  lemma CondReadBack(s: string, layout: MemoryLayout, c: CondSyntax)
    ensures ReadsBackAt(CondParser(s, layout), s, CondText(c), CondValue(c, layout))
  {
    forall q: nat | TextAt(s, q, CondText(c)) && EndsCondition(At(s, q + |CondText(c)|))
      ensures CondParser(s, layout)(q) == (CondValue(c, layout), q + |CondText(c)|)
    {
      CondRoundTrip(s, q, c, layout);
    }
  }

  /** The condition parser reads every written condition back. */
  lemma CondsReadBack(s: string, layout: MemoryLayout, cs: seq<CondSyntax>)
    ensures ReadsBack(CondParser(s, layout), s, CondTexts(cs), CondValues(cs, layout))
  {
    var texts := CondTexts(cs);
    var vals := CondValues(cs, layout);
    forall i | 0 <= i < |cs|
      ensures ReadsBackAt(CondParser(s, layout), s, texts[i], vals[i])
    {
      CondReadBack(s, layout, cs[i]);
    }
  }

  lemma CondTextsStart(cs: seq<CondSyntax>)
    ensures StartsUnskipped(CondTexts(cs))
  {
    forall i | 0 <= i < |cs|
      ensures |CondTexts(cs)[i]| >= 1 && !IsSkipped(CondTexts(cs)[i][0])
    {
      CondTextStart(cs[i]);
    }
  }

  /**
   * A MemAddr string written from conditions and separators scans back to
   * exactly those conditions, with one set per `S` plus one.
   */
  lemma MemaddrRoundTrip(cs: seq<CondSyntax>, seps: seq<char>, layout: MemoryLayout)
    requires |cs| == |seps| + 1 && forall i :: 0 <= i < |seps| ==> IsSeparator(seps[i])
    ensures ScanMemaddr(MemaddrText(cs, seps), layout) == Parsed(CondValues(cs, layout), 1 + NewSets(seps))
  {
    var s := MemaddrText(cs, seps);
    CondsReadBack(s, layout, cs);
    CondTextsStart(cs);
    ScanJoined(CondParser(s, layout), s, CondTexts(cs), CondValues(cs, layout), seps);
  }

  /** Nothing of a condition can be read from an `R` that is not followed by `:`. */
  lemma BareResetReadsNothing(s: string, layout: MemoryLayout, p: nat)
    requires At(s, p) == 'R' && At(s, p + 1) != ':'
    ensures ParseCond(s, layout, p).1 == p
  {
    assert ReadCondType(s, p) == (Standard, p);
    assert DigitEnd(s, p, 10) == p;
    assert ParseVar(s, layout, p).1 == p;
    assert ParseOperator(s, p) == (Equals, p);
    assert ReadHits(s, p) == (0, p);
  }

  /** A first condition that ends at a bare `R` leaves the scan stuck there. */
  lemma StuckAt(s: string, layout: MemoryLayout, n: nat)
    requires 0 < n && !IsSkipped(At(s, 0)) && ParseCond(s, layout, 0).1 == n
    requires At(s, n) == 'R' && At(s, n + 1) != ':'
    ensures ScanMemaddr(s, layout).Stuck?
  {
    var parse := CondParser(s, layout);
    assert SkipSeps(s, 0) == 0;
    assert parse(0) == ParseCond(s, layout, 0);
    assert SkipSeps(s, n) == n;
    BareResetReadsNothing(s, layout, n);
    assert parse(n) == ParseCond(s, layout, n);
    var first := ParseCond(s, layout, 0).0;
    assert ScanWith(parse, s, n, [first], 0) == Stuck;
    assert [] + [first] == [first];
    assert ScanWith(parse, s, 0, [], 0) == ScanWith(parse, s, n, [first], 0);
  }

  /**
   * A condition followed by a bare `R` (one without its `:`): the `R`
   * continues the set, but no part of a condition can be read from it, so
   * the next condition is read at the same cursor again and again. The
   * source's do-while loops never end on such a string; the model's scan
   * reports `Stuck`.
   */
  lemma StuckOnBareReset(c: CondSyntax, layout: MemoryLayout)
    ensures ScanMemaddr(CondText(c) + "R", layout).Stuck?
  {
    var s := CondText(c) + "R";
    var n := |CondText(c)|;
    assert TextAt(s, 0, CondText(c)) by {
      forall i | 0 <= i < n ensures At(s, i) == CondText(c)[i] {
        assert s[i] == CondText(c)[i];
      }
    }
    assert At(s, n) == 'R' && At(s, n + 1) == '\0';
    CondTextStart(c);
    assert At(s, 0) == CondText(c)[0];
    CondRoundTrip(s, 0, c, layout);
    StuckAt(s, layout, n);
  }
}
