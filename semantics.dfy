/** A 32-bit evaluator for the general-purpose instructions the core
    selects, following the fixed-point instruction definitions of the Power
    ISA (Book I): immediates are 16-bit fields, `addi`/`addis`/`mulli`
    sign-extend theirs, `andi.`/`ori`/`xori` zero-extend theirs, and an RA
    field of 0 in `addi`/`addis` reads as the value 0, not register r0. */
module Semantics {
  import opened Kinds
  import opened Operators

  type Word = x: int | 0 <= x < 0x1_0000_0000

  /** Truncation to a 32-bit register. */
  function ToWord(x: int): Word {
    x % 0x1_0000_0000
  }

  /** Python's `v & 0xFFFF`: the low 16 bits, never negative. */
  function Low16(v: int): (r: int)
    ensures 0 <= r < 0x10000
  {
    v % 0x10000
  }

  /** The low 16 bits of v read as a signed halfword (EXTS of a 16-bit field). */
  function SignExt16(v: int): (r: int)
    ensures -0x8000 <= r < 0x8000
    ensures Low16(r) == Low16(v)
  {
    var lo := Low16(v);
    if lo < 0x8000 then lo else lo - 0x10000
  }

  /** The general-purpose registers; a register never written reads 0. */
  type Regs = map<Reg, Word>

  function Get(regs: Regs, r: Reg): Word {
    if r in regs then regs[r] else 0
  }

  /** `(RA|0)`: register 0 in the RA field of addi/addis stands for 0. */
  function BaseOf(regs: Regs, ra: Reg): Word {
    if ra == 0 then 0 else Get(regs, ra)
  }

  // ---- instructions appended to a stream ----

  /** The instructions the literal materializers emit. */
  datatype Insn =
    | AddImm(rt: Reg, ra: Reg, simm: int)          // addi rt, ra, simm
    | AddImmShifted(rt: Reg, ra: Reg, simm: int)   // addis rt, ra, simm
    | LoadFloatSingle(frt: Reg, ra: Reg, d: int)   // lfs frt, d(ra)
    | LoadFloatDouble(frt: Reg, ra: Reg, d: int)   // lfd frt, d(ra)

  /** The instruction's effect on the general-purpose registers (a float
      load writes only a floating-point register). */
  function Step(regs: Regs, i: Insn): Regs {
    match i
    case AddImm(rt, ra, simm) => regs[rt := ToWord(BaseOf(regs, ra) + SignExt16(simm))]
    case AddImmShifted(rt, ra, simm) => regs[rt := ToWord(BaseOf(regs, ra) + SignExt16(simm) * 0x10000)]
    case LoadFloatSingle(_, _, _) => regs
    case LoadFloatDouble(_, _, _) => regs
  }

  function Run(regs: Regs, prog: seq<Insn>): Regs
    decreases |prog|
  {
    if prog == [] then regs else Run(Step(regs, prog[0]), prog[1..])
  }

  lemma {:induction false} RunAppend(regs: Regs, p: seq<Insn>, q: seq<Insn>)
    ensures Run(regs, p + q) == Run(Run(regs, p), q)
    decreases |p|
  {
    if p == [] {
      assert p + q == q;
    } else {
      assert (p + q)[1..] == p[1..] + q;
      RunAppend(Step(regs, p[0]), p[1..], q);
    }
  }

  // ---- Expression trees built by the operators ----

  /** The host integer a literal operand supplies as an immediate. */
  function ImmOf(o: Operand): Option<int> {
    match o
    case IntLit(i) => Some(i)
    case LongLit(i) => Some(i)
    case Immediate(i) => Some(i)
    case _ => None
  }

  /** Register contents as bit patterns, for the operators' instructions. */
  type Bits32 = bv32

  type BitRegs = map<Reg, Bits32>

  /** The register file the Expression evaluator reads. */
  function AsBits(regs: Regs): BitRegs {
    map r | r in regs :: Pattern(regs[r])
  }

  /** The 32-bit pattern of an integer: its low 32 bits, two's complement. */
  function Pattern(x: int): Bits32 {
    ToWord(x) as Bits32
  }

  /** Writing a register and then reading the file as bit patterns is
      writing the pattern. */
  lemma AsBitsUpdate(regs: Regs, r: Reg, v: Word)
    ensures AsBits(regs[r := v]) == AsBits(regs)[r := Pattern(v)]
  {
  }

  /** A register's bit pattern, read as an integer and converted back, is
      itself: the evaluator and the register file agree on every word. */
  lemma PatternOfBits(v: Bits32)
    ensures Pattern(v as int) == v
  {
    WordPattern(v as int);
    BitsRoundTrip(v);
  }

  lemma WordPattern(x: int)
    requires 0 <= x < 0x1_0000_0000
    ensures Pattern(x) == x as Bits32
  {
  }

  lemma BitsRoundTrip(v: Bits32)
    ensures (v as int) as Bits32 == v
  {
  }

  /** `slw`/`srw`: the shift count is the low six bits of RB; a count of
      32 or more clears the register. */
  function ShiftLeft(x: Bits32, y: Bits32): Bits32 {
    var n := y & 0x3F;
    if n < 32 then x << n else 0
  }

  function ShiftRight(x: Bits32, y: Bits32): Bits32 {
    var n := y & 0x3F;
    if n < 32 then x >> n else 0
  }

  /** The 32-bit value a typed operand holds: a Variable's register, or the
      value of the Expression's instruction applied to its operands.  A
      Direct result is an instruction object and has no value; literals are
      only read as immediates by the instruction that takes them. */
  function Eval(regs: BitRegs, o: Operand): Option<Bits32>
    decreases o
  {
    match o
    case Variable(_, r) => Some(if r in regs then regs[r] else 0)
    case Expr(n) => if n.build == Direct then None else EvalNode(regs, n)
    case _ => None
  }

  function EvalNode(regs: BitRegs, n: Node): Option<Bits32>
    decreases n
  {
    if |n.operands| != 2 then None
    else
      // `addi` reads an RA field of 0 as the value 0, so a Variable bound
      // to r0 contributes nothing
      var x := if n.instr == Addi && n.operands[0].Variable? && n.operands[0].reg == 0
               then Some(0) else Eval(regs, n.operands[0]);
      if x.None? then None
      else if ImmediateForm(n.instr) then
        var imm := ImmOf(n.operands[1]);
        if imm.None? then None else ImmediateOp(n.instr, x.value, imm.value)
      else
        var y := Eval(regs, n.operands[1]);
        if y.None? then None else RegisterOp(n.instr, x.value, y.value)
  }

  /** A register-immediate instruction applied to a register and a literal;
      none for `mulli`, whose product the evaluator leaves out. */
  function ImmediateOp(i: Instr, x: Bits32, imm: int): Option<Bits32>
    requires ImmediateForm(i)
  {
    match i
    case Andi => Some(x & Pattern(Low16(imm)))
    case Ori => Some(x | Pattern(Low16(imm)))
    case Xori => Some(x ^ Pattern(Low16(imm)))
    case Addi => Some(x + Pattern(SignExt16(imm)))
    case Mulli => None
  }

  /** A register-register instruction applied to two registers; none for
      the multiply, divide and floating-point templates, which the evaluator
      leaves out. */
  function RegisterOp(i: Instr, x: Bits32, y: Bits32): Option<Bits32> {
    match i
    case Andx => Some(x & y)
    case Orx => Some(x | y)
    case Xorx => Some(x ^ y)
    case Slwx => Some(ShiftLeft(x, y))
    case Srwx => Some(ShiftRight(x, y))
    case Addx => Some(x + y)
    case Subfx => Some(y - x)   // subf rt, ra, rb: rb - ra
    case _ => None
  }

  /** The reference meaning of the three logical operators on words. */
  function Logical(op: Op, x: Bits32, y: Bits32): Bits32
    requires IsLogical(op)
  {
    match op
    case And => x & y
    case Or => x | y
    case Xor => x ^ y
  }

  /** Evaluating a register-register Expression applies its template to
      the values of its two operands. */
  lemma RegisterNodeEval(regs: BitRegs, n: Node, x: Bits32, y: Bits32)
    requires n.build != Direct && |n.operands| == 2 && !ImmediateForm(n.instr)
    requires Eval(regs, n.operands[0]) == Some(x) && Eval(regs, n.operands[1]) == Some(y)
    ensures Eval(regs, Expr(n)) == RegisterOp(n.instr, x, y)
  {
  }

  /** Evaluating a register-immediate Expression applies its template to
      the value of its first operand and the literal, unless that operand is
      a Variable in r0 feeding `addi`. */
  lemma ImmediateNodeEval(regs: BitRegs, n: Node, x: Bits32, imm: int)
    requires n.build != Direct && |n.operands| == 2 && ImmediateForm(n.instr)
    requires !(n.instr == Addi && n.operands[0].Variable? && n.operands[0].reg == 0)
    requires Eval(regs, n.operands[0]) == Some(x) && ImmOf(n.operands[1]) == Some(imm)
    ensures Eval(regs, Expr(n)) == ImmediateOp(n.instr, x, imm)
  {
  }

  /** `&`, `|`, `^` with a value of the bit hierarchy compute the logical
      operation of the two registers. */
  lemma BitLogicalComputes(regs: BitRegs, op: Op, self: Operand, other: Operand, x: Bits32, y: Bits32)
    requires IsLogical(op) && IsInstance(self, Bits) && IsInstance(other, Bits)
    requires Eval(regs, self) == Some(x) && Eval(regs, other) == Some(y)
    ensures BitLogical(op, self, other).Ok?
    ensures Eval(regs, Expr(BitLogical(op, self, other).value)) == Some(Logical(op, x, y))
  {
    var n := BitLogical(op, self, other).value;
    assert n.operands == [self, other] && n.build == Factory;
    assert n.instr == match op case And => Andx case Or => Orx case _ => Xorx;
    RegisterNodeEval(regs, n, x, y);
  }

  /** `&`, `|`, `^` with an Immediate, int or long combine the register with
      the literal's low halfword, zero-extended. */
  lemma BitLogicalImmediateComputes(regs: BitRegs, op: Op, self: Operand, other: Operand, x: Bits32, imm: int)
    requires IsLogical(op) && IsInstance(self, Bits) && Eval(regs, self) == Some(x)
    requires IsIntLiteral(other) && ImmOf(other) == Some(imm)
    ensures BitLogical(op, self, other).Ok?
    ensures Eval(regs, Expr(BitLogical(op, self, other).value)) == Some(Logical(op, x, Pattern(Low16(imm))))
  {
    var n := BitLogical(op, self, other).value;
    assert n.operands == [self, other] && n.build == Factory;
    assert n.instr == match op case And => Andi case Or => Ori case _ => Xori;
    ImmediateNodeEval(regs, n, x, imm);
  }

  /** `<<` and `>>` between values of the bit hierarchy shift the first
      register by the second, as `slw`/`srw` define it. */
  lemma BitShiftComputes(regs: BitRegs, op: Op, self: Operand, other: Operand, x: Bits32, y: Bits32)
    requires (op == Lshift || op == Rshift) && IsInstance(self, Bits) && IsInstance(other, Bits)
    requires Eval(regs, self) == Some(x) && Eval(regs, other) == Some(y)
    ensures BitShift(op, self, other).Ok?
    ensures Eval(regs, Expr(BitShift(op, self, other).value))
            == Some(if op == Lshift then ShiftLeft(x, y) else ShiftRight(x, y))
  {
    var n := BitShift(op, self, other).value;
    var i := if op == Lshift then Slwx else Srwx;
    assert n == Node(Factory, i, [self, other], Some(UserClass(TypeCls(self).value, VarClass)));
    RegisterNodeEval(regs, n, x, y);
  }

  /** SignedWord `-` swaps its operands into `subfx`, and subf subtracts its
      first operand from its second, so the Expression computes self - other. */
  lemma SignedSubComputesDifference(regs: BitRegs, self: Operand, other: Operand, x: Bits32, y: Bits32)
    requires IsInstance(self, SignedWord) && IsInstance(other, SignedWord)
    requires Eval(regs, self) == Some(x) && Eval(regs, other) == Some(y)
    ensures SignedSub(self, other).Ok?
    ensures Eval(regs, Expr(SignedSub(self, other).value)) == Some(x - y)
  {
    var n := SignedSub(self, other).value;
    assert n == Node(ExprCtor, Subfx, [other, self], Some(UserClass(SignedWord, ExprClass)));
    RegisterNodeEval(regs, n, y, x);
  }

  /** Word `+` of two signed words computes their 32-bit sum. */
  lemma SignedAddComputesSum(regs: BitRegs, self: Operand, other: Operand, x: Bits32, y: Bits32)
    requires IsInstance(self, SignedWord) && IsInstance(other, SignedWord)
    requires Eval(regs, self) == Some(x) && Eval(regs, other) == Some(y)
    ensures SignedAdd(self, other).Ok?
    ensures Eval(regs, Expr(SignedAdd(self, other).value)) == Some(x + y)
  {
    var n := SignedAdd(self, other).value;
    assert n == Node(Factory, Addx, [self, other], Some(UserClass(SignedWord, VarClass)));
    RegisterNodeEval(regs, n, x, y);
  }

  /** Word `+` of two unsigned words computes their 32-bit sum. */
  lemma UnsignedAddComputesSum(regs: BitRegs, self: Operand, other: Operand, x: Bits32, y: Bits32)
    requires IsInstance(self, UnsignedWord) && IsInstance(other, UnsignedWord)
    requires Eval(regs, self) == Some(x) && Eval(regs, other) == Some(y)
    ensures UnsignedAdd(self, other).Ok?
    ensures Eval(regs, Expr(UnsignedAdd(self, other).value)) == Some(x + y)
  {
    var n := UnsignedAdd(self, other).value;
    assert n == Node(Factory, Addx, [self, other], Some(UserClass(UnsignedWord, VarClass)));
    RegisterNodeEval(regs, n, x, y);
  }

  /** Word `+` with an int or Immediate builds an `addi` Expression over
      (self, literal). */
  lemma SignedAddImmediateNode(self: Operand, other: Operand)
    requires IsInstance(self, SignedWord) && IsIntOrImmediate(other)
    ensures SignedAdd(self, other) == Ok(Node(ExprCtor, Addi, [self, other], Some(UserClass(SignedWord, ExprClass))))
  {
    assert !IsInstance(other, SignedWord);
  }

  /** Word `+` with an int or Immediate adds the literal's sign-extended
      low halfword (the literal itself when it fits 16 signed bits, by
      SignExt16OfHalfword), unless self is bound to r0. */
  lemma SignedAddImmediateComputesSum(regs: BitRegs, self: Operand, other: Operand, x: Bits32, imm: int)
    requires IsInstance(self, SignedWord) && Eval(regs, self) == Some(x)
    requires self != Variable(SignedWord, 0)
    requires IsIntOrImmediate(other) && ImmOf(other) == Some(imm)
    ensures SignedAdd(self, other).Ok?
    ensures Eval(regs, Expr(SignedAdd(self, other).value)) == Some(x + Pattern(SignExt16(imm)))
  {
    SignedAddImmediateNode(self, other);
    var n := Node(ExprCtor, Addi, [self, other], Some(UserClass(SignedWord, ExprClass)));
    assert !(self.Variable? && self.reg == 0);
    ImmediateNodeEval(regs, n, x, imm);
  }

  /** A signed word bound to r0 plus a literal yields only the literal's
      sign-extended low halfword, whatever r0 holds, since `addi` reads
      RA = 0 as 0. */
  lemma SignedAddImmediateOnR0(regs: BitRegs, other: Operand, imm: int)
    requires IsIntOrImmediate(other) && ImmOf(other) == Some(imm)
    ensures SignedAdd(Variable(SignedWord, 0), other).Ok?
    ensures Eval(regs, Expr(SignedAdd(Variable(SignedWord, 0), other).value)) == Some(Pattern(SignExt16(imm)))
  {
    var self := Variable(SignedWord, 0);
    SignedAddImmediateNode(self, other);
    var n := Node(ExprCtor, Addi, [self, other], Some(UserClass(SignedWord, ExprClass)));
    assert EvalNode(regs, n) == ImmediateOp(Addi, 0, imm);
  }

  /** A value that fits 16 signed bits is its own sign-extended halfword. */
  lemma SignExt16OfHalfword(v: int)
    requires -0x8000 <= v < 0x8000
    ensures SignExt16(v) == v
  {
    if v < 0 {
      assert Low16(v) == v + 0x10000;
    }
  }
}
