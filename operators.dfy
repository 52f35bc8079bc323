/** The per-kind operator tables: each operator checks its right operand,
    selects an instruction template and fixes the result's kind, or raises. */
module Operators {
  import opened Kinds
  import opened Precedence

  /** The more specific of two kinds of one hierarchy, none for unrelated
      kinds: the reference the upcasting operators are held to. */
  function MoreSpecific(x: Kind, y: Kind): Option<Kind> {
    if SubKind(x, y) then Some(x) else if SubKind(y, x) then Some(y) else None
  }

  /** `BitType._upcast`: `inst.ex(self, other, type_cls = _most_specific(self, other))`. */
  function Upcast(self: Operand, other: Operand, inst: Instr): (n: Node)
    requires HasTypeCls(self) && HasTypeCls(other)
    ensures n.build == Factory && n.instr == inst && n.operands == [self, other]
    ensures ResultKind(n) == MoreSpecific(TypeCls(self).value, TypeCls(other).value)
  {
    Node(Factory, inst, [self, other], MostSpecific(self, other, None).value)
  }

  predicate IsLogical(op: Op) { op == And || op == Or || op == Xor }

  /** `BitType.__and__`, `__or__`, `__xor__`: a value of the bit hierarchy
      selects the register form and upcasts; an Immediate, int or long
      selects the immediate form and keeps self's kind; anything else raises. */
  function BitLogical(op: Op, self: Operand, other: Operand): (r: Result<Node>)
    requires IsLogical(op)
    requires IsInstance(self, Bits)
    ensures r.Ok? <==> IsInstance(other, Bits) || IsIntLiteral(other)
    ensures r.Ok? ==> r.value.build == Factory && r.value.operands == [self, other]
    ensures r.Ok? ==> Performs(r.value.instr) == Some(op) && (ImmediateForm(r.value.instr) <==> !IsInstance(other, Bits))
    ensures r.Ok? ==> FileOf(r.value.instr) == RegisterFileOf(TypeCls(self).value)
    ensures IsInstance(other, Bits) ==> r.Ok? && ResultKind(r.value) == MoreSpecific(TypeCls(self).value, TypeCls(other).value)
    ensures !IsInstance(other, Bits) && IsIntLiteral(other) ==> r.Ok? && ResultKind(r.value) == TypeCls(self)
    ensures r.Err? ==> r.error == NotImplementedFor(op, TypeOf(self), TypeOf(other))
  {
    var ks := TypeCls(self).value;
    if IsInstance(other, Bits) then
      Ok(Upcast(self, other, match op case And => Andx case Or => Orx case _ => Xorx))
    else if IsIntLiteral(other) then
      Ok(Node(Factory, match op case And => Andi case Or => Ori case _ => Xori,
              [self, other], Some(UserClass(ks, VarClass))))
    else Err(NotImplementedFor(op, TypeOf(self), TypeOf(other)))
  }

  /** `BitType.__lshift__`, `__rshift__`: only a value of the bit hierarchy
      is accepted, so shifting by a literal raises. */
  function BitShift(op: Op, self: Operand, other: Operand): (r: Result<Node>)
    requires op == Lshift || op == Rshift
    requires IsInstance(self, Bits)
    ensures r.Ok? <==> IsInstance(other, Bits)
    ensures r.Ok? ==> (r.value.build == Factory && r.value.operands == [self, other]
              && Performs(r.value.instr) == Some(op) && ResultKind(r.value) == TypeCls(self)
              && FileOf(r.value.instr) == GP)
    ensures r.Err? ==> r.error == NotImplementedFor(op, TypeOf(self), TypeOf(other))
  {
    if IsInstance(other, Bits) then
      Ok(Node(Factory, if op == Lshift then Slwx else Srwx, [self, other],
              Some(UserClass(TypeCls(self).value, VarClass))))
    else Err(NotImplementedFor(op, TypeOf(self), TypeOf(other)))
  }

  /** `UnsignedWordType.__add__`: an unsigned word selects `addx`, an
      Immediate or int (not a long) builds an `addi` Expression. */
  function UnsignedAdd(self: Operand, other: Operand): (r: Result<Node>)
    requires IsInstance(self, UnsignedWord)
    ensures r.Ok? <==> IsInstance(other, UnsignedWord) || IsIntOrImmediate(other)
    ensures r.Ok? ==> r.value.operands == [self, other] && ResultKind(r.value) == Some(UnsignedWord)
    ensures r.Ok? ==> Performs(r.value.instr) == Some(Add) && (ImmediateForm(r.value.instr) <==> IsIntOrImmediate(other))
    ensures r.Ok? ==> FileOf(r.value.instr) == GP
    ensures r.Err? ==> r.error == NotImplementedFor(Add, TypeOf(self), TypeOf(other))
  {
    if IsInstance(other, UnsignedWord) then
      Ok(Node(Factory, Addx, [self, other], Some(UserClass(UnsignedWord, VarClass))))
    else if IsIntOrImmediate(other) then
      Ok(Node(ExprCtor, Addi, [self, other], Some(UserClass(UnsignedWord, ExprClass))))
    else Err(NotImplementedFor(Add, TypeOf(self), TypeOf(other)))
  }

  /** `UnsignedWordType.__div__`: only a SIGNED word divisor is accepted;
      any other operand reaches `raise NotImplemented`, which Python 2
      turns into a TypeError. */
  function UnsignedDiv(self: Operand, other: Operand): (r: Result<Node>)
    requires IsInstance(self, UnsignedWord)
    ensures r.Ok? <==> IsInstance(other, SignedWord)
    ensures r.Ok? ==> (r.value.build == ExprCtor && r.value.operands == [self, other]
              && r.value.instr == Divwux && ResultKind(r.value) == Some(UnsignedWord))
    ensures r.Err? ==> r.error == RaisedNotImplemented
  {
    if IsInstance(other, SignedWord) then
      Ok(Node(ExprCtor, Divwux, [self, other], Some(UserClass(UnsignedWord, ExprClass))))
    else Err(RaisedNotImplemented)
  }

  /** `SignedWordType.__add__`. */
  function SignedAdd(self: Operand, other: Operand): (r: Result<Node>)
    requires IsInstance(self, SignedWord)
    ensures r.Ok? <==> IsInstance(other, SignedWord) || IsIntOrImmediate(other)
    ensures r.Ok? ==> r.value.operands == [self, other] && ResultKind(r.value) == Some(SignedWord)
    ensures r.Ok? ==> Performs(r.value.instr) == Some(Add) && (ImmediateForm(r.value.instr) <==> IsIntOrImmediate(other))
    ensures r.Ok? ==> FileOf(r.value.instr) == GP
    ensures r.Err? ==> r.error == NotImplementedFor(Add, TypeOf(self), TypeOf(other))
  {
    if IsInstance(other, SignedWord) then
      Ok(Node(Factory, Addx, [self, other], Some(UserClass(SignedWord, VarClass))))
    else if IsIntOrImmediate(other) then
      Ok(Node(ExprCtor, Addi, [self, other], Some(UserClass(SignedWord, ExprClass))))
    else Err(NotImplementedFor(Add, TypeOf(self), TypeOf(other)))
  }

  /** `SignedWordType.__div__`: signed words only. */
  function SignedDiv(self: Operand, other: Operand): (r: Result<Node>)
    requires IsInstance(self, SignedWord)
    ensures r.Ok? <==> IsInstance(other, SignedWord)
    ensures r.Ok? ==> (r.value.build == ExprCtor && r.value.operands == [self, other]
              && r.value.instr == Divwx && ResultKind(r.value) == Some(SignedWord))
    ensures r.Err? ==> r.error == NotImplementedFor(Div, TypeOf(self), TypeOf(other))
  {
    if IsInstance(other, SignedWord) then
      Ok(Node(ExprCtor, Divwx, [self, other], Some(UserClass(SignedWord, ExprClass))))
    else Err(NotImplementedFor(Div, TypeOf(self), TypeOf(other)))
  }

  /** `SignedWordType.__mul__`: a signed word selects `mullwx`, an
      Immediate or int selects `mulli`. */
  function SignedMul(self: Operand, other: Operand): (r: Result<Node>)
    requires IsInstance(self, SignedWord)
    ensures r.Ok? <==> IsInstance(other, SignedWord) || IsIntOrImmediate(other)
    ensures r.Ok? ==> (r.value.build == ExprCtor && r.value.operands == [self, other]
              && ResultKind(r.value) == Some(SignedWord)
              && Performs(r.value.instr) == Some(Mul) && (ImmediateForm(r.value.instr) <==> IsIntOrImmediate(other))
              && FileOf(r.value.instr) == GP)
    ensures r.Err? ==> r.error == NotImplementedFor(Mul, TypeOf(self), TypeOf(other))
  {
    if IsInstance(other, SignedWord) then
      Ok(Node(ExprCtor, Mullwx, [self, other], Some(UserClass(SignedWord, ExprClass))))
    else if IsIntOrImmediate(other) then
      Ok(Node(ExprCtor, Mulli, [self, other], Some(UserClass(SignedWord, ExprClass))))
    else Err(NotImplementedFor(Mul, TypeOf(self), TypeOf(other)))
  }

  /** `SignedWordType.__neg__` calls `negx(...)` directly rather than
      `negx.ex(...)`: the result is an instruction object, which carries no
      kind and so is no operand for any typed operator. */
  function SignedNeg(self: Operand): (n: Node)
    requires IsInstance(self, SignedWord)
    ensures n.build == Direct && n.instr == Negx && n.operands == [self]
    ensures ResultKind(n) == None && !IsInstance(Expr(n), SignedWord)
  {
    Node(Direct, Negx, [self], Some(UserClass(SignedWord, VarClass)))
  }

  /** `SignedWordType.__sub__`: `subfx` with the operands swapped to
      (other, self), because subf subtracts its first operand from its
      second.  Its error message names `__add__`. */
  function SignedSub(self: Operand, other: Operand): (r: Result<Node>)
    requires IsInstance(self, SignedWord)
    ensures r.Ok? <==> IsInstance(other, SignedWord)
    ensures r.Ok? ==> (r.value.build == ExprCtor && r.value.operands == [other, self]
              && r.value.instr == Subfx && ResultKind(r.value) == Some(SignedWord))
    ensures r.Err? ==> r.error == NotImplementedFor(Add, TypeOf(self), TypeOf(other))
  {
    if IsInstance(other, SignedWord) then
      Ok(Node(ExprCtor, Subfx, [other, self], Some(UserClass(SignedWord, ExprClass))))
    else Err(NotImplementedFor(Add, TypeOf(self), TypeOf(other)))
  }

  /** The properties the operator contracts state of a template (what it
      performs, its register file, whether it takes an immediate, its
      precision) pick out a single template, except for the two word
      divides, which differ only in signedness and whose contracts name
      them outright. */
  lemma TemplateIsDetermined(i: Instr, j: Instr)
    requires Performs(i).Some? && Performs(i) == Performs(j) && FileOf(i) == FileOf(j)
    requires ImmediateForm(i) == ImmediateForm(j)
    requires SinglePrecision(i) == SinglePrecision(j) && DoublePrecision(i) == DoublePrecision(j)
    requires !(Performs(i) == Some(Div) && FileOf(i) == GP)
    ensures i == j
  {
  }

  predicate IsFloatKind(k: Kind) { k == SingleFloat || k == DoubleFloat }

  predicate IsArith(op: Op) { op == Add || op == Sub || op == Mul || op == Div }

  /** `SingleFloatType`/`DoubleFloatType` add, sub, mul, div: an operand
      of exactly self's precision selects the precision's form (`s`-suffixed
      for single); mixing precisions, a literal or anything else raises. */
  function FloatArith(prec: Kind, op: Op, self: Operand, other: Operand): (r: Result<Node>)
    requires IsFloatKind(prec) && IsArith(op)
    requires IsInstance(self, prec)
    ensures r.Ok? <==> IsInstance(other, prec)
    ensures r.Ok? ==> (r.value.build == Factory && r.value.operands == [self, other]
              && ResultKind(r.value) == Some(prec)
              && Performs(r.value.instr) == Some(op) && FileOf(r.value.instr) == FP
              && SinglePrecision(r.value.instr) == (prec == SingleFloat)
              && DoublePrecision(r.value.instr) == (prec == DoubleFloat))
    ensures r.Err? ==> r.error == NotImplementedFor(op, TypeOf(self), TypeOf(other))
  {
    if IsInstance(other, prec) then
      Ok(Node(Factory, FloatInstr(prec, op), [self, other], Some(UserClass(prec, VarClass))))
    else Err(NotImplementedFor(op, TypeOf(self), TypeOf(other)))
  }

  /** The template a float kind's arithmetic operator selects. */
  function FloatInstr(prec: Kind, op: Op): (i: Instr)
    requires IsFloatKind(prec) && IsArith(op)
    ensures Performs(i) == Some(op) && FileOf(i) == FP
    ensures SinglePrecision(i) == (prec == SingleFloat) && DoublePrecision(i) == (prec == DoubleFloat)
  {
    if prec == SingleFloat then
      match op case Add => Faddsx case Sub => Fsubsx case Mul => Fmulsx case _ => Fdivsx
    else
      match op case Add => Faddx case Sub => Fsubx case Mul => Fmulx case _ => Fdivx
  }

  /** `__abs__` and `__neg__` of both float kinds: `fabsx`/`fnegx` for
      either precision, keeping self's kind. */
  function FloatUnary(op: Op, self: Operand): (n: Node)
    requires op == Abs || op == Neg
    requires HasTypeCls(self) && IsFloatKind(TypeCls(self).value)
    ensures n.build == Factory && n.operands == [self]
    ensures Performs(n.instr) == Some(op) && FileOf(n.instr) == FP && !SinglePrecision(n.instr) && !DoublePrecision(n.instr)
    ensures ResultKind(n) == TypeCls(self)
  {
    Node(Factory, if op == Abs then Fabsx else Fnegx, [self], Some(UserClass(TypeCls(self).value, VarClass)))
  }

  /** The operators a kind's values support through operator syntax
      (the `__op__` methods, inherited along the type-class hierarchy). */
  predicate Defines(k: Kind, op: Op) {
    match k
    case Bits => op in {And, Or, Xor, Lshift, Rshift}
    case UnsignedWord => op in {And, Or, Xor, Lshift, Rshift, Add, Div}
    case SignedWord => op in {And, Or, Xor, Lshift, Rshift, Add, Div, Mul, Neg, Sub}
    case _ => op in {Abs, Add, Sub, Mul, Div, Neg}
  }

  /** The static aliases (`and_ = staticmethod(__and__)`, ...).  In
      SignedWordType the alias after `__mul__` rebinds `div` instead of
      defining `mul`, and `__neg__` gets no alias, so neither `mul` nor
      `neg` is reachable statically on signed words. */
  function StaticMember(k: Kind, name: string): (r: Option<Op>)
    ensures r.Some? ==> Defines(k, r.value)
  {
    var bits := map["and_" := And, "lshift" := Lshift, "rshift" := Rshift, "or_" := Or, "xor" := Xor];
    var table :=
      match k
      case Bits => bits
      case UnsignedWord => bits["add" := Add]["div" := Div]
      case SignedWord => bits["add" := Add]["div" := Div]["sub" := Sub]
      case _ => map["abs" := Abs, "add" := Add, "div" := Div, "mul" := Mul, "neg" := Neg, "sub" := Sub];
    if name in table then Some(table[name]) else None
  }

  /** The alias name the class bodies use for each operator. */
  function AliasOf(op: Op): string {
    match op
    case And => "and_"      case Or => "or_"       case Xor => "xor"
    case Lshift => "lshift" case Rshift => "rshift"
    case Add => "add"       case Sub => "sub"      case Mul => "mul"
    case Div => "div"       case Neg => "neg"      case Abs => "abs"
  }

  /** Every operator a kind defines has its static alias under its usual
      name, except signed-word multiply and negate. */
  lemma StaticMemberComplete(k: Kind, op: Op)
    requires Defines(k, op) && !(k == SignedWord && (op == Mul || op == Neg))
    ensures StaticMember(k, AliasOf(op)) == Some(op)
  {
  }

  /** Signed words multiply and negate through operator syntax, yet have no
      `mul` or `neg` static alias. */
  lemma SignedWordLacksMulAlias()
    ensures Defines(SignedWord, Mul) && StaticMember(SignedWord, "mul") == None
    ensures Defines(SignedWord, Neg) && StaticMember(SignedWord, "neg") == None
    ensures StaticMember(SignedWord, "div") == Some(Div)
  {
  }
}
