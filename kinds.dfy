/** The value kinds of the PowerPC scalar type layer and the Python values
    their operators see: typed Variables and Expressions, integer and float
    literals, Immediates, and anything else. */
module Kinds {

  /** One constructor per type class: BitType, UnsignedWordType,
      SignedWordType, SingleFloatType, DoubleFloatType. */
  datatype Kind = Bits | UnsignedWord | SignedWord | SingleFloat | DoubleFloat

  /** `issubclass(x, y)` on the type classes.  UnsignedWordType and
      SignedWordType derive from BitType; the two float types derive only
      from PPCType, which no value carries as its type_cls. */
  predicate SubKind(x: Kind, y: Kind) {
    x == y || (y == Bits && (x == UnsignedWord || x == SignedWord))
  }

  lemma SubKindIsPartialOrder(x: Kind, y: Kind, z: Kind)
    ensures SubKind(x, x)
    ensures SubKind(x, y) && SubKind(y, x) ==> x == y
    ensures SubKind(x, y) && SubKind(y, z) ==> SubKind(x, z)
  {
  }

  /** The register file a kind lives in (`register_type_id`). */
  datatype RegisterFile = GP | FP

  function RegisterFileOf(k: Kind): RegisterFile {
    if k == SingleFloat || k == DoubleFloat then FP else GP
  }

  /** The two classes `make_user_type` builds for every kind. */
  datatype Role = VarClass | ExprClass

  /** A class built by `make_user_type`: `k.var_cls` or `k.expr_cls`. */
  datatype PyClass = UserClass(kind: Kind, role: Role)

  /** The instruction templates the operators select (external encoder). */
  datatype Instr =
    | Andx | Andi | Orx | Ori | Xorx | Xori | Slwx | Srwx
    | Addx | Addi | Divwux | Divwx | Mullwx | Mulli | Negx | Subfx
    | Fabsx | Fnegx
    | Faddsx | Fsubsx | Fmulsx | Fdivsx | Faddx | Fsubx | Fmulx | Fdivx
    | Fmaddsx | Fmaddx | Fmsubsx | Fmsubx | Fnmaddsx | Fnmaddx
    | Fnmsubsx | Fnmsubx | Fsqrtsx | Fsqrtx

  /** The operation a template performs, as the ISA defines it (none for
      the fused multiply-add and square-root templates). */
  function Performs(i: Instr): Option<Op> {
    match i
    case Andx => Some(And)      case Andi => Some(And)
    case Orx => Some(Or)        case Ori => Some(Or)
    case Xorx => Some(Xor)      case Xori => Some(Xor)
    case Slwx => Some(Lshift)   case Srwx => Some(Rshift)
    case Addx => Some(Add)      case Addi => Some(Add)
    case Divwux => Some(Div)    case Divwx => Some(Div)
    case Mullwx => Some(Mul)    case Mulli => Some(Mul)
    case Negx => Some(Neg)      case Subfx => Some(Sub)
    case Fabsx => Some(Abs)     case Fnegx => Some(Neg)
    case Faddsx => Some(Add)    case Faddx => Some(Add)
    case Fsubsx => Some(Sub)    case Fsubx => Some(Sub)
    case Fmulsx => Some(Mul)    case Fmulx => Some(Mul)
    case Fdivsx => Some(Div)    case Fdivx => Some(Div)
    case _ => None
  }

  /** The D-form templates, which take a 16-bit immediate as second operand. */
  predicate ImmediateForm(i: Instr) {
    i in {Andi, Ori, Xori, Addi, Mulli}
  }

  /** The register file a template reads and writes: the `f`-prefixed
      templates work on floating-point registers, the rest on
      general-purpose ones. */
  function FileOf(i: Instr): RegisterFile {
    if i in {Andx, Andi, Orx, Ori, Xorx, Xori, Slwx, Srwx,
             Addx, Addi, Divwux, Divwx, Mullwx, Mulli, Negx, Subfx}
    then GP else FP
  }

  /** The single-precision (`s`-suffixed) floating-point templates. */
  predicate SinglePrecision(i: Instr) {
    i in {Faddsx, Fsubsx, Fmulsx, Fdivsx, Fmaddsx, Fmsubsx, Fnmaddsx, Fnmsubsx, Fsqrtsx}
  }

  /** The double-precision arithmetic templates. */
  predicate DoublePrecision(i: Instr) {
    i in {Faddx, Fsubx, Fmulx, Fdivx, Fmaddx, Fmsubx, Fnmaddx, Fnmsubx, Fsqrtx}
  }

  type Reg = nat

  /** How an operator built its result:
      Factory  -- `inst.ex(operands..., type_cls = C)`, an Expression of C's kind;
      ExprCtor -- `self.expr_cls(inst, operands...)`, an Expression of self's kind;
      Direct   -- `inst(operands..., type_cls = C)`, the instruction called
                  directly, which yields an instruction object, not an Expression. */
  datatype Build = Factory | ExprCtor | Direct

  /** The values an operator may receive. */
  datatype Operand =
    | Variable(kind: Kind, reg: Reg)   // an instance of kind's Variable class
    | Expr(node: Node)                 // the result of an earlier operator
    | IntLit(i: int)                   // a Python int
    | LongLit(i: int)                  // a Python long
    | Immediate(i: int)                // an spe.Immediate
    | FloatLit(x: real)                // a Python float
    | Foreign                          // any other object

  /** What one operator application returns: a template, its operands and
      the class passed as (or implied for) the result's type. */
  datatype Node = Node(build: Build, instr: Instr, operands: seq<Operand>, cls: Option<PyClass>)

  datatype Option<T> = None | Some(value: T)

  /** The Python type of a value, as an error message names it. */
  datatype PyType =
    | UserType(c: PyClass)
    | IntType | LongType | ImmediateType | FloatType
    | InstructionType    // the object a Direct call returns
    | ExpressionType     // an Expression made with `type_cls = None`
    | OtherType

  datatype Op = And | Or | Xor | Lshift | Rshift | Add | Sub | Mul | Div | Neg | Abs

  /** The exceptions the core raises. */
  datatype Error =
    | NotImplementedFor(op: Op, selfType: PyType, otherType: PyType)  // Exception('__<op>__ not implemented for ...')
    | RaisedNotImplemented        // `raise NotImplemented`: a TypeError in Python 2
    | MissingAttribute(attr: string)  // AttributeError
    | OperandTypesDiffer          // 'Types for all operands must be the same'
    | NotImplementedForType(name: string, t: PyType)
    | NoOperands                  // IndexError on `operands[0]`
    | NoFreeRegister              // the allocator has nothing to hand out

  datatype Result<T> = Ok(value: T) | Err(error: Error)

  /** `x.type_cls`, when the attribute exists.  Variables have it; an
      Expression has the kind of the class it was built with; a Direct
      result is an instruction object and literals are host values. */
  function TypeCls(o: Operand): Option<Kind> {
    match o
    case Variable(k, _) => Some(k)
    case Expr(n) => if n.build != Direct && n.cls.Some? then Some(n.cls.value.kind) else None
    case _ => None
  }

  predicate HasTypeCls(o: Operand) {
    TypeCls(o).Some?
  }

  /** `type(x)` for a value of a user class. */
  function ClassOf(o: Operand): (c: Option<PyClass>)
    ensures c.Some? <==> HasTypeCls(o)
    ensures c.Some? ==> c.value.kind == TypeCls(o).value
  {
    match o
    case Variable(k, _) => Some(UserClass(k, VarClass))
    case Expr(n) => if HasTypeCls(o) then Some(UserClass(n.cls.value.kind, ExprClass)) else None
    case _ => None
  }

  function TypeOf(o: Operand): PyType {
    match o
    case Variable(k, _) => UserType(UserClass(k, VarClass))
    case Expr(n) =>
      if n.build == Direct then InstructionType
      else if n.cls.Some? then UserType(UserClass(n.cls.value.kind, ExprClass))
      else ExpressionType
    case IntLit(_) => IntType
    case LongLit(_) => LongType
    case Immediate(_) => ImmediateType
    case FloatLit(_) => FloatType
    case Foreign => OtherType
  }

  /** `isinstance(o, <k's type class>)`. */
  predicate IsInstance(o: Operand, k: Kind) {
    HasTypeCls(o) && SubKind(TypeCls(o).value, k)
  }

  /** `isinstance(o, (spe.Immediate, int, long))`. */
  predicate IsIntLiteral(o: Operand) {
    o.IntLit? || o.LongLit? || o.Immediate?
  }

  /** `isinstance(o, (spe.Immediate, int))`: a long is not accepted. */
  predicate IsIntOrImmediate(o: Operand) {
    o.IntLit? || o.Immediate?
  }

  /** The kind an operator's result carries, if any. */
  function ResultKind(n: Node): Option<Kind> {
    TypeCls(Expr(n))
  }
}
