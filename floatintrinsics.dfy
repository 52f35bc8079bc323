/** The floating-point free functions `fmadd`, `fmsub`, `fnmadd`, `fnmsub`
    and `fsqrt`: a callable that checks its operands share one Variable
    class and dispatches on the first operand's precision. */
module FloatIntrinsics {
  import opened Kinds

  /** A `_float_function`: its name and its single- and double-precision
      instruction templates. */
  datatype FloatFunction = FloatFunction(name: string, single: Instr, double: Instr)

  /** The five module-level instances. */
  const Intrinsics: seq<FloatFunction> := [
    FloatFunction("fmadd", Fmaddsx, Fmaddx),
    FloatFunction("fmsub", Fmsubsx, Fmsubx),
    FloatFunction("fnmadd", Fnmaddsx, Fnmaddx),
    FloatFunction("fnmsub", Fnmsubsx, Fnmsubx),
    FloatFunction("fsqrt", Fsqrtsx, Fsqrtx)
  ]

  /** `x.var_cls`: a value of a user type reaches its type class's Variable
      class; literals, instruction objects and untyped Expressions lack it. */
  function VarCls(o: Operand): (c: Option<PyClass>)
    ensures c.Some? <==> HasTypeCls(o)
    ensures c.Some? ==> c.value == UserClass(TypeCls(o).value, VarClass)
  {
    if HasTypeCls(o) then Some(UserClass(TypeCls(o).value, VarClass)) else None
  }

  /** One step of the operand check: `op.var_cls != a.var_cls`, reading
      `op.var_cls` first. */
  function CheckOperand(a: Operand, op: Operand): Option<Error> {
    if VarCls(op).None? || VarCls(a).None? then Some(MissingAttribute("var_cls"))
    else if VarCls(op) != VarCls(a) then Some(OperandTypesDiffer)
    else None
  }

  /** The first error the loop over `operands[1:]` meets, in order. */
  function FirstMismatch(a: Operand, rest: seq<Operand>): Option<Error>
    decreases |rest|
  {
    if rest == [] then None
    else if CheckOperand(a, rest[0]).Some? then CheckOperand(a, rest[0])
    else FirstMismatch(a, rest[1..])
  }

  /** What calling a float function returns or raises. */
  function FloatCall(f: FloatFunction, operands: seq<Operand>): Result<Node> {
    if operands == [] then Err(NoOperands)
    else
      var a := operands[0];
      var m := FirstMismatch(a, operands[1..]);
      if m.Some? then Err(m.value)
      else if IsInstance(a, SingleFloat) then
        Ok(Node(Factory, f.single, operands, Some(UserClass(SingleFloat, VarClass))))
      else if IsInstance(a, DoubleFloat) then
        Ok(Node(Factory, f.double, operands, Some(UserClass(DoubleFloat, VarClass))))
      else Err(NotImplementedForType(f.name, TypeOf(a)))
  }

  /** `_float_function.__call__`.  Keyword operands are accepted and not
      passed on, so they do not affect the result. */
  method Call(f: FloatFunction, operands: seq<Operand>, kwargs: seq<(string, Operand)>) returns (r: Result<Node>)
    ensures r == FloatCall(f, operands)
  {
    if |operands| == 0 {
      return Err(NoOperands);
    }
    var a := operands[0];
    var i := 1;
    while i < |operands|
      invariant 1 <= i <= |operands|
      invariant FirstMismatch(a, operands[1..]) == FirstMismatch(a, operands[i..])
    {
      assert operands[i..][1..] == operands[i + 1..];
      var e := CheckOperand(a, operands[i]);
      if e.Some? {
        return Err(e.value);
      }
      i := i + 1;
    }
    assert operands[i..] == [];
    if IsInstance(a, SingleFloat) {
      r := Ok(Node(Factory, f.single, operands, Some(UserClass(SingleFloat, VarClass))));
    } else if IsInstance(a, DoubleFloat) {
      r := Ok(Node(Factory, f.double, operands, Some(UserClass(DoubleFloat, VarClass))));
    } else {
      r := Err(NotImplementedForType(f.name, TypeOf(a)));
    }
  }

  /** The loop passes exactly when every later operand has the first
      operand's Variable class, and a mismatch is reported as such only when
      every operand involved has a Variable class. */
  lemma {:induction false} FirstMismatchIsUniformity(a: Operand, rest: seq<Operand>)
    ensures FirstMismatch(a, rest).None? <==>
            forall j :: 0 <= j < |rest| ==> VarCls(rest[j]).Some? && VarCls(rest[j]) == VarCls(a)
    ensures FirstMismatch(a, rest) == Some(OperandTypesDiffer) ==>
            exists j :: 0 <= j < |rest| && VarCls(rest[j]).Some? && VarCls(a).Some? && VarCls(rest[j]) != VarCls(a)
    decreases |rest|
  {
    if rest != [] {
      FirstMismatchIsUniformity(a, rest[1..]);
      if CheckOperand(a, rest[0]).None? {
        forall j | 1 <= j < |rest|
          ensures rest[j] == rest[1..][j - 1]
        {
        }
        if FirstMismatch(a, rest) == Some(OperandTypesDiffer) {
          var j :| 0 <= j < |rest[1..]| && VarCls(rest[1..][j]).Some? && VarCls(a).Some? && VarCls(rest[1..][j]) != VarCls(a);
          assert rest[1..][j] == rest[j + 1];
        }
      }
    }
  }

  /** A successful call builds an Expression of the first operand's float
      kind from the template of that precision, over all the operands, which
      all share that kind. */
  lemma FloatCallResult(f: FloatFunction, operands: seq<Operand>)
    requires FloatCall(f, operands).Ok?
    ensures var n := FloatCall(f, operands).value;
            && |operands| >= 1
            && (TypeCls(operands[0]) == Some(SingleFloat) || TypeCls(operands[0]) == Some(DoubleFloat))
            && n.build == Factory && n.operands == operands
            && ResultKind(n) == TypeCls(operands[0])
            && (TypeCls(operands[0]) == Some(SingleFloat) ==> n.instr == f.single)
            && (TypeCls(operands[0]) == Some(DoubleFloat) ==> n.instr == f.double)
            && forall j :: 0 <= j < |operands| ==> TypeCls(operands[j]) == TypeCls(operands[0])
  {
    FirstMismatchIsUniformity(operands[0], operands[1..]);
    forall j | 1 <= j < |operands|
      ensures TypeCls(operands[j]) == TypeCls(operands[0])
    {
      assert operands[1..][j - 1] == operands[j];
    }
  }

  /** Two operands of different user types make the call fail with the
      operand-type error, for instance a SingleFloat beside a DoubleFloat, or
      an UnsignedWord beside a Bits even though UnsignedWordType derives from
      BitType. */
  lemma MixedKindsRaise(f: FloatFunction, a: Operand, b: Operand)
    requires HasTypeCls(a) && HasTypeCls(b) && TypeCls(a) != TypeCls(b)
    ensures FloatCall(f, [a, b]) == Err(OperandTypesDiffer)
  {
    assert [a, b][1..] == [b];
  }

  /** Every registered intrinsic pairs a single-precision template with a
      double-precision one; with two operands of the same float kind it
      selects the template of that precision. */
  lemma {:induction false} IntrinsicsDispatchByPrecision(k: int, a: Operand, b: Operand)
    requires 0 <= k < |Intrinsics|
    requires TypeCls(a) == TypeCls(b) && (TypeCls(a) == Some(SingleFloat) || TypeCls(a) == Some(DoubleFloat))
    ensures SinglePrecision(Intrinsics[k].single) && DoublePrecision(Intrinsics[k].double)
    ensures FloatCall(Intrinsics[k], [a, b]).Ok?
    ensures SinglePrecision(FloatCall(Intrinsics[k], [a, b]).value.instr) <==> TypeCls(a) == Some(SingleFloat)
    ensures DoublePrecision(FloatCall(Intrinsics[k], [a, b]).value.instr) <==> TypeCls(a) == Some(DoubleFloat)
  {
    assert [a, b][1..] == [b] && [b][1..] == [];
    assert CheckOperand(a, b).None? && FirstMismatch(a, [b]).None?;
    var f := Intrinsics[k];
    assert SinglePrecision(f.single) && DoublePrecision(f.double) && !DoublePrecision(f.single) && !SinglePrecision(f.double);
  }

  /** A call whose operands pass the type check but whose first operand is
      not a float user type, such as three Bits values given to `fmadd`,
      raises the not-implemented error naming the function. */
  lemma NonFloatRaises(f: FloatFunction, operands: seq<Operand>)
    requires |operands| >= 1 && FirstMismatch(operands[0], operands[1..]).None?
    requires TypeCls(operands[0]) != Some(SingleFloat) && TypeCls(operands[0]) != Some(DoubleFloat)
    ensures FloatCall(f, operands) == Err(NotImplementedForType(f.name, TypeOf(operands[0])))
  {
  }

  /** Three Bits values sharing one class pass the operand check, and
      `fmadd` over them raises the not-implemented error. */
  lemma ThreeBitsRaise(r0: Reg, r1: Reg, r2: Reg)
    ensures var ops := [Variable(Bits, r0), Variable(Bits, r1), Variable(Bits, r2)];
            FloatCall(Intrinsics[0], ops) == Err(NotImplementedForType("fmadd", TypeOf(ops[0])))
  {
    var ops := [Variable(Bits, r0), Variable(Bits, r1), Variable(Bits, r2)];
    assert ops[1..] == [ops[1], ops[2]];
    FirstMismatchIsUniformity(ops[0], ops[1..]);
    NonFloatRaises(Intrinsics[0], ops);
  }
}
