/** `_most_specific`: the result class of an operation mixing two values
    of possibly related kinds. */
module Precedence {
  import opened Kinds

  /** The source tests `hasattr(a, 'type_cls')` twice and never tests b, so
      a typed `a` with an untyped `b` reaches `b.type_cls` and raises. */
  function MostSpecific(a: Operand, b: Operand, default: Option<PyClass>): (r: Result<Option<PyClass>>)
    // the guard never looks at b: typed a, untyped b raises AttributeError
    ensures HasTypeCls(a) && !HasTypeCls(b) ==> r == Err(MissingAttribute("type_cls"))
    ensures r.Err? ==> HasTypeCls(a) && !HasTypeCls(b)
    // related kinds: the class of the more specific operand, ties to b
    ensures HasTypeCls(a) && HasTypeCls(b) && SubKind(TypeCls(b).value, TypeCls(a).value) ==> r == Ok(ClassOf(b))
    ensures (HasTypeCls(a) && HasTypeCls(b) && !SubKind(TypeCls(b).value, TypeCls(a).value)
             && SubKind(TypeCls(a).value, TypeCls(b).value)) ==> r == Ok(ClassOf(a))
    // unrelated kinds: the default
    ensures (HasTypeCls(a) && HasTypeCls(b) && !SubKind(TypeCls(b).value, TypeCls(a).value)
             && !SubKind(TypeCls(a).value, TypeCls(b).value)) ==> r == Ok(default)
    // untyped a: b's class when there is no default, else the default
    ensures !HasTypeCls(a) ==> r == Ok(if default.None? then ClassOf(b) else default)
  {
    if HasTypeCls(a) then
      if !HasTypeCls(b) then Err(MissingAttribute("type_cls"))
      else if SubKind(TypeCls(b).value, TypeCls(a).value) then Ok(ClassOf(b))
      else if SubKind(TypeCls(a).value, TypeCls(b).value) then Ok(ClassOf(a))
      else Ok(default)
    else if default.None? then
      // `hasattr(a, 'type_cls')` is known false here; only b can supply a class
      Ok(ClassOf(b))
    else Ok(default)
  }

  /** With no default and two typed operands, the chosen class carries a kind
      that lies below both operands' kinds, and it is one operand's class;
      there is a result exactly when the kinds are related. */
  lemma MostSpecificIsLowerBound(a: Operand, b: Operand)
    requires HasTypeCls(a) && HasTypeCls(b)
    ensures MostSpecific(a, b, None).Ok?
    ensures var r := MostSpecific(a, b, None).value;
      && (r.Some? <==> SubKind(TypeCls(a).value, TypeCls(b).value) || SubKind(TypeCls(b).value, TypeCls(a).value))
      && (r.Some? ==> r == ClassOf(a) || r == ClassOf(b))
      && (r.Some? ==> SubKind(r.value.kind, TypeCls(a).value) && SubKind(r.value.kind, TypeCls(b).value))
  {
  }

  /** Swapping the operands changes only which class wins a tie: the kind
      of the result is the same either way. */
  lemma MostSpecificKindIsSymmetric(a: Operand, b: Operand)
    requires HasTypeCls(a) && HasTypeCls(b)
    ensures var ab := MostSpecific(a, b, None).value;
            var ba := MostSpecific(b, a, None).value;
            ab.Some? == ba.Some? && (ab.Some? ==> ab.value.kind == ba.value.kind)
  {
  }
}
