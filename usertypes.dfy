/** The class factory that turns each type class into a Variable class and
    an Expression class, and the module-level loop that registers the five
    kinds. */
module UserTypes {
  import opened Kinds

  /** A type class (`BitType`, ...) with the two links the factory sets. */
  class TypeClass {
    const kind: Kind
    var varCls: UserClassObject?
    var exprCls: UserClassObject?

    constructor (k: Kind)
      ensures kind == k && varCls == null && exprCls == null
    {
      kind := k;
      varCls, exprCls := null, null;
    }
  }

  /** A class built by the factory: `[name]` deriving from `spe.Variable`
      or `[name]Ex` deriving from `spe.Expression`, each with a `type_cls`
      class attribute. */
  class UserClassObject {
    const name: string
    const role: Role
    const typeCls: TypeClass

    constructor (name: string, role: Role, t: TypeClass)
      ensures this.name == name && this.role == role && typeCls == t
    {
      this.name, this.role, typeCls := name, role, t;
    }

    /** The class as the operators see it. */
    function AsPyClass(): (c: PyClass)
      reads this
      ensures c.kind == typeCls.kind && c.role == role
    {
      UserClass(typeCls.kind, role)
    }
  }

  /** A module namespace (`globals()` or the dictionary passed as `g`). */
  class Namespace {
    var names: map<string, UserClassObject>

    constructor ()
      ensures names == map[]
    {
      names := map[];
    }
  }

  /** `make_user_type(name, type_cls, g)`: build both classes, link them
      from the type class (overwriting any earlier links: there is no
      duplicate check), and bind `name` to the Variable class in `g`, or in
      the module's own globals when `g` is None.  The Expression class is
      bound nowhere. */
  method MakeUserType(name: string, t: TypeClass, g: Namespace?, globals: Namespace)
    modifies t, g, globals
    ensures t.varCls != null && fresh(t.varCls)
    ensures t.varCls.name == name && t.varCls.role == VarClass && t.varCls.typeCls == t
    ensures t.exprCls != null && fresh(t.exprCls)
    ensures t.exprCls.name == name + "Ex" && t.exprCls.role == ExprClass && t.exprCls.typeCls == t
    ensures var target := if g == null then globals else g;
            && target.names == old(target.names)[name := t.varCls]
            && forall n :: n in target.names ==> target.names[n] != t.exprCls
    ensures g != null && g != globals ==> globals.names == old(globals.names)
  {
    var v := new UserClassObject(name, VarClass, t);
    var e := new UserClassObject(name + "Ex", ExprClass, t);
    t.varCls := v;
    t.exprCls := e;
    var target := if g == null then globals else g;
    target.names := target.names[name := v];
  }

  /** Calling the factory for a name and type class it has already
      registered (there is no duplicate check) replaces both of the type
      class's links and the namespace entry with new classes; the old
      classes are reachable from neither. */
  method RegisterAgain(name: string, t: TypeClass, g: Namespace)
    requires t.varCls != null && t.exprCls != null
    requires name in g.names && g.names[name] == t.varCls
    modifies t, g
    ensures t.varCls != null && fresh(t.varCls) && t.varCls != old(t.varCls)
    ensures t.exprCls != null && fresh(t.exprCls) && t.exprCls != old(t.exprCls)
    ensures t.varCls.name == name && t.varCls.typeCls == t && t.exprCls.typeCls == t
    ensures g.names == old(g.names)[name := t.varCls] && g.names[name] != old(g.names[name])
  {
    MakeUserType(name, t, g, g);
  }

  /** The five `(name, type class)` pairs of `_user_types`, in order. */
  function UserTypeNames(): seq<string> {
    ["Bits", "UnsignedWord", "SignedWord", "SingleFloat", "DoubleFloat"]
  }

  function UserTypeKinds(): seq<Kind> {
    [Bits, UnsignedWord, SignedWord, SingleFloat, DoubleFloat]
  }

  /** The state left by importing the module: one type class per kind, each
      linked to its two classes, and the five Variable classes bound in the
      module's globals. */
  class PpcTypesModule {
    const globals: Namespace
    const typeClasses: seq<TypeClass>

    /** Every type class points at classes that point back at it and carry
        its kind, and the globals bind exactly the five names. */
    predicate Registered()
      reads this, globals, typeClasses, set j | 0 <= j < |typeClasses| :: typeClasses[j].varCls,
            set j | 0 <= j < |typeClasses| :: typeClasses[j].exprCls
    {
      && |typeClasses| == 5
      && globals.names.Keys == (set j | 0 <= j < 5 :: UserTypeNames()[j])
      && forall j :: 0 <= j < 5 ==>
           && typeClasses[j].kind == UserTypeKinds()[j]
           && typeClasses[j].varCls != null && typeClasses[j].exprCls != null
           && typeClasses[j].varCls.typeCls == typeClasses[j]
           && typeClasses[j].exprCls.typeCls == typeClasses[j]
           && typeClasses[j].varCls.AsPyClass() == UserClass(UserTypeKinds()[j], VarClass)
           && typeClasses[j].exprCls.AsPyClass() == UserClass(UserTypeKinds()[j], ExprClass)
           && typeClasses[j].varCls.name == UserTypeNames()[j]
           && globals.names[UserTypeNames()[j]] == typeClasses[j].varCls
    }

    /** The module initialisation: create the type classes and run the
        registration loop over `_user_types`. */
    constructor ()
      ensures Registered()
    {
      var ts: seq<TypeClass> := [];
      var k := 0;
      while k < 5
        invariant 0 <= k <= 5 && |ts| == k
        invariant forall j :: 0 <= j < k ==> fresh(ts[j]) && ts[j].kind == UserTypeKinds()[j]
        invariant forall i, j :: 0 <= i < j < k ==> ts[i] != ts[j]
      {
        var t := new TypeClass(UserTypeKinds()[k]);
        ts := ts + [t];
        k := k + 1;
      }
      var g := new Namespace();
      globals := g;
      typeClasses := ts;
      new;
      var i := 0;
      while i < 5
        invariant 0 <= i <= 5
        invariant fresh(globals)
        invariant forall j :: 0 <= j < 5 ==> fresh(ts[j]) && ts[j].kind == UserTypeKinds()[j]
        invariant globals.names.Keys == (set j | 0 <= j < i :: UserTypeNames()[j])
        invariant forall j :: 0 <= j < i ==>
                    && ts[j].varCls != null && ts[j].exprCls != null
                    && ts[j].varCls.typeCls == ts[j] && ts[j].exprCls.typeCls == ts[j]
                    && ts[j].varCls.role == VarClass && ts[j].exprCls.role == ExprClass
                    && ts[j].varCls.name == UserTypeNames()[j]
                    && globals.names[UserTypeNames()[j]] == ts[j].varCls
      {
        DistinctNames(i);
        MakeUserType(UserTypeNames()[i], ts[i], globals, globals);
        i := i + 1;
      }
    }
  }

  /** The registered names are pairwise different, so no registration
      overwrites another. */
  lemma DistinctNames(i: int)
    requires 0 <= i < 5
    ensures forall j :: 0 <= j < 5 && j != i ==> UserTypeNames()[j] != UserTypeNames()[i]
  {
    var ns := UserTypeNames();
    assert ns[0][0] == 'B' && ns[1][0] == 'U' && ns[2][0] == 'S' && ns[3][0] == 'S' && ns[4][0] == 'D';
    assert ns[2][1] == 'i' && ns[3][1] == 'i' && ns[2][2] == 'g' && ns[3][2] == 'n';
  }
}
