# PowerPC typed-operand layer of CorePy, in Dafny

This project models the operator and type layer of CorePy for PowerPC scalar
registers (`corepy/arch/ppc/types/ppc_types.py`). In that layer, a value of a user
type (Bits, UnsignedWord, SignedWord, SingleFloat, DoubleFloat) lives in a
register. Each Python operator on such a value does three things:
- checks the kind of the other operand;
- picks a named PowerPC instruction template and fixes the kind of the result Expression;
- raises an exception when the operand is not supported.

The model covers:

- **Kinds** (`kinds.dfy`). The five type classes and their subclass relation:
  UnsignedWord and SignedWord derive from Bits. Operands are values of a user
  type, Expressions built from templates, and int, long, Immediate and float
  literals. A `Node` records the template, the operands, the result class, and
  how it was built: through `inst.ex(...)`, through the type's Expression class,
  or by calling the instruction directly.
- **Precedence** (`precedence.dfy`). `_most_specific`, the rule that picks the
  result class when two related kinds are mixed.
- **Operators** (`operators.dfy`). The per-kind operator tables:
  - and/or/xor and the shifts on bits;
  - add/div/mul/neg/sub on words;
  - add/sub/mul/div/abs/neg on floats;
  - the static aliases.
- **Semantics** (`semantics.dfy`). Two evaluators:
  - the `addi`/`addis` register semantics: the 16-bit immediate is sign-extended,
    and `addis` shifts it left 16;
  - a 32-bit bit-vector evaluator of the selected templates.

  Lemmas give the value computed by the bit operators, the shifts, and word add
  and subtract. The multiply, divide and floating-point templates are tied to
  the operation they perform, not to a computed value.
- **Materialize** (`materialize.dfy`). The instruction stream as a class with an
  instruction sequence, a constant pool and a free-register set. It holds:
  - the integer literal split (`addi`, then `addis` when needed) and its
    reconstruction proof;
  - float literal materialization: a pool entry, a scratch register,
    `lfs`/`lfd`, and release of the register.
- **FloatIntrinsics** (`floatintrinsics.dfy`). The `_float_function` dispatcher
  and its five instances.
- **UserTypes** (`usertypes.dfy`). The `make_user_type` class factory as objects
  and namespaces, and the module-level registration loop over `_user_types`.
- **Scenarios** (`scenarios.dfy`). The module's own unit tests `TestBits` and
  `SimpleTest`, replayed on the model, with the values they assert proved.

## Model

| member | source | states |
|---|---|---|
| Kinds.SubKindIsPartialOrder | corepy/arch/ppc/types/ppc_types.py:140-155 | the subclass relation on type classes is reflexive, antisymmetric and transitive, with both word kinds below Bits |
| Precedence.MostSpecific | corepy/arch/ppc/types/ppc_types.py:46-64 | two typed operands: b's class when b's kind is at or below a's (ties go to b); else a's class when a's kind is below b's; else the default. Untyped a: b's class when no default is given. Typed a with untyped b raises the missing-`type_cls` error, because the guard tests a twice. |
| Precedence.MostSpecificIsLowerBound | corepy/arch/ppc/types/ppc_types.py:53-60 | with no default and two typed operands there is no error. A class is chosen exactly when the kinds are related. It is one operand's class, and its kind lies below both operands' kinds. |
| Precedence.MostSpecificKindIsSymmetric | corepy/arch/ppc/types/ppc_types.py:53-60 | swapping the operands leaves the result kind, and whether there is one, unchanged |
| Operators.Upcast | corepy/arch/ppc/types/ppc_types.py:84-85 | builds `inst.ex(self, other)` whose kind is the more specific of the two kinds, or none when they are unrelated |
| Operators.BitLogical | corepy/arch/ppc/types/ppc_types.py:87-122 | succeeds iff the operand is of the bit hierarchy or an int/long/Immediate literal. A bit operand gives the register form of the same operation, kind by precedence. A literal gives the immediate form, kind of self. Otherwise it raises the not-implemented error naming both types. |
| Operators.BitShift | corepy/arch/ppc/types/ppc_types.py:96-106 | succeeds iff the operand is of the bit hierarchy (so a literal shift amount raises), giving `slwx`/`srwx` of self's kind |
| Operators.UnsignedAdd | corepy/arch/ppc/types/ppc_types.py:141-147 | succeeds iff the operand is an unsigned word or an int/Immediate (not a long). It picks the general-purpose add: the register form (`addx`) for words, the immediate form (`addi`) for literals, with UnsignedWord kind. The error names both types. |
| Operators.UnsignedDiv | corepy/arch/ppc/types/ppc_types.py:149-153 | succeeds iff the divisor is a SIGNED word (`divwux`, UnsignedWord kind); every other operand raises `NotImplemented` |
| Operators.SignedAdd | corepy/arch/ppc/types/ppc_types.py:157-163 | succeeds iff the operand is a signed word or an int/Immediate. It picks the general-purpose add, register form (`addx`) or immediate form (`addi`), with SignedWord kind; otherwise the error. |
| Operators.SignedDiv | corepy/arch/ppc/types/ppc_types.py:165-169 | succeeds iff the operand is a signed word (`divwx`, SignedWord kind) |
| Operators.SignedMul | corepy/arch/ppc/types/ppc_types.py:171-176 | succeeds iff the operand is a signed word or an int/Immediate. It picks the general-purpose multiply, register form (`mullwx`) or immediate form (`mulli`), with SignedWord kind; otherwise the error. |
| Operators.SignedNeg | corepy/arch/ppc/types/ppc_types.py:179-180 | calls `negx` directly: the result is an instruction object with no kind, so it is not a SignedWord operand |
| Operators.SignedSub | corepy/arch/ppc/types/ppc_types.py:182-186 | succeeds iff the operand is a signed word. `subfx` over the operands swapped to (other, self), SignedWord kind. The error message names `__add__`. |
| Operators.FloatArith | corepy/arch/ppc/types/ppc_types.py:201-274 | a float operator succeeds iff the operand has exactly self's precision. It selects the template performing that operation in that precision, with self's precision as the kind. Mixed precisions and literals raise. |
| Operators.FloatInstr | corepy/arch/ppc/types/ppc_types.py:201-227 | the template selected for a float kind and an arithmetic operator performs that operator, and is single-precision exactly for SingleFloat and double-precision exactly for DoubleFloat |
| Operators.FloatUnary | corepy/arch/ppc/types/ppc_types.py:197-268 | `abs`/`neg` select the floating-point template of that operation with no precision suffix (`fabsx`/`fnegx`) for either precision, and keep self's kind |
| Operators.TemplateIsDetermined | corepy/arch/ppc/types/ppc_types.py:87-274 | the operation, register file, immediate form and precision that the operator contracts state pick out exactly one template. The exception is the two word divides, which those contracts name directly. |
| Operators.StaticMember | corepy/arch/ppc/types/ppc_types.py:94-186 | every static alias names an operator the kind defines |
| Operators.StaticMemberComplete | corepy/arch/ppc/types/ppc_types.py:94-274 | every operator a kind defines has its static alias under its usual name (`and_`, `add`, ...), except signed-word multiply and negate |
| Operators.SignedWordLacksMulAlias | corepy/arch/ppc/types/ppc_types.py:171-180 | signed words define `*` and unary `-`, but have no `mul` or `neg` alias, because line 177 rebinds `div` |
| Semantics.BitLogicalComputes | corepy/arch/ppc/types/ppc_types.py:87-122 | and/or/xor of two bit values evaluates to the bitwise and/or/xor of their patterns |
| Semantics.BitLogicalImmediateComputes | corepy/arch/ppc/types/ppc_types.py:87-122 | and/or/xor with a literal combines self's pattern with the literal's low 16 bits, zero-extended |
| Semantics.BitShiftComputes | corepy/arch/ppc/types/ppc_types.py:96-106 | a shift of two bit values evaluates to the PowerPC `slw`/`srw` shift of self by the amount held in the other register |
| Semantics.UnsignedAddComputesSum | corepy/arch/ppc/types/ppc_types.py:141-143 | adding two unsigned words evaluates to their sum modulo 2^32 |
| Semantics.SignedAddComputesSum | corepy/arch/ppc/types/ppc_types.py:157-161 | adding two signed words evaluates to their sum modulo 2^32 |
| Semantics.SignedAddImmediateComputesSum | corepy/arch/ppc/types/ppc_types.py:157-161 | adding a literal to a signed word not bound to r0 evaluates to self plus the literal's sign-extended low 16 bits, modulo 2^32 |
| Semantics.SignedAddImmediateOnR0 | corepy/arch/ppc/types/ppc_types.py:157-161 | adding a literal to a signed word bound to r0 yields only the literal's sign-extended low 16 bits, because `addi` reads an RA of 0 as the value 0 |
| Semantics.SignedSubComputesDifference | corepy/arch/ppc/types/ppc_types.py:182-184 | `a - b` evaluates to a minus b modulo 2^32, despite the swapped operands |
| Materialize.InstructionStream.constructor | corepy/arch/ppc/types/ppc_types.py:393-393 | a new stream has no instructions, an empty pool, and the given free registers |
| Materialize.InstructionStream.Add | corepy/arch/ppc/types/ppc_types.py:126-131 | `code.add` appends one instruction and changes nothing else |
| Materialize.InstructionStream.AddStorage | corepy/arch/ppc/types/ppc_types.py:231-231 | `add_storage` appends one pool entry and changes nothing else |
| Materialize.InstructionStream.AcquireRegister | corepy/arch/ppc/types/ppc_types.py:233-233 | returns a register taken out of the free set, or nothing exactly when the set is empty |
| Materialize.InstructionStream.ReleaseRegister | corepy/arch/ppc/types/ppc_types.py:236-236 | returns the register to the free set |
| Materialize.LiteralSplit | corepy/arch/ppc/types/ppc_types.py:124-133 | the first instruction is `addi(reg, 0, value)`. A second instruction, `addis(reg, reg, (value + 32768) >> 16)`, follows exactly when `value & 0xFFFF != value`, and nothing else is emitted. |
| Materialize.SetBitLiteral | corepy/arch/ppc/types/ppc_types.py:124-133 | appends exactly that split to the stream; pool and free registers unchanged |
| Materialize.HalvesReconstruct | corepy/arch/ppc/types/ppc_types.py:129-131 | for every integer, the sign-extended low half plus `((v + 32768) >> 16) * 65536` is v |
| Materialize.SplitLoadsValue | corepy/arch/ppc/types/ppc_types.py:124-133 | for a non-zero register and any value outside 0x8000–0xFFFF, running the split leaves exactly the value modulo 2^32 in the register, and every other register unchanged |
| Materialize.SplitAllLoads | corepy/arch/ppc/types/ppc_types.py:124-133 | materializing several literals in turn loads each one, with later ones overriding |
| Materialize.LoadedHolds | corepy/arch/ppc/types/ppc_types.py:124-133 | with distinct registers, every materialized literal is found in its own register |
| Materialize.SplitIntoR0KeepsHighHalf | corepy/arch/ppc/types/ppc_types.py:126-131 | a two-instruction split into r0 leaves only the sign-extended high half shifted left 16, because `addis` reads an RA of 0 as the value 0 |
| Materialize.SplitIntoR0Misloads | corepy/arch/ppc/types/ppc_types.py:126-131 | 0x12345 materialized into r0 leaves 0x10000, not the value |
| Materialize.SplitMisloadsUpperHalfword | corepy/arch/ppc/types/ppc_types.py:129-131 | for 0x8000–0xFFFF the split is a single `addi`, which loads `value + 0xFFFF0000`, not the value |
| Materialize.CorrectedSplit | corepy/arch/ppc/types/ppc_types.py:129-131 | with a 16-bit signed range test, the second instruction is emitted exactly for values outside −0x8000..0x7FFF |
| Materialize.CorrectedSplitLoadsValue | corepy/arch/ppc/types/ppc_types.py:124-133 | the corrected split loads every integer modulo 2^32 into any non-zero register |
| Materialize.SetFloatLiteral | corepy/arch/ppc/types/ppc_types.py:229-238 | adds exactly one pool entry of the kind's width holding `self.value`. It succeeds iff a scratch register was free. On success it appends the address split into that scratch register, then `lfs`/`lfd` into the destination with the scratch as base and offset 0. The free set is left as it was. |
| Materialize.FloatLoadSeesAddress | corepy/arch/ppc/types/ppc_types.py:233-236 | the address split before the load leaves the address in the scratch register, which is the load's base, and changes no other general-purpose register |
| FloatIntrinsics.Call | corepy/arch/ppc/types/ppc_types.py:304-315 | the loop-and-dispatch method returns the same as the reference `FloatCall`, whatever keyword arguments are given |
| FloatIntrinsics.FirstMismatchIsUniformity | corepy/arch/ppc/types/ppc_types.py:306-308 | the operand check passes iff every later operand has the first operand's Variable class; an operand-type error implies two differing classes |
| FloatIntrinsics.FloatCallResult | corepy/arch/ppc/types/ppc_types.py:304-315 | a successful call has a SingleFloat or DoubleFloat first operand and all operands of one kind. It builds a factory Expression over all of them, of the first operand's kind, from that precision's template. |
| FloatIntrinsics.MixedKindsRaise | corepy/arch/ppc/types/ppc_types.py:306-308 | two operands of different user types raise the operand-type error (also Bits beside UnsignedWord) |
| FloatIntrinsics.IntrinsicsDispatchByPrecision | corepy/arch/ppc/types/ppc_types.py:318-322 | each of the five registered intrinsics pairs a single- with a double-precision template, and two operands of one float kind select the template of that precision |
| FloatIntrinsics.NonFloatRaises | corepy/arch/ppc/types/ppc_types.py:304-315 | a call with any number of operands that pass the type check, but whose first operand is not a float user type, raises the not-implemented error naming the function |
| FloatIntrinsics.ThreeBitsRaise | corepy/arch/ppc/types/ppc_types.py:304-318 | `fmadd` over three Bits values passes the operand check and then raises the not-implemented error |
| UserTypes.MakeUserType | corepy/arch/ppc/types/ppc_types.py:331-368 | creates new Variable and Expression classes named `name` and `name + "Ex"` that point back at the type class, and links them from it. Only `name` is bound, in `g` or in the globals when `g` is None. The Expression class is bound nowhere, and the other namespace is unchanged. |
| UserTypes.RegisterAgain | corepy/arch/ppc/types/ppc_types.py:356-367 | calling the factory for a name and type class it already registered replaces both links and the namespace entry with new classes, different from the old ones (there is no duplicate check) |
| UserTypes.PpcTypesModule.constructor | corepy/arch/ppc/types/ppc_types.py:371-380 | after the registration loop, each of the five type classes is linked both ways to classes of its kind, and the globals bind exactly the five names to the Variable classes |
| UserTypes.DistinctNames | corepy/arch/ppc/types/ppc_types.py:371-376 | the five registered names are pairwise distinct |
| Scenarios.TestBitsYieldsBEAF | corepy/arch/ppc/types/ppc_types.py:431-454 | after the eight literals are materialized in any distinct non-zero registers, `f` becomes 0xF and the value assigned to `x` is 0xBEAF |
| Scenarios.SimpleTestFirstHalfYields54 | corepy/arch/ppc/types/ppc_types.py:396-409 | `a + (byte_mask & b) + 12` with a = 11, b = 31, mask 0xFF evaluates to 54 |
| Scenarios.SimpleTestSecondHalfYields42 | corepy/arch/ppc/types/ppc_types.py:411-427 | `a + (b & byte_mask)` on a reset stream evaluates to 42 |

## Left out

- The `active_code` property (lines 68-74) is not modelled. It is a wrapper over a global in the ISA module; the stream is passed explicitly.
- Instruction encodings (`corepy.arch.ppc.isa`) are not part of this model: templates are names with their operation and precision.
- The `spe.Variable`/`spe.Expression` base classes (lazy evaluation, assignment) are not part of this model. `inst.ex(..., type_cls=C)` is assumed to yield an Expression of C's kind, and `ex` with no class one with no kind.
- `util.make_user_type`, which line 380 actually calls, is not part of this model. The registration loop uses the local `make_user_type` in its place.
- Numeric results of multiplication, division and floating-point operations are not modelled; only kind and template selection are.
- Rounding a float literal to single precision in the `array('f')` pool entry is not modelled: the pool entry holds the exact value.
- Memory is not modelled. The address loaded before `lfs`/`lfd` is a parameter that is not tied to the pool entry, so nothing states that the load reads the constant.
- Scenarios.SimpleTestFirstHalfYields54: assumes that `SignedWord(31, reg = code.acquire_register())` at line 398 loads its literal into `code`. That line passes no stream and no active code is set, so where the literal goes depends on `spe.Variable`, which is not part of this model.
- Host addresses (`buffer_info()`) are a parameter of `SetFloatLiteral`, and the address register is assumed to be loaded into the same stream.
- `Processor.execute` is replaced by the register semantics of `addi`/`addis`/`lfs`/`lfd` and the bit-vector evaluator; `lfs`/`lfd` load memory, which is not modelled, so they leave integer registers unchanged.
- Materialize.InstructionStream.AcquireRegister: does not model which register the allocator prefers, nor that r0 is never handed out; it picks any free register.
- Materialize.SetFloatLiteral: a foreign exception between acquire and release (there is no try/finally at lines 233-236) is not modelled; failure is modelled only as an empty free set.
- Materialize.SplitLoadsValue: requires a target other than r0. The allocator never hands out r0, but an explicit `reg=` can name it, and then the split as written loses the low half (SplitIntoR0KeepsHighHalf).
- Materialize.CorrectedSplitLoadsValue: requires a target other than r0, for the same reason.
- Materialize.FloatLoadSeesAddress: requires a scratch register other than r0; the scratch register comes from the allocator, which never hands out r0.
- Semantics.SignedAddImmediateComputesSum: requires a self not bound to r0; that case is stated separately by SignedAddImmediateOnR0. The evaluator knows the register only of a Variable, and assumes an Expression's result is never placed in r0. The lemma also states the sum with the literal's sign-extended low half, not with the literal itself; the two agree for literals of −0x8000..0x7FFF.
- `TestFloatingPoint` (lines 456-477) checks floating-point results and is not modelled.
- the frame-buffer demo `fbdemo.py` (I/O on Cell hardware) and the prototype `static.py` (print-driven) are not part of this model.

## Findings

| source | as written | input that shows it | evidently intended | confidence | as-written member | corrected member |
|---|---|---|---|---|---|---|
| corepy/arch/ppc/types/ppc_types.py:129-131 | the `addis` is emitted only when `value & 0xFFFF != value`, so a value in 0x8000–0xFFFF gets a lone `addi`, whose immediate is sign-extended | value 0x8000 loads 0xFFFF8000 | a second instruction whenever the value lies outside the signed 16-bit range, so every value loads exactly | not executed | Materialize.SplitMisloadsUpperHalfword | Materialize.CorrectedSplitLoadsValue |

`SetBitLiteral` and `SetFloatLiteral` keep the split as written, so that they
model the stream the source emits. `CorrectedSplit` is stated and proved beside
it. The unit-test scenarios use only literals for which the two splits agree.
