/** The module's own unit tests `TestBits` and `SimpleTest`, replayed on
    the model: literals are materialized into whatever distinct non-zero
    registers the allocator handed out, the operator expressions are built
    exactly as the tests write them, and evaluating them yields the values
    the tests assert.  An assignment `v.v = e` stores e's value in v's
    register. */
module Scenarios {
  import opened Kinds
  import opened Operators
  import opened Semantics
  import opened Materialize

  predicate Usable(bindings: seq<(Reg, int)>) {
    DistinctRegisters(bindings) && forall j :: 0 <= j < |bindings| ==> bindings[j].0 != 0
  }

  /** After materializing the bindings, the evaluator sees each literal's
      bit pattern in its register. */
  lemma LoadedBits(regs: Regs, bindings: seq<(Reg, int)>, j: int)
    requires 0 <= j < |bindings| && DistinctRegisters(bindings)
    ensures bindings[j].0 in AsBits(Loaded(regs, bindings))
    ensures AsBits(Loaded(regs, bindings))[bindings[j].0] == Pattern(bindings[j].1)
  {
    LoadedHolds(regs, bindings, j);
    assert ToWord(ToWord(bindings[j].1)) == ToWord(bindings[j].1);
  }

  // ---- TestBits ----

  /** `b, e, a, f, x, mask, byte, halfbyte` in declaration order. */
  function BitsLiterals(rb: Reg, re: Reg, ra: Reg, rf: Reg, rx: Reg, rm: Reg, r8: Reg, r4: Reg): seq<(Reg, int)> {
    [(rb, 0xB0), (re, 0xE0000), (ra, 0xCA), (rf, 0x5), (rx, 0), (rm, 0xF), (r8, 8), (r4, 4)]
  }

  function Bit(r: Reg): Operand { Variable(Bits, r) }

  /** `a & mask` */
  function AndMask(ra: Reg, rm: Reg): Operand {
    Expr(BitLogical(And, Bit(ra), Bit(rm)).value)
  }

  /** `(a & mask) ^ f`, assigned to f */
  function NewF(ra: Reg, rm: Reg, rf: Reg): Operand {
    Expr(BitLogical(Xor, AndMask(ra, rm), Bit(rf)).value)
  }

  /** `(b << byte) | (e >> byte)` */
  function HighBytes(rb: Reg, re: Reg, r8: Reg): Operand {
    var s1 := Expr(BitShift(Lshift, Bit(rb), Bit(r8)).value);
    var s2 := Expr(BitShift(Rshift, Bit(re), Bit(r8)).value);
    Expr(BitLogical(Or, s1, s2).value)
  }

  /** `(a & mask) << halfbyte` */
  function MaskShifted(ra: Reg, rm: Reg, r4: Reg): Operand {
    Expr(BitShift(Lshift, AndMask(ra, rm), Bit(r4)).value)
  }

  /** `(b << byte) | (e >> byte) | ((a & mask) << halfbyte) | (f | mask)`, assigned to x */
  function NewX(rb: Reg, re: Reg, ra: Reg, rf: Reg, rm: Reg, r8: Reg, r4: Reg): Operand {
    var o2 := Expr(BitLogical(Or, HighBytes(rb, re, r8), MaskShifted(ra, rm, r4)).value);
    var fm := Expr(BitLogical(Or, Bit(rf), Bit(rm)).value);
    Expr(BitLogical(Or, o2, fm).value)
  }

  lemma AndMaskValue(bits: BitRegs, ra: Reg, rm: Reg, a: Bits32, m: Bits32)
    requires ra in bits && rm in bits && bits[ra] == a && bits[rm] == m
    ensures IsInstance(AndMask(ra, rm), Bits)
    ensures Eval(bits, AndMask(ra, rm)) == Some(a & m)
  {
    BitLogicalComputes(bits, And, Bit(ra), Bit(rm), a, m);
  }

  lemma NewFValue(bits: BitRegs, ra: Reg, rm: Reg, rf: Reg)
    requires ra in bits && rm in bits && rf in bits
    requires bits[ra] == 0xCA && bits[rm] == 0xF && bits[rf] == 0x5
    ensures Eval(bits, NewF(ra, rm, rf)) == Some(0xF)
  {
    AndMaskValue(bits, ra, rm, 0xCA, 0xF);
    BitLogicalComputes(bits, Xor, AndMask(ra, rm), Bit(rf), 0xCA & 0xF, 0x5);
  }

  lemma HighBytesValue(bits: BitRegs, rb: Reg, re: Reg, r8: Reg)
    requires rb in bits && re in bits && r8 in bits
    requires bits[rb] == 0xB0 && bits[re] == 0xE0000 && bits[r8] == 8
    ensures IsInstance(HighBytes(rb, re, r8), Bits)
    ensures Eval(bits, HighBytes(rb, re, r8)) == Some(0xBE00)
  {
    var s1 := Expr(BitShift(Lshift, Bit(rb), Bit(r8)).value);
    BitShiftComputes(bits, Lshift, Bit(rb), Bit(r8), 0xB0, 8);
    assert Eval(bits, s1) == Some(0xB000);
    var s2 := Expr(BitShift(Rshift, Bit(re), Bit(r8)).value);
    BitShiftComputes(bits, Rshift, Bit(re), Bit(r8), 0xE0000, 8);
    assert Eval(bits, s2) == Some(0xE00);
    BitLogicalComputes(bits, Or, s1, s2, 0xB000, 0xE00);
  }

  lemma MaskShiftedValue(bits: BitRegs, ra: Reg, rm: Reg, r4: Reg)
    requires ra in bits && rm in bits && r4 in bits
    requires bits[ra] == 0xCA && bits[rm] == 0xF && bits[r4] == 4
    ensures IsInstance(MaskShifted(ra, rm, r4), Bits)
    ensures Eval(bits, MaskShifted(ra, rm, r4)) == Some(0xA0)
  {
    AndMaskValue(bits, ra, rm, 0xCA, 0xF);
    BitShiftComputes(bits, Lshift, AndMask(ra, rm), Bit(r4), 0xA, 4);
  }

  lemma NewXValue(bits: BitRegs, rb: Reg, re: Reg, ra: Reg, rf: Reg, rm: Reg, r8: Reg, r4: Reg)
    requires rb in bits && re in bits && ra in bits && rf in bits && rm in bits && r8 in bits && r4 in bits
    requires bits[rb] == 0xB0 && bits[re] == 0xE0000 && bits[ra] == 0xCA && bits[rf] == 0xF
    requires bits[rm] == 0xF && bits[r8] == 8 && bits[r4] == 4
    ensures Eval(bits, NewX(rb, re, ra, rf, rm, r8, r4)) == Some(0xBEAF)
  {
    var hi, lo := HighBytes(rb, re, r8), MaskShifted(ra, rm, r4);
    HighBytesValue(bits, rb, re, r8);
    MaskShiftedValue(bits, ra, rm, r4);
    var o2 := Expr(BitLogical(Or, hi, lo).value);
    BitLogicalComputes(bits, Or, hi, lo, 0xBE00, 0xA0);
    var fm := Expr(BitLogical(Or, Bit(rf), Bit(rm)).value);
    BitLogicalComputes(bits, Or, Bit(rf), Bit(rm), 0xF, 0xF);
    BitLogicalComputes(bits, Or, o2, fm, 0xBEA0, 0xF);
  }

  lemma BitsLiteralPatterns()
    ensures Pattern(0xB0) == 0xB0 && Pattern(0xE0000) == 0xE0000 && Pattern(0xCA) == 0xCA
    ensures Pattern(5) == 5 && Pattern(0xF) == 0xF && Pattern(8) == 8 && Pattern(4) == 4
  {
    PatternOfBits(0xB0);
    PatternOfBits(0xE0000);
    PatternOfBits(0xCA);
    PatternOfBits(5);
    PatternOfBits(0xF);
    PatternOfBits(8);
    PatternOfBits(4);
  }

  /** The registers of the eight Bits variables after their literals; f's
      register is none of the others. */
  lemma BitsLoadedBits(regs: Regs, rb: Reg, re: Reg, ra: Reg, rf: Reg, rx: Reg, rm: Reg, r8: Reg, r4: Reg)
    requires Usable(BitsLiterals(rb, re, ra, rf, rx, rm, r8, r4))
    ensures var bits := AsBits(Loaded(regs, BitsLiterals(rb, re, ra, rf, rx, rm, r8, r4)));
            && rb in bits && re in bits && ra in bits && rf in bits && rm in bits && r8 in bits && r4 in bits
            && bits[rb] == 0xB0 && bits[re] == 0xE0000 && bits[ra] == 0xCA && bits[rf] == 5
            && bits[rm] == 0xF && bits[r8] == 8 && bits[r4] == 4
    ensures rf != rb && rf != re && rf != ra && rf != rm && rf != r8 && rf != r4
  {
    var lits := BitsLiterals(rb, re, ra, rf, rx, rm, r8, r4);
    LoadedBits(regs, lits, 0);
    LoadedBits(regs, lits, 1);
    LoadedBits(regs, lits, 2);
    LoadedBits(regs, lits, 3);
    LoadedBits(regs, lits, 5);
    LoadedBits(regs, lits, 6);
    LoadedBits(regs, lits, 7);
    BitsLiteralPatterns();
    assert lits[0].0 != lits[3].0 && lits[1].0 != lits[3].0 && lits[2].0 != lits[3].0;
    assert lits[3].0 != lits[5].0 && lits[3].0 != lits[6].0 && lits[3].0 != lits[7].0;
  }

  /** `TestBits`: after the eight literals are materialized, `f.v = ...`
      stores 0xF in f's register, and the expression assigned to x (the
      return register) evaluates to 0xBEAF. */
  lemma TestBitsYieldsBEAF(regs: Regs, rb: Reg, re: Reg, ra: Reg, rf: Reg, rx: Reg, rm: Reg, r8: Reg, r4: Reg)
    requires Usable(BitsLiterals(rb, re, ra, rf, rx, rm, r8, r4))
    ensures var bits := AsBits(Run(regs, SplitAll(BitsLiterals(rb, re, ra, rf, rx, rm, r8, r4))));
            && Eval(bits, NewF(ra, rm, rf)) == Some(0xF)
            && Eval(bits[rf := 0xF], NewX(rb, re, ra, rf, rm, r8, r4)) == Some(0xBEAF)
  {
    var lits := BitsLiterals(rb, re, ra, rf, rx, rm, r8, r4);
    assert Run(regs, SplitAll(lits)) == Loaded(regs, lits) by {
      SplitAllLoads(regs, lits);
    }
    var bits := AsBits(Loaded(regs, lits));
    BitsLoadedBits(regs, rb, re, ra, rf, rx, rm, r8, r4);
    NewFValue(bits, ra, rm, rf);
    NewXValue(bits[rf := 0xF], rb, re, ra, rf, rm, r8, r4);
  }

  // ---- SimpleTest ----

  function Signed(r: Reg): Operand { Variable(SignedWord, r) }

  /** `a + (byte_mask & b) + 12`: the Bits mask on the left upcasts to
      SignedWord, so both additions are SignedWord's. */
  function MaskedSumPlus12(ra: Reg, rb: Reg, rm: Reg): Operand {
    var mb := Expr(BitLogical(And, Bit(rm), Signed(rb)).value);
    var s := Expr(SignedAdd(Signed(ra), mb).value);
    Expr(SignedAdd(s, IntLit(12)).value)
  }

  /** `a + (b & byte_mask)`: the SignedWord on the left keeps its kind. */
  function MaskedSum(ra: Reg, rb: Reg, rm: Reg): Operand {
    var bm := Expr(BitLogical(And, Signed(rb), Bit(rm)).value);
    Expr(SignedAdd(Signed(ra), bm).value)
  }

  /** `a = SignedWord(11)`, `b = SignedWord(31)`, `byte_mask = Bits(0xFF)`. */
  function SimpleLiterals(ra: Reg, rb: Reg, rm: Reg): seq<(Reg, int)> {
    [(ra, 11), (rb, 31), (rm, 0xFF)]
  }

  lemma MaskedSumPlus12Value(bits: BitRegs, ra: Reg, rb: Reg, rm: Reg)
    requires ra in bits && rb in bits && rm in bits
    requires bits[ra] == 11 && bits[rb] == 31 && bits[rm] == 0xFF
    ensures Eval(bits, MaskedSumPlus12(ra, rb, rm)) == Some(54)
  {
    var mb := Expr(BitLogical(And, Bit(rm), Signed(rb)).value);
    BitLogicalComputes(bits, And, Bit(rm), Signed(rb), 0xFF, 31);
    assert Eval(bits, mb) == Some(31);
    var s := Expr(SignedAdd(Signed(ra), mb).value);
    SignedAddComputesSum(bits, Signed(ra), mb, 11, 31);
    assert Eval(bits, s) == Some(42);
    SignedAddImmediateComputesSum(bits, s, IntLit(12), 42, 12);
    assert MaskedSumPlus12(ra, rb, rm) == Expr(SignedAdd(s, IntLit(12)).value);
    TwelveIsItsHalfword();
  }

  lemma SimpleLiteralPatterns()
    ensures Pattern(11) == 11 && Pattern(31) == 31 && Pattern(0xFF) == 0xFF
  {
    PatternOfBits(11);
    PatternOfBits(31);
    PatternOfBits(0xFF);
  }

  lemma TwelveIsItsHalfword()
    ensures Pattern(SignExt16(12)) == 12
  {
    SignExt16OfHalfword(12);
    PatternOfBits(12);
  }

  lemma MaskedSumValue(bits: BitRegs, ra: Reg, rb: Reg, rm: Reg)
    requires ra in bits && rb in bits && rm in bits
    requires bits[ra] == 11 && bits[rb] == 31 && bits[rm] == 0xFF
    ensures Eval(bits, MaskedSum(ra, rb, rm)) == Some(42)
  {
    var bm := Expr(BitLogical(And, Signed(rb), Bit(rm)).value);
    BitLogicalComputes(bits, And, Signed(rb), Bit(rm), 31, 0xFF);
    assert Eval(bits, bm) == Some(31);
    SignedAddComputesSum(bits, Signed(ra), bm, 11, 31);
  }

  /** The registers of `a`, `b` and `byte_mask` after their literals. */
  lemma SimpleLoadedBits(regs: Regs, ra: Reg, rb: Reg, rm: Reg)
    requires Usable(SimpleLiterals(ra, rb, rm))
    ensures var bits := AsBits(Loaded(regs, SimpleLiterals(ra, rb, rm)));
            && ra in bits && rb in bits && rm in bits
            && bits[ra] == 11 && bits[rb] == 31 && bits[rm] == 0xFF
  {
    var lits := SimpleLiterals(ra, rb, rm);
    LoadedBits(regs, lits, 0);
    LoadedBits(regs, lits, 1);
    LoadedBits(regs, lits, 2);
    SimpleLiteralPatterns();
  }

  /** `SimpleTest`, first half: after the three literals and the explicit
      `addi(gp_return, 0, 31)`, the expression assigned to c (the return
      register) evaluates to 54. */
  lemma SimpleTestFirstHalfYields54(regs: Regs, ra: Reg, rb: Reg, rm: Reg, rc: Reg)
    requires Usable(SimpleLiterals(ra, rb, rm)) && rc != ra && rc != rb && rc != rm
    ensures var bits := AsBits(Run(regs, SplitAll(SimpleLiterals(ra, rb, rm)) + [AddImm(rc, 0, 31)]));
            Eval(bits, MaskedSumPlus12(ra, rb, rm)) == Some(54)
  {
    var lits := SimpleLiterals(ra, rb, rm);
    var loaded := Loaded(regs, lits);
    assert Run(regs, SplitAll(lits) + [AddImm(rc, 0, 31)]) == loaded[rc := 31] by {
      SplitAllLoads(regs, lits);
      RunAppend(regs, SplitAll(lits), [AddImm(rc, 0, 31)]);
      OneStepLoads(loaded, rc, 31);
    }
    var bits := AsBits(loaded[rc := 31]);
    assert ra in bits && rb in bits && rm in bits && bits[ra] == 11 && bits[rb] == 31 && bits[rm] == 0xFF by {
      SimpleLoadedBits(regs, ra, rb, rm);
      AsBitsUpdate(loaded, rc, 31);
    }
    MaskedSumPlus12Value(bits, ra, rb, rm);
  }

  /** `SimpleTest`, second half, on a reset stream: the expression assigned
      to c evaluates to 42. */
  lemma SimpleTestSecondHalfYields42(regs: Regs, ra: Reg, rb: Reg, rm: Reg)
    requires Usable(SimpleLiterals(ra, rb, rm))
    ensures Eval(AsBits(Run(regs, SplitAll(SimpleLiterals(ra, rb, rm)))), MaskedSum(ra, rb, rm)) == Some(42)
  {
    var lits := SimpleLiterals(ra, rb, rm);
    SplitAllLoads(regs, lits);
    SimpleLoadedBits(regs, ra, rb, rm);
    MaskedSumValue(AsBits(Loaded(regs, lits)), ra, rb, rm);
  }
}
