/** Literal materialization: turning a host literal into a register value
    by appending instructions to an instruction stream. */
module Materialize {
  import opened Kinds
  import opened Semantics

  /** The element width of a constant-pool entry: an `array.array('f')`
      holds a 32-bit float, an `array.array('d')` a 64-bit one. */
  datatype Width = Float32 | Float64

  datatype Constant = Constant(width: Width, value: real)

  /** The part of an instruction stream the materializers touch: the
      instructions in emission order, the constant pool, and the
      general-purpose registers the allocator may still hand out. */
  class InstructionStream {
    var insns: seq<Insn>
    var pool: seq<Constant>
    var free: set<Reg>

    constructor (registers: set<Reg>)
      ensures insns == [] && pool == [] && free == registers
    {
      insns, pool, free := [], [], registers;
    }

    /** `code.add(inst)`: append one instruction. */
    method Add(i: Insn)
      modifies this
      ensures insns == old(insns) + [i]
      ensures pool == old(pool) && free == old(free)
    {
      insns := insns + [i];
    }

    /** `code.add_storage(storage)`: keep a constant alive with the stream. */
    method AddStorage(c: Constant)
      modifies this
      ensures pool == old(pool) + [c]
      ensures insns == old(insns) && free == old(free)
    {
      pool := pool + [c];
    }

    /** `code.acquire_register()`: a register no one holds, or none when the
        allocator is exhausted. */
    method AcquireRegister() returns (r: Option<Reg>)
      modifies this
      ensures old(free) == {} ==> r.None? && free == old(free)
      ensures old(free) != {} ==> r.Some? && r.value in old(free) && free == old(free) - {r.value}
      ensures insns == old(insns) && pool == old(pool)
    {
      if free == {} {
        r := None;
      } else {
        var x :| x in free;
        free := free - {x};
        r := Some(x);
      }
    }

    /** `code.release_register(r)`: hand r back to the allocator. */
    method ReleaseRegister(r: Reg)
      modifies this
      ensures free == old(free) + {r}
      ensures insns == old(insns) && pool == old(pool)
    {
      free := free + {r};
    }
  }

  // ---- integer literals ----

  /** What `BitType._set_literal_value(value)` emits into register `reg`:
      `addi reg, 0, value`, then `addis reg, reg, (value + 32768) >> 16`
      exactly when `value & 0xFFFF != value`.  Python's `>>` floors, as
      Dafny's `/` by a positive divisor does. */
  function LiteralSplit(reg: Reg, value: int): (p: seq<Insn>)
    ensures 1 <= |p| <= 2 && p[0] == AddImm(reg, 0, value)
    ensures |p| == 2 <==> Low16(value) != value
    ensures |p| == 2 ==> p[1] == AddImmShifted(reg, reg, (value + 0x8000) / 0x10000)
  {
    [AddImm(reg, 0, value)]
    + (if Low16(value) != value then [AddImmShifted(reg, reg, (value + 32768) / 65536)] else [])
  }

  /** `BitType._set_literal_value`, inherited by both word kinds. */
  method SetBitLiteral(code: InstructionStream, reg: Reg, value: int)
    modifies code
    ensures code.insns == old(code.insns) + LiteralSplit(reg, value)
    ensures code.pool == old(code.pool) && code.free == old(code.free)
  {
    code.Add(AddImm(reg, 0, value));
    if Low16(value) != value {
      code.Add(AddImmShifted(reg, reg, (value + 32768) / 65536));
    }
  }

  /** The split's arithmetic: the sign-extended low halfword plus the
      rounded high halfword shifted left 16 is the value, for every integer. */
  lemma HalvesReconstruct(v: int)
    ensures SignExt16(v) + ((v + 0x8000) / 0x10000) * 0x10000 == v
  {
    var q, lo := v / 0x10000, v % 0x10000;
    assert v == q * 0x10000 + lo;
    if lo < 0x8000 {
      assert q * 0x10000 <= v + 0x8000 < (q + 1) * 0x10000;
      assert (v + 0x8000) / 0x10000 == q;
    } else {
      assert (q + 1) * 0x10000 <= v + 0x8000 < (q + 2) * 0x10000;
      assert (v + 0x8000) / 0x10000 == q + 1;
    }
  }

  /** Adding a multiple of 2^32 does not change a register value. */
  lemma WordAddMultiple(a: int, m: int)
    ensures ToWord(a + m * 0x1_0000_0000) == ToWord(a)
  {
    var q := a / 0x1_0000_0000;
    assert a + m * 0x1_0000_0000 == (q + m) * 0x1_0000_0000 + ToWord(a);
  }

  /** `addis` sign-extends its halfword before shifting, which differs from
      shifting the plain value by a multiple of 2^32 only. */
  lemma ShiftedHalfword(h: int) returns (c: int)
    ensures SignExt16(h) * 0x10000 == h * 0x10000 - c * 0x1_0000_0000
  {
    var q, lo := h / 0x10000, h % 0x10000;
    assert h * 0x10000 == q * 0x1_0000_0000 + lo * 0x10000;
    c := if lo < 0x8000 then q else q + 1;
  }

  /** `addi reg, 0, v; addis reg, reg, (v + 32768) >> 16` leaves v, modulo
      2^32, in reg and changes no other register. */
  lemma TwoStepLoads(regs: Regs, reg: Reg, value: int)
    requires reg != 0
    ensures var h := (value + 0x8000) / 0x10000;
            var after := Run(regs, [AddImm(reg, 0, value), AddImmShifted(reg, reg, h)]);
            Get(after, reg) == ToWord(value) && after == regs[reg := ToWord(value)]
  {
    var h := (value + 0x8000) / 0x10000;
    var p := [AddImm(reg, 0, value), AddImmShifted(reg, reg, h)];
    var r1 := Step(regs, p[0]);
    assert r1 == regs[reg := ToWord(SignExt16(value))];
    var lo := ToWord(SignExt16(value));
    var r2 := Step(r1, p[1]);
    assert r2 == regs[reg := ToWord(lo + SignExt16(h) * 0x10000)];
    assert Run(regs, p) == r2 by {
      assert p[1..] == [p[1]];
      assert Run(r1, p[1..]) == Run(r2, []);
    }
    var c := ShiftedHalfword(h);
    // lo differs from SignExt16(value) by a multiple of 2^32
    WordAddMultiple(SignExt16(value) + SignExt16(h) * 0x10000, -(SignExt16(value) / 0x1_0000_0000));
    assert lo == SignExt16(value) - (SignExt16(value) / 0x1_0000_0000) * 0x1_0000_0000;
    assert ToWord(lo + SignExt16(h) * 0x10000) == ToWord(SignExt16(value) + SignExt16(h) * 0x10000);
    WordAddMultiple(SignExt16(value) + h * 0x10000, -c);
    HalvesReconstruct(value);
    assert ToWord(SignExt16(value) + SignExt16(h) * 0x10000) == ToWord(value);
  }

  /** A lone `addi reg, 0, v` leaves v in reg when v fits 16 signed bits. */
  lemma OneStepLoads(regs: Regs, reg: Reg, value: int)
    requires -0x8000 <= value < 0x8000
    ensures Run(regs, [AddImm(reg, 0, value)]) == regs[reg := ToWord(value)]
  {
    SignExt16OfHalfword(value);
    assert Run(regs, [AddImm(reg, 0, value)]) == Run(Step(regs, AddImm(reg, 0, value)), []);
  }

  /** Round trip of the split as written: the emitted instructions leave the
      literal (modulo 2^32) in reg and touch no other register, for every
      value outside 0x8000..0xFFFF.  A target of r0 is excluded because
      addis reads RA = 0 as the value 0. */
  lemma {:induction false} SplitLoadsValue(regs: Regs, reg: Reg, value: int)
    requires reg != 0
    requires !(0x8000 <= value < 0x10000)
    ensures Run(regs, LiteralSplit(reg, value)) == regs[reg := ToWord(value)]
  {
    if Low16(value) == value {
      OneStepLoads(regs, reg, value);
    } else {
      TwoStepLoads(regs, reg, value);
    }
  }

  /** The split into r0, which the allocator never hands out but an
      explicit `reg=` can name: `addis r0, r0, h` reads RA = 0 as the value
      0, so the low half loaded by the `addi` is lost and only the shifted
      high half remains. */
  lemma {:induction false} SplitIntoR0KeepsHighHalf(regs: Regs, value: int)
    requires Low16(value) != value
    ensures var h := (value + 0x8000) / 0x10000;
            Run(regs, LiteralSplit(0, value)) == regs[0 := ToWord(SignExt16(h) * 0x10000)]
  {
    var h := (value + 0x8000) / 0x10000;
    var p := LiteralSplit(0, value);
    assert p == [AddImm(0, 0, value), AddImmShifted(0, 0, h)];
    var r1 := Step(regs, p[0]);
    var r2 := Step(r1, p[1]);
    assert r2 == regs[0 := ToWord(SignExt16(h) * 0x10000)];
    assert p[1..] == [p[1]];
    assert Run(r1, p[1..]) == Run(r2, []);
  }

  /** For instance 0x12345 materialized into r0 leaves 0x10000 there. */
  lemma SplitIntoR0Misloads()
    ensures forall regs: Regs :: Run(regs, LiteralSplit(0, 0x12345)) == regs[0 := 0x10000]
    ensures ToWord(0x12345) != 0x10000
  {
    forall regs: Regs
      ensures Run(regs, LiteralSplit(0, 0x12345)) == regs[0 := 0x10000]
    {
      SplitIntoR0KeepsHighHalf(regs, 0x12345);
      SignExt16OfHalfword(1);
    }
  }

  /** Materializing several integer literals, one variable after another,
      each into its own register. */
  function SplitAll(bindings: seq<(Reg, int)>): seq<Insn>
    decreases |bindings|
  {
    if bindings == [] then []
    else
      var last := bindings[|bindings| - 1];
      SplitAll(bindings[..|bindings| - 1]) + LiteralSplit(last.0, last.1)
  }

  /** The register file the bindings describe: each register holds its
      literal modulo 2^32, a later binding of a register overriding an
      earlier one. */
  function Loaded(regs: Regs, bindings: seq<(Reg, int)>): Regs
    decreases |bindings|
  {
    if bindings == [] then regs
    else
      var last := bindings[|bindings| - 1];
      Loaded(regs, bindings[..|bindings| - 1])[last.0 := ToWord(last.1)]
  }

  /** Materializing literals in sequence loads every one of them. */
  lemma {:induction false} SplitAllLoads(regs: Regs, bindings: seq<(Reg, int)>)
    requires forall j :: 0 <= j < |bindings| ==> bindings[j].0 != 0 && !(0x8000 <= bindings[j].1 < 0x10000)
    ensures Run(regs, SplitAll(bindings)) == Loaded(regs, bindings)
    decreases |bindings|
  {
    if bindings != [] {
      var init, last := bindings[..|bindings| - 1], bindings[|bindings| - 1];
      SplitAllLoads(regs, init);
      RunAppend(regs, SplitAll(init), LiteralSplit(last.0, last.1));
      SplitLoadsValue(Loaded(regs, init), last.0, last.1);
    }
  }

  /** No register is bound twice. */
  predicate DistinctRegisters(bindings: seq<(Reg, int)>) {
    forall i, j :: 0 <= i < j < |bindings| ==> bindings[i].0 != bindings[j].0
  }

  /** With distinct registers, every binding's register holds its literal. */
  lemma {:induction false} LoadedHolds(regs: Regs, bindings: seq<(Reg, int)>, j: int)
    requires 0 <= j < |bindings| && DistinctRegisters(bindings)
    ensures bindings[j].0 in Loaded(regs, bindings)
    ensures Loaded(regs, bindings)[bindings[j].0] == ToWord(bindings[j].1)
    decreases |bindings|
  {
    var init := bindings[..|bindings| - 1];
    if j < |bindings| - 1 {
      assert init[j] == bindings[j];
      assert DistinctRegisters(init) by {
        forall i, k | 0 <= i < k < |init|
          ensures init[i].0 != init[k].0
        {
          assert init[i] == bindings[i] && init[k] == bindings[k];
        }
      }
      LoadedHolds(regs, init, j);
    }
  }

  /** The boundary the split gets wrong: a value in 0x8000..0xFFFF passes the
      `value & 0xFFFF == value` test, so only `addi` is emitted, and addi
      sign-extends, leaving value - 0x10000 (0xFFFF8000 for 0x8000). */
  lemma {:induction false} SplitMisloadsUpperHalfword(regs: Regs, reg: Reg, value: int)
    requires 0x8000 <= value < 0x10000
    ensures LiteralSplit(reg, value) == [AddImm(reg, 0, value)]
    ensures Run(regs, LiteralSplit(reg, value)) == regs[reg := value + 0xFFFF_0000]
    ensures value + 0xFFFF_0000 != ToWord(value)
  {
    assert SignExt16(value) == value - 0x10000;
    assert Run(regs, [AddImm(reg, 0, value)]) == Run(Step(regs, AddImm(reg, 0, value)), []);
  }

  /** The evidently intended split: a single `addi` only when the value fits
      16 SIGNED bits, the `addis` otherwise. */
  function CorrectedSplit(reg: Reg, value: int): (p: seq<Insn>)
    ensures 1 <= |p| <= 2 && p[0] == AddImm(reg, 0, value)
    ensures |p| == 2 <==> !(-0x8000 <= value < 0x8000)
  {
    [AddImm(reg, 0, value)]
    + (if !(-0x8000 <= value < 0x8000) then [AddImmShifted(reg, reg, (value + 32768) / 65536)] else [])
  }

  /** The corrected split loads every integer, modulo 2^32. */
  lemma {:induction false} CorrectedSplitLoadsValue(regs: Regs, reg: Reg, value: int)
    requires reg != 0
    ensures Run(regs, CorrectedSplit(reg, value)) == regs[reg := ToWord(value)]
  {
    if -0x8000 <= value < 0x8000 {
      OneStepLoads(regs, reg, value);
    } else {
      TwoStepLoads(regs, reg, value);
    }
  }

  // ---- float literals ----

  /** The pool width and load instruction per float kind: `'f'` and `lfs`
      for single precision, `'d'` and `lfd` for double. */
  function WidthOf(k: Kind): Width {
    if k == SingleFloat then Float32 else Float64
  }

  function LoadOf(k: Kind, frt: Reg, base: Reg): Insn {
    if k == SingleFloat then LoadFloatSingle(frt, base, 0) else LoadFloatDouble(frt, base, 0)
  }

  /** `SingleFloatType._set_literal_value` and `DoubleFloatType._set_literal_value`:
      store the variable's own `value` attribute in the constant pool (the
      `value` argument is not read), acquire a scratch register, load the
      pool entry's host address into it with the integer split, load the
      float from offset 0 of that address, and release the scratch register.
      `ok` is false when the allocator has no register to give, which the
      source meets with an exception after the pool entry is added. */
  method SetFloatLiteral(code: InstructionStream, kind: Kind, reg: Reg, selfValue: real, value: real, addr: int)
    returns (ok: bool, ghost scratch: Reg)
    requires kind == SingleFloat || kind == DoubleFloat
    modifies code
    ensures code.pool == old(code.pool) + [Constant(WidthOf(kind), selfValue)]
    ensures ok <==> old(code.free) != {}
    ensures ok ==> scratch in old(code.free)
    ensures ok ==> code.insns == old(code.insns) + LiteralSplit(scratch, addr) + [LoadOf(kind, reg, scratch)]
    ensures !ok ==> code.insns == old(code.insns)
    ensures code.free == old(code.free)
  {
    code.AddStorage(Constant(WidthOf(kind), selfValue));
    var r := code.AcquireRegister();
    if r.None? {
      ok, scratch := false, 0;
      return;
    }
    var rs := r.value;
    SetBitLiteral(code, rs, addr);
    code.Add(LoadOf(kind, reg, rs));
    code.ReleaseRegister(rs);
    ok, scratch := true, rs;
  }

  /** When the float load executes, its base register holds the pool
      entry's address (for any address outside 0x8000..0xFFFF, and a scratch
      register other than r0), and no other general-purpose register has
      changed. */
  lemma {:induction false} FloatLoadSeesAddress(regs: Regs, kind: Kind, reg: Reg, scratch: Reg, addr: int)
    requires scratch != 0
    requires !(0x8000 <= addr < 0x10000)
    ensures Run(regs, LiteralSplit(scratch, addr) + [LoadOf(kind, reg, scratch)]) == regs[scratch := ToWord(addr)]
  {
    var load := LoadOf(kind, reg, scratch);
    RunAppend(regs, LiteralSplit(scratch, addr), [load]);
    SplitLoadsValue(regs, scratch, addr);
    var mid := regs[scratch := ToWord(addr)];
    assert Run(mid, [load]) == Run(Step(mid, load), []);
  }
}
