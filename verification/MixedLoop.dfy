/**
 * The benchmark loop that interleaves 16- and 32-bit encodings: its declared
 * instruction count, which takes both executors, and what it leaves in registers.
 */
module MixedLoop {
  import opened Bits
  import opened HostImports
  import opened FlatMemory
  import opened PagedMemory
  import opened Machine
  import opened Formats
  import opened Steps
  import opened RunLoop
  import opened Cpu
  import opened Guest
  import opened Multiply
  import opened Arithmetic

  /** The instructions of `mixed_loop`; the branch goes back from byte 22 to byte 8. */
  function Code(v: bv32): (r: seq<Inst>)
    ensures |r| == 11
  {
    Li(5, v) + [
      Narrow(CAddi(6, 1)),
      Wide(Xori(7, 7, 0x3C3)),
      Narrow(CAddi(8, 0xFFFF_FFFF)),
      Wide(Add(9, 7, 6)),
      Narrow(CAddi(5, 0xFFFF_FFFF)),
      Wide(Bnez(5, Wrapped(-14)))] + Exit()
  }

  lemma Starts(v: bv32)
    ensures var s := Code(v);
            && Start(s, 0) == 0 && Start(s, 1) == 4 && Start(s, 2) == 8 && Start(s, 3) == 10 && Start(s, 4) == 14
            && Start(s, 5) == 16 && Start(s, 6) == 20 && Start(s, 7) == 22 && Start(s, 8) == 26 && Start(s, 9) == 30
            && Start(s, 10) == 34 && Start(s, 11) == 38
  {
    hide Lui, Addi, Xori, Add, Bnez, CAddi, High, Low, Start, Wrapped;
    var s := Code(v);
    StartNext(s, 0);
    StartNext(s, 1);
    StartNext(s, 2);
    StartNext(s, 3);
    StartNext(s, 4);
    StartNext(s, 5);
    StartNext(s, 6);
    StartNext(s, 7);
    StartNext(s, 8);
    StartNext(s, 9);
    StartNext(s, 10);
  }

  lemma BackOffset()
    ensures Wrapped(-14) == 0xFFFF_FFF2 && Fits13(0xFFFF_FFF2)
  {
    hide FromNat;
    LiteralWord(0xFFFF_FFF2, 0xFFFF_FFF2);
  }

  // ---- One pass ----

  /** Registers after one pass. */
  function Pass(m: Machine): Machine {
    var x6, x7 := Plus(m.regs[6], 1), Xor(m.regs[7], 0x3C3);
    m.(regs := m.regs[6 := x6][7 := x7][8 := Plus(m.regs[8], 0xFFFF_FFFF)][9 := Plus(x7, x6)]
                     [5 := Plus(m.regs[5], 0xFFFF_FFFF)])
  }

  lemma StartOfPass(o: Oracle, d: Debug, m: Machine, v: bv32)
    requires Executing(m, Code(v), 2) && FreeInsts(d, Code(v), 0, 8)
    ensures var x6, x7 := Plus(m.regs[6], 1), Xor(m.regs[7], 0x3C3);
            Moves(o, d, m, 2, m.(regs := m.regs[6 := x6][7 := x7], pc := Pc(Code(v), 4)))
  {
    hide FetchExecute, Moves, Free, Holds, Pc, Start, Lui, Addi, Xori, Add, Bnez, CAddi, High, Low;
    hide Wrapped, Plus, Xor;
    var code := Code(v);
    Immediates();
    Starts(v);
    CAddiRuns(o, m, code, 2, 6, 1);
    var m1 := m.(regs := m.regs[6 := Plus(m.regs[6], 1)], pc := Pc(code, 3));
    OneMove(o, d, m, m1);
    XoriRuns(o, m1, code, 3, 7, 7, 0x3C3);
    var m2 := m1.(regs := m1.regs[7 := Xor(m.regs[7], 0x3C3)], pc := Pc(code, 4));
    OneMove(o, d, m1, m2);
    MovesCompose(o, d, m, 1, m1, 1, m2);
  }

  lemma MiddleOfPass(o: Oracle, d: Debug, m: Machine, v: bv32)
    requires Executing(m, Code(v), 4) && FreeInsts(d, Code(v), 0, 8)
    ensures var x8, x9 := Plus(m.regs[8], 0xFFFF_FFFF), Plus(m.regs[7], m.regs[6]);
            Moves(o, d, m, 2, m.(regs := m.regs[8 := x8][9 := x9], pc := Pc(Code(v), 6)))
  {
    hide FetchExecute, Moves, Free, Holds, Pc, Start, Lui, Addi, Xori, Add, Bnez, CAddi, High, Low;
    hide Wrapped, Plus, Xor;
    var code := Code(v);
    Immediates();
    Starts(v);
    CAddiRuns(o, m, code, 4, 8, 0xFFFF_FFFF);
    var m1 := m.(regs := m.regs[8 := Plus(m.regs[8], 0xFFFF_FFFF)], pc := Pc(code, 5));
    OneMove(o, d, m, m1);
    AddRuns(o, m1, code, 5, 9, 7, 6);
    var m2 := m1.(regs := m1.regs[9 := Plus(m.regs[7], m.regs[6])], pc := Pc(code, 6));
    OneMove(o, d, m1, m2);
    MovesCompose(o, d, m, 1, m1, 1, m2);
  }

  lemma EndOfPass(o: Oracle, d: Debug, m: Machine, v: bv32)
    requires Executing(m, Code(v), 6) && FreeInsts(d, Code(v), 0, 8)
    ensures var x5 := Plus(m.regs[5], 0xFFFF_FFFF);
            Moves(o, d, m, 2, m.(regs := m.regs[5 := x5], pc := Pc(Code(v), if x5 != 0 then 2 else 8)))
  {
    hide FetchExecute, Moves, Free, Holds, Pc, Start, Lui, Addi, Xori, Add, Bnez, CAddi, High, Low;
    hide Wrapped, Plus, Xor;
    var code, x5 := Code(v), Plus(m.regs[5], 0xFFFF_FFFF);
    Immediates();
    BackOffset();
    Starts(v);
    CAddiRuns(o, m, code, 6, 5, 0xFFFF_FFFF);
    var m1 := m.(regs := m.regs[5 := x5], pc := Pc(code, 7));
    OneMove(o, d, m, m1);
    BnezRuns(o, m1, code, 7, 5, Wrapped(-14));
    BranchBack(code, 7, 2, 14);
    var m2 := m1.(pc := Pc(code, if x5 != 0 then 2 else 8));
    OneMove(o, d, m1, m2);
    MovesCompose(o, d, m, 1, m1, 1, m2);
  }

  /** One pass: six instructions, three of them compressed. */
  lemma OnePass(o: Oracle, d: Debug, m: Machine, v: bv32)
    requires Executing(m, Code(v), 2) && FreeInsts(d, Code(v), 0, 8)
    ensures Moves(o, d, m, 6, Pass(m).(pc := Pc(Code(v), if Pass(m).regs[5] != 0 then 2 else 8)))
  {
    hide Moves, Ready, FreeInsts, Pc, Start, Plus, Xor, Code;
    var x6, x7 := Plus(m.regs[6], 1), Xor(m.regs[7], 0x3C3);
    Starts(v);
    StartOfPass(o, d, m, v);
    var m1 := m.(regs := m.regs[6 := x6][7 := x7], pc := Pc(Code(v), 4));
    StaysExecuting(m, Code(v), 2, m1, 4);
    MiddleOfPass(o, d, m1, v);
    var m2 := m1.(regs := m1.regs[8 := Plus(m.regs[8], 0xFFFF_FFFF)][9 := Plus(x7, x6)], pc := Pc(Code(v), 6));
    StaysExecuting(m, Code(v), 2, m2, 6);
    MovesCompose(o, d, m, 2, m1, 2, m2);
    EndOfPass(o, d, m2, v);
    MovesCompose(o, d, m, 4, m2, 2, Pass(m).(pc := Pc(Code(v), if Pass(m).regs[5] != 0 then 2 else 8)));
  }

  // ---- All passes ----

  /** The machine after `p` passes, wherever its pc is. */
  function Passed(m: Machine, p: nat): Machine
    decreases p
  {
    if p == 0 then m else Passed(Pass(m), p - 1)
  }

  /** The pc plays no part in it, and only registers change: x6 counts up and x8 counts down. */
  lemma {:induction false} PassedFacts(m: Machine, p: nat, pc: bv32)
    ensures Passed(m.(pc := pc), p) == Passed(m, p).(pc := pc)
    ensures Passed(m, p) == m.(regs := Passed(m, p).regs)
    ensures Passed(m, p).regs[6] == Plus(m.regs[6], FromNat(p))
    ensures Plus(Passed(m, p).regs[8], FromNat(p)) == m.regs[8]
    decreases p
  {
    hide Plus, Xor, FromNat;
    if p == 0 {
      FromNatZero();
      PlusZero(m.regs[6]);
      PlusZero(m.regs[8]);
    } else {
      var m1 := Pass(m);
      assert Pass(m.(pc := pc)) == m1.(pc := pc);
      PassedFacts(m1, p - 1, pc);
      FromNatPlus(p - 1, 1);
      LiteralOne();
      CarryOne(m.regs[6], FromNat(p - 1));
      CarryBack(Passed(m, p).regs[8], FromNat(p - 1), m.regs[8]);
    }
  }

  lemma CarryValue(x: bv32, y: bv32)
    ensures Value(Plus(x, Plus(y, 1))) == (Value(x) + Value(y) + 1) % WORD
    ensures Value(Plus(Plus(x, 1), y)) == (Value(x) + Value(y) + 1) % WORD
  {
    hide Plus, Value;
    LastValue();
    SumIsModular(y, 1);
    SumIsModular(x, Plus(y, 1));
    ModSum(Value(y) + 1, Value(x));
    SumIsModular(x, 1);
    SumIsModular(Plus(x, 1), y);
    ModSum(Value(x) + 1, Value(y));
  }

  lemma CarryOne(x: bv32, y: bv32)
    ensures Plus(Plus(x, 1), y) == Plus(x, Plus(y, 1))
  {
    hide Plus, Value;
    CarryValue(x, y);
    ValueIsInjective(Plus(Plus(x, 1), y), Plus(x, Plus(y, 1)));
  }

  lemma CarryBack(x: bv32, y: bv32, z: bv32)
    requires Plus(x, y) == Plus(z, 0xFFFF_FFFF)
    ensures Plus(x, Plus(y, 1)) == z
  {
    hide Plus, Value;
    CarryValue(x, y);
    LastValue();
    SumIsModular(x, y);
    SumIsModular(z, 0xFFFF_FFFF);
    ModSum(Value(x) + Value(y), 1);
    ModSum(Value(z) + (WORD - 1), 1);
    ModUnique(Value(z) + WORD, Value(z), 1);
    ValueIsInjective(Plus(x, Plus(y, 1)), z);
  }

  lemma {:induction false} AllPasses(o: Oracle, d: Debug, m: Machine, v: bv32, p: nat)
    requires Executing(m, Code(v), 2) && FreeInsts(d, Code(v), 0, 8)
    requires 0 < p <= WORD && m.regs[5] == FromNat(p)
    ensures Moves(o, d, m, 6 * p, Passed(m, p).(pc := Pc(Code(v), 8)))
    decreases p
  {
    hide Moves, Ready, FreeInsts, Pc, Start, Plus, Xor, FromNat, Code;
    CountDown(p);
    OnePass(o, d, m, v);
    if p == 1 {
      assert Passed(m, 1) == Pass(m) by {
        assert Passed(Pass(m), 0) == Pass(m);
      }
    } else {
      var m1 := Pass(m).(pc := Pc(Code(v), 2));
      Starts(v);
      StaysExecuting(m, Code(v), 2, m1, 2);
      AllPasses(o, d, m1, v, p - 1);
      PassedFacts(Pass(m), p - 1, Pc(Code(v), 2));
      MovesCompose(o, d, m, 6, m1, 6 * (p - 1), Passed(m, p).(pc := Pc(Code(v), 8)));
    }
  }

  // ---- The count ----

  /** A machine at the start of the program, with no breakpoint on it. */
  ghost predicate AtStart(d: Debug, m: Machine, n: I32) {
    Executing(m, Code(Unsigned(n)), 0) && FreeInsts(d, Code(Unsigned(n)), 0, 11)
  }

  /** The machine at exit. */
  function AfterExit(m: Machine, n: I32): Machine {
    Exited(Passed(m.(regs := m.regs[5 := Unsigned(n)]), Passes(n)), Code(Unsigned(n)), 11)
  }

  lemma SetupCode(v: bv32)
    ensures Code(v)[0..2] == Li(5, v) && Code(v)[8..11] == Exit()
  {
    hide Lui, Addi, Xori, Add, Bnez, CAddi, High, Low, Wrapped;
  }

  lemma RunsToExit(o: Oracle, d: Debug, m: Machine, n: I32)
    requires AtStart(d, m, n)
    ensures Moves(o, d, m, 2 + 6 * Passes(n) + 3, AfterExit(m, n))
  {
    hide Moves, Ready, FreeInsts, Pc, Start, Plus, FromNat, Unsigned, Code, Passes, Passed;
    var v, p := Unsigned(n), Passes(n);
    CounterOf(n);
    Starts(v);
    SetupCode(v);
    FewerFree(d, Code(v), 0, 2, 11);
    FewerFree(d, Code(v), 0, 8, 11);
    FewerFree(d, Code(v), 8, 11, 11);
    RunsLi(o, d, m, Code(v), 0, 5, v);
    var m0 := m.(regs := m.regs[5 := v]);
    var m1 := m0.(pc := Pc(Code(v), 2));
    StaysExecuting(m, Code(v), 0, m1, 2);
    AllPasses(o, d, m1, v, p);
    PassedFacts(m0, p, Pc(Code(v), 2));
    var m2 := Passed(m0, p).(pc := Pc(Code(v), 8));
    MovesCompose(o, d, m, 2, m1, 6 * p, m2);
    StaysExecuting(m, Code(v), 0, m2, 8);
    RunsExit(o, d, m2, Code(v), 8);
    MovesCompose(o, d, m, 2 + 6 * p, m2, 3, AfterExit(m, n));
  }

  /**
   * `run_slice` on `mixed_loop`, for every count, budget and quiet host: it halts
   * after exactly 2 + 6 * passes + 3 instructions of both widths if the budget
   * allows, with x6 raised by the number of passes, and otherwise spends the budget.
   */
  lemma MixedLoopCount(o: Oracle, d: Debug, c: Core, n: I32, budget: nat)
    requires Quiet(o) && AtStart(d, c.m, n)
    ensures var s := RunSlice(o, d, c, budget);
            var total := 2 + 6 * Passes(n) + 3;
            if total <= budget then s.status == Halted && s.steps == total && s.c.m == AfterExit(c.m, n)
            else s.status == Running && s.steps == budget
    ensures AfterExit(c.m, n).exitCode == 0 && AfterExit(c.m, n).st == c.m.st
    ensures AfterExit(c.m, n).regs[6] == Plus(c.m.regs[6], FromNat(Passes(n)))
  {
    hide Moves, Ready, FreeInsts, Pc, Passed, Passes, Unsigned, Code, RunSlice, FromNat, Plus;
    RunsToExit(o, d, c.m, n);
    var m0, p := c.m.(regs := c.m.regs[5 := Unsigned(n)]), Passes(n);
    PassedFacts(m0, p, m0.pc);
    HaltingRun(o, d, c, 2 + 6 * p + 3, AfterExit(c.m, n), budget);
  }

  /** The declared count, in `u64` arithmetic. */
  function Declared(n: I32): nat { (2 + 6 * (n % 0x1_0000_0000_0000_0000) + 3) % 0x1_0000_0000_0000_0000 }

  /** The declared count is the count of a completed run exactly for positive iteration counts that fit the budget. */
  lemma DeclaredExactlyWhenPositive(o: Oracle, d: Debug, c: Core, n: I32, budget: nat)
    requires Quiet(o) && AtStart(d, c.m, n)
    ensures var s := RunSlice(o, d, c, budget);
            (s.status == Halted && s.steps == Declared(n)) <==> (n >= 1 && 2 + 6 * n + 3 <= budget)
  {
    hide AtStart, AfterExit, Unsigned, RunSlice, FromNat, Plus;
    MixedLoopCount(o, d, c, n, budget);
  }

  // ---- Building and running it ----

  /** `mixed_loop`, pushed instruction by instruction. */
  method Build(n: I32) returns (p: Program, instructions: nat)
    ensures fresh(p) && p.Valid() && p.insts == Code(Unsigned(n))
    ensures instructions == Declared(n)
  {
    hide Lui, Addi, Xori, Add, Bnez, CAddi, Li, Exit, Unsigned, Declared, Wrapped, Image;
    p := new Program();
    p.PushLi(5, Unsigned(n));
    var bodyStart := p.LenBytes();
    p.Push16(CAddi(6, 1));
    p.Push32(Xori(7, 7, 0x3C3));
    p.Push16(CAddi(8, 0xFFFF_FFFF));
    p.Push32(Add(9, 7, 6));
    p.Push16(CAddi(5, 0xFFFF_FFFF));
    var back := bodyStart - p.LenBytes();
    p.Push32(Bnez(5, Wrapped(back)));
    p.PushExit();
    instructions := Declared(n);
  }

  lemma ImageFits(v: bv32)
    ensures PROGRAM_BASE + 2 * |Image(Code(v))| <= MMIO_BASE && Start(Code(v), 0) == 0 && Pc(Code(v), 0) == 0x1000
  {
    hide Code, Image;
    Starts(v);
    assert Code(v)[..11] == Code(v);
    LiteralWord(0x1000, 0x1000);
  }

  /** A fresh CPU and memory, the program loaded, one slice. */
  method RunWorkload(o: Oracle, n: I32, budget: nat) returns (status: SliceStatus, steps: nat)
    requires Quiet(o)
    ensures var total := 2 + 6 * Passes(n) + 3;
            if total <= budget then status == Halted && steps == total else status == Running && steps == budget
  {
    hide Code, Unsigned, Declared, Image, Pc, Start, Holds, AfterExit, Contents, RunLoop.RunSlice;
    hide StoreHalves, FromNat;
    var port := new Port(o);
    var cpu := new Cpu();
    cpu.pc := 0x1000;
    var mem := new Memory();
    var program, _ := Build(n);
    ImageFits(Unsigned(n));
    Loaded(mem.View(port), Code(Unsigned(n)));
    program.Load(mem, port);
    MixedLoopCount(o, cpu.Settings(), cpu.Whole(mem, port), n, budget);
    status, steps := cpu.RunSlice(mem, port, budget);
  }
}
