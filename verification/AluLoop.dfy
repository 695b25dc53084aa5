/**
 * The register-only benchmark loop and its declared instruction count, from the
 * pushes that build it to a run on the CPU object.
 */
module AluLoop {
  import opened Wrappers
  import opened Bits
  import opened HostImports
  import opened FlatMemory
  import opened PagedMemory
  import opened Machine
  import opened Formats
  import opened Steps
  import opened RunLoop
  import opened Cpu
  import opened Guest

  /** The instructions of `alu_loop`; the branch goes back from byte 24 to byte 8. */
  function Code(v: bv32): (r: seq<Inst>)
    ensures |r| == 10
  {
    Li(5, v) + [
      Wide(Addi(5, 5, 0xFFFF_FFFF)),
      Wide(Xori(6, 6, 0x5A5)),
      Wide(Slli(7, 6, 3)),
      Wide(Add(8, 7, 6)),
      Wide(Bnez(5, Wrapped(-16)))] + Exit()
  }

  lemma AllWide(v: bv32, k: nat)
    requires k <= 10
    ensures forall i :: 0 <= i < |Code(v)| ==> Code(v)[i].Wide?
    ensures Start(Code(v), k) == 4 * k
  {
    hide Lui, Addi, Xori, Slli, Add, Bnez, High, Low, Start, Wrapped;
    WideStarts(Code(v), k);
  }

  lemma BackOffset()
    ensures Wrapped(-16) == 0xFFFF_FFF0 && Fits13(0xFFFF_FFF0)
  {
    hide FromNat;
    LiteralWord(0xFFFF_FFF0, 0xFFFF_FFF0);
  }

  // ---- One pass ----

  /** Registers after some passes of the loop body, as a function of x5 and x6. */
  function Body(m: Machine, x5: bv32, x6: bv32): Machine {
    m.(regs := m.regs[5 := x5][6 := x6][7 := Shl(x6, 3)][8 := Plus(Shl(x6, 3), x6)])
  }

  lemma StartOfPass(o: Oracle, d: Debug, m: Machine, v: bv32)
    requires Executing(m, Code(v), 2) && FreeInsts(d, Code(v), 0, 7)
    ensures var x5, x6 := Plus(m.regs[5], 0xFFFF_FFFF), Xor(m.regs[6], 0x5A5);
            Moves(o, d, m, 2, m.(regs := m.regs[5 := x5][6 := x6], pc := Pc(Code(v), 4)))
  {
    hide FetchExecute, Moves, Free, Holds, Pc, Start, Lui, Addi, Xori, Slli, Add, Bnez, High, Low;
    hide Wrapped, Plus, Xor, Shl;
    var code := Code(v);
    Immediates();
    AllWide(v, 3);
    AddiRuns(o, m, code, 2, 5, 5, 0xFFFF_FFFF);
    var m1 := m.(regs := m.regs[5 := Plus(m.regs[5], 0xFFFF_FFFF)], pc := Pc(code, 3));
    OneMove(o, d, m, m1);
    XoriRuns(o, m1, code, 3, 6, 6, 0x5A5);
    var m2 := m1.(regs := m1.regs[6 := Xor(m.regs[6], 0x5A5)], pc := Pc(code, 4));
    OneMove(o, d, m1, m2);
    MovesCompose(o, d, m, 1, m1, 1, m2);
  }

  lemma MiddleOfPass(o: Oracle, d: Debug, m: Machine, v: bv32)
    requires Executing(m, Code(v), 4) && FreeInsts(d, Code(v), 0, 7)
    ensures var x6 := m.regs[6];
            Moves(o, d, m, 2, m.(regs := m.regs[7 := Shl(x6, 3)][8 := Plus(Shl(x6, 3), x6)], pc := Pc(Code(v), 6)))
  {
    hide FetchExecute, Moves, Free, Holds, Pc, Start, Lui, Addi, Xori, Slli, Add, Bnez, High, Low;
    hide Wrapped, Plus, Xor, Shl;
    var code, x6 := Code(v), m.regs[6];
    AllWide(v, 5);
    SlliRuns(o, m, code, 4, 7, 6, 3);
    var m1 := m.(regs := m.regs[7 := Shl(x6, 3)], pc := Pc(code, 5));
    OneMove(o, d, m, m1);
    AddRuns(o, m1, code, 5, 8, 7, 6);
    var m2 := m1.(regs := m1.regs[8 := Plus(Shl(x6, 3), x6)], pc := Pc(code, 6));
    OneMove(o, d, m1, m2);
    MovesCompose(o, d, m, 1, m1, 1, m2);
  }

  lemma EndOfPass(o: Oracle, d: Debug, m: Machine, v: bv32)
    requires Executing(m, Code(v), 6) && FreeInsts(d, Code(v), 0, 7)
    ensures Moves(o, d, m, 1, m.(pc := Pc(Code(v), if m.regs[5] != 0 then 2 else 7)))
  {
    hide FetchExecute, Moves, Free, Holds, Pc, Start, Lui, Addi, Xori, Slli, Add, Bnez, High, Low;
    hide Wrapped, Plus;
    BackOffset();
    AllWide(v, 2);
    AllWide(v, 6);
    BnezRuns(o, m, Code(v), 6, 5, Wrapped(-16));
    BranchBack(Code(v), 6, 2, 16);
    OneMove(o, d, m, m.(pc := Pc(Code(v), if m.regs[5] != 0 then 2 else 7)));
  }

  /** One pass: five instructions, one off the counter, and back to the start unless it is zero. */
  lemma OnePass(o: Oracle, d: Debug, m: Machine, v: bv32)
    requires Executing(m, Code(v), 2) && FreeInsts(d, Code(v), 0, 7)
    ensures var x5, x6 := Plus(m.regs[5], 0xFFFF_FFFF), Xor(m.regs[6], 0x5A5);
            Moves(o, d, m, 5, Body(m, x5, x6).(pc := Pc(Code(v), if x5 != 0 then 2 else 7)))
  {
    hide Moves, Ready, FreeInsts, Pc, Start, Plus, Xor, Shl, Code;
    var x5, x6 := Plus(m.regs[5], 0xFFFF_FFFF), Xor(m.regs[6], 0x5A5);
    AllWide(v, 4);
    AllWide(v, 6);
    StartOfPass(o, d, m, v);
    var m1 := m.(regs := m.regs[5 := x5][6 := x6], pc := Pc(Code(v), 4));
    StaysExecuting(m, Code(v), 2, m1, 4);
    MiddleOfPass(o, d, m1, v);
    var m2 := Body(m, x5, x6).(pc := Pc(Code(v), 6));
    StaysExecuting(m, Code(v), 2, m2, 6);
    MovesCompose(o, d, m, 2, m1, 2, m2);
    EndOfPass(o, d, m2, v);
    MovesCompose(o, d, m, 4, m2, 1, Body(m, x5, x6).(pc := Pc(Code(v), if x5 != 0 then 2 else 7)));
  }

  /** A later pass overwrites what an earlier one left. */
  lemma BodyAgain(m: Machine, x5: bv32, x6: bv32, pc: bv32, y5: bv32, y6: bv32, pc': bv32)
    ensures Body(Body(m, x5, x6).(pc := pc), y5, y6).(pc := pc') == Body(m, y5, y6).(pc := pc')
  {
    hide Shl, Plus;
    assert Body(Body(m, x5, x6).(pc := pc), y5, y6).regs == Body(m, y5, y6).regs;
  }

  // ---- All passes ----

  /** x6 after `p` passes. */
  function Flipped(x: bv32, p: nat): bv32 { if p % 2 == 1 then Xor(x, 0x5A5) else x }

  lemma FlipAgain(x: bv32, p: nat)
    ensures Flipped(x, 0) == x && Flipped(Xor(x, 0x5A5), p) == Flipped(x, p + 1)
  {
    assert (x ^ 0x5A5) ^ 0x5A5 == x;
  }

  /** A counter of `p` makes `p` passes; a counter of zero wraps and makes 2^32. */
  lemma {:induction false} AllPasses(o: Oracle, d: Debug, m: Machine, v: bv32, p: nat)
    requires Executing(m, Code(v), 2) && FreeInsts(d, Code(v), 0, 7)
    requires 0 < p <= WORD && m.regs[5] == FromNat(p)
    ensures Moves(o, d, m, 5 * p, Body(m, 0, Flipped(m.regs[6], p)).(pc := Pc(Code(v), 7)))
    decreases p
  {
    hide Moves, Ready, FreeInsts, Pc, Start, Plus, Xor, Shl, FromNat, Flipped, Code;
    var x5, x6 := FromNat(p - 1), Xor(m.regs[6], 0x5A5);
    CountDown(p);
    OnePass(o, d, m, v);
    FlipAgain(m.regs[6], p - 1);
    if p == 1 {
      FlipAgain(x6, 0);
    } else {
      var m1 := Body(m, x5, x6).(pc := Pc(Code(v), 2));
      AllWide(v, 2);
      StaysExecuting(m, Code(v), 2, m1, 2);
      AllPasses(o, d, m1, v, p - 1);
      BodyAgain(m, x5, x6, Pc(Code(v), 2), 0, Flipped(x6, p - 1), Pc(Code(v), 7));
      MovesCompose(o, d, m, 5, m1, 5 * (p - 1), Body(m, 0, Flipped(m.regs[6], p)).(pc := Pc(Code(v), 7)));
    }
  }

  // ---- The count ----

  /** The machine when the loop is left. */
  function AfterLoop(m: Machine, n: I32): Machine {
    Body(m, 0, Flipped(m.regs[6], Passes(n))).(pc := Pc(Code(Unsigned(n)), 7))
  }

  /** A machine at the start of the program, with no breakpoint on the first `to` instructions. */
  ghost predicate AtStart(d: Debug, m: Machine, n: I32, to: nat)
    requires to <= 10
  {
    Executing(m, Code(Unsigned(n)), 0) && FreeInsts(d, Code(Unsigned(n)), 0, to)
  }

  lemma RunsLoop(o: Oracle, d: Debug, m: Machine, n: I32)
    requires AtStart(d, m, n, 7)
    ensures Moves(o, d, m, 2 + 5 * Passes(n), AfterLoop(m, n))
  {
    hide Moves, Ready, FreeInsts, Pc, Start, Plus, Xor, Shl, FromNat, Flipped, Unsigned, Code, Passes;
    var v, p := Unsigned(n), Passes(n);
    CounterOf(n);
    AllWide(v, 1);
    AllWide(v, 2);
    SetupCode(v);
    FewerFree(d, Code(v), 0, 2, 7);
    RunsLi(o, d, m, Code(v), 0, 5, v);
    var m1 := m.(regs := m.regs[5 := v], pc := Pc(Code(v), 2));
    StaysExecuting(m, Code(v), 0, m1, 2);
    AllPasses(o, d, m1, v, p);
    BodyOver(m, v, Pc(Code(v), 2), Flipped(m.regs[6], p), Pc(Code(v), 7));
    MovesCompose(o, d, m, 2, m1, 5 * p, AfterLoop(m, n));
  }

  lemma BodyOver(m: Machine, v: bv32, pc: bv32, x6: bv32, pc': bv32)
    ensures Body(m.(regs := m.regs[5 := v], pc := pc), 0, x6).(pc := pc') == Body(m, 0, x6).(pc := pc')
  {
    hide Shl, Plus;
    assert Body(m.(regs := m.regs[5 := v], pc := pc), 0, x6).regs == Body(m, 0, x6).regs;
  }

  lemma SetupCode(v: bv32)
    ensures Code(v)[0..2] == Li(5, v) && Code(v)[7..10] == Exit()
  {
    hide Lui, Addi, Xori, Slli, Add, Bnez, High, Low, Wrapped;
  }

  /** The machine at exit. */
  function AfterExit(m: Machine, n: I32): Machine { Exited(AfterLoop(m, n), Code(Unsigned(n)), 10) }

  lemma RunsToExit(o: Oracle, d: Debug, m: Machine, n: I32)
    requires AtStart(d, m, n, 10)
    ensures Moves(o, d, m, 2 + 5 * Passes(n) + 3, AfterExit(m, n))
  {
    hide Moves, Ready, FreeInsts, Pc, Start, Plus, Xor, Shl, FromNat, Flipped, Unsigned, Code, Passes;
    var v := Unsigned(n);
    FewerFree(d, Code(v), 0, 7, 10);
    FewerFree(d, Code(v), 7, 10, 10);
    RunsLoop(o, d, m, n);
    AllWide(v, 7);
    AllWide(v, 8);
    AllWide(v, 9);
    SetupCode(v);
    StaysExecuting(m, Code(v), 0, AfterLoop(m, n), 7);
    RunsExit(o, d, AfterLoop(m, n), Code(v), 7);
    MovesCompose(o, d, m, 2 + 5 * Passes(n), AfterLoop(m, n), 3, AfterExit(m, n));
  }

  /**
   * `run_slice` on `alu_loop`, for every iteration count of type `i32`, every
   * budget and every quiet host. It halts with code zero after exactly
   * 2 + 5 * passes + 3 instructions if the budget allows, and otherwise spends the budget.
   */
  lemma AluLoopCount(o: Oracle, d: Debug, c: Core, n: I32, budget: nat)
    requires Quiet(o) && AtStart(d, c.m, n, 10)
    ensures var s := RunSlice(o, d, c, budget);
            var total := 2 + 5 * Passes(n) + 3;
            if total <= budget then s.status == Halted && s.steps == total && s.c.m == AfterExit(c.m, n)
            else s.status == Running && s.steps == budget
  {
    hide Moves, Ready, FreeInsts, Pc, AfterLoop, Passes, Unsigned, Code, RunSlice;
    RunsToExit(o, d, c.m, n);
    HaltingRun(o, d, c, 2 + 5 * Passes(n) + 3, AfterExit(c.m, n), budget);
  }

  /** The declared count, in `u64` arithmetic. */
  function Declared(n: I32): nat { (2 + 5 * (n % 0x1_0000_0000_0000_0000) + 3) % 0x1_0000_0000_0000_0000 }

  /** The declared count is the count of a completed run exactly for positive iteration counts that fit the budget. */
  lemma DeclaredExactlyWhenPositive(o: Oracle, d: Debug, c: Core, n: I32, budget: nat)
    requires Quiet(o) && AtStart(d, c.m, n, 10)
    ensures var s := RunSlice(o, d, c, budget);
            (s.status == Halted && s.steps == Declared(n)) <==> (n >= 1 && 2 + 5 * n + 3 <= budget)
  {
    hide AtStart, AfterExit, Unsigned, RunSlice;
    AluLoopCount(o, d, c, n, budget);
  }

  /** With a breakpoint on the exit sequence the slice stops there, the whole loop behind it. */
  lemma ContinueToExit(o: Oracle, d: Debug, c: Core, n: I32, budget: nat)
    requires Quiet(o) && AtStart(d, c.m, n, 7) && !Free(d, Pc(Code(Unsigned(n)), 7))
    requires budget > 2 + 5 * Passes(n)
    ensures var s := RunSlice(o, d, c, budget);
            && s.status == Breakpoint && s.steps == 2 + 5 * Passes(n)
            && s.c.m == AfterLoop(c.m, n) && s.c.resume == Some(Pc(Code(Unsigned(n)), 7))
  {
    hide Moves, Ready, FreeInsts, Pc, Passes, Unsigned, Code, RunSlice, Flipped, Shl, Plus, Free;
    RunsLoop(o, d, c.m, n);
    RunToBreakpoint(o, d, c, 2 + 5 * Passes(n), AfterLoop(c.m, n), budget);
  }

  // ---- Building and running it ----

  /** `alu_loop`, pushed instruction by instruction. */
  method Build(n: I32) returns (p: Program, instructions: nat)
    ensures fresh(p) && p.Valid() && p.insts == Code(Unsigned(n))
    ensures instructions == Declared(n)
  {
    hide Lui, Addi, Xori, Slli, Add, Bnez, Li, Exit, Unsigned, Declared, Wrapped, Image;
    p := new Program();
    p.PushLi(5, Unsigned(n));
    var bodyStart := p.LenBytes();
    PushBody(p);
    var back := bodyStart - p.LenBytes();
    p.Push32(Bnez(5, Wrapped(back)));
    p.PushExit();
    instructions := Declared(n);
  }

  /** The four register instructions of the loop. */
  method PushBody(p: Program)
    requires p.Valid()
    modifies p
    ensures p.Valid() && p.LenBytes() == old(p.LenBytes()) + 16
    ensures p.insts == old(p.insts) +
            [Wide(Addi(5, 5, 0xFFFF_FFFF)), Wide(Xori(6, 6, 0x5A5)), Wide(Slli(7, 6, 3)), Wide(Add(8, 7, 6))]
  {
    hide Addi, Xori, Slli, Add, Image;
    p.Push32(Addi(5, 5, 0xFFFF_FFFF));
    p.Push32(Xori(6, 6, 0x5A5));
    p.Push32(Slli(7, 6, 3));
    p.Push32(Add(8, 7, 6));
  }

  lemma ImageFits(v: bv32)
    ensures PROGRAM_BASE + 2 * |Image(Code(v))| <= MMIO_BASE && Start(Code(v), 0) == 0 && Pc(Code(v), 0) == 0x1000
  {
    hide Code, Image;
    AllWide(v, 10);
    AllWide(v, 0);
    assert Code(v)[..10] == Code(v);
    LiteralWord(0x1000, 0x1000);
  }

  /** A fresh CPU and memory, the program loaded, one slice. */
  method RunWorkload(o: Oracle, n: I32, budget: nat) returns (status: SliceStatus, steps: nat)
    requires Quiet(o)
    ensures var total := 2 + 5 * Passes(n) + 3;
            if total <= budget then status == Halted && steps == total else status == Running && steps == budget
  {
    hide Code, Unsigned, Declared, Image, Pc, Start, Holds, AfterExit, Contents, RunLoop.RunSlice;
    hide StoreHalves;
    var port := new Port(o);
    var cpu := new Cpu();
    cpu.pc := 0x1000;
    var mem := new Memory();
    var program, _ := Build(n);
    ImageFits(Unsigned(n));
    Loaded(mem.View(port), Code(Unsigned(n)));
    program.Load(mem, port);
    AluLoopCount(o, cpu.Settings(), cpu.Whole(mem, port), n, budget);
    status, steps := cpu.RunSlice(mem, port, budget);
  }
}
