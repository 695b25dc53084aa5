/**
 * The entry points that run the CPU without a budget: `run`, and the debugger's
 * continue, step over and step out. Each is a loop over slices, and may run for
 * ever; the ghost parameter `bound` of a method is a number of slices within
 * which this run stops.
 */
module Debugger {
  import opened Wrappers
  import opened Bits
  import opened HostImports
  import opened FlatMemory
  import opened PagedMemory
  import opened Instructions
  import opened Machine
  import opened Compressed
  import opened Formats
  import opened Expansion
  import opened Steps
  import opened RunLoop
  import opened Runs
  import opened Reachable
  import opened Slicing
  import opened Disassembler
  import opened Cpu

  /** The budget of every slice these loops take. */
  const FULL_SLICE: nat := 0xFFFF_FFFF

  // ---- Continuing to a breakpoint ----

  function FullSlices(k: nat): (budgets: seq<nat>)
    ensures |budgets| == k
  {
    seq(k, _ => FULL_SLICE)
  }

  /** Full slices, `bound` of them or until one does not end Running. */
  function Continued(o: Oracle, d: Debug, c: Core, bound: nat): Slice {
    if bound == 0 then Slice(c, Running, 0) else RunSlices(o, d, c, FullSlices(bound))
  }

  lemma ContinuedTurn(o: Oracle, d: Debug, c: Core, bound: nat)
    requires bound > 0
    ensures var first := RunSlice(o, d, c, FULL_SLICE);
            var rest := Continued(o, d, first.c, bound - 1);
            Continued(o, d, c, bound) ==
            if first.status != Running then first else rest.(steps := first.steps + rest.steps)
  {
    hide RunSlice;
    assert FullSlices(bound)[1..] == FullSlices(bound - 1);
    if bound == 1 {
      SliceAccounting(o, d, c, FULL_SLICE);
    }
  }

  /** How a run of full slices ends, on any host. */
  lemma {:induction false} ContinuedEnds(o: Oracle, d: Debug, c: Core, bound: nat)
    ensures var s := Continued(o, d, c, bound);
            && (s.status == Breakpoint ==> d.enabled && s.c.m.pc in d.breakpoints && !s.c.m.halted)
            && (s.status == Halted || s.status == Trapped ==> s.c.m.halted)
            && Continues(o, c, s.c)
    decreases bound
  {
    hide RunSlice, Continued, Continues;
    if bound == 0 {
      assert Continued(o, d, c, 0) == Slice(c, Running, 0) by { NothingContinued(o, d, c); }
      ContinuesSame(o, c, c);
    } else {
      var first := RunSlice(o, d, c, FULL_SLICE);
      ContinuedTurn(o, d, c, bound);
      SliceAccounting(o, d, c, FULL_SLICE);
      SliceReplays(o, d, c, FULL_SLICE);
      if first.status == Running {
        ContinuedEnds(o, d, first.c, bound - 1);
        ContinuesTransitive(o, c, first.c, Continued(o, d, first.c, bound - 1).c);
      }
    }
  }

  lemma NothingContinued(o: Oracle, d: Debug, c: Core)
    ensures Continued(o, d, c, 0) == Slice(c, Running, 0)
  {
  }

  /**
   * `run_until_breakpoint`: full slices until one does not end Running, on any host.
   * A breakpoint is reported exactly when the last slice stopped on one.
   */
  method RunUntilBreakpoint(cpu: Cpu, mem: Memory, port: Port, ghost bound: nat) returns (isBreakpoint: bool, hit: bv32)
    requires Continued(port.oracle, cpu.Settings(), cpu.Whole(mem, port), bound).status != Running
    modifies cpu`regs, cpu`fregs, cpu`pc, cpu`csrs, cpu`isHalted, cpu`exitCode, cpu`trapped, cpu`log
    modifies cpu`stepCounter, cpu`resumePastBreakpoint, mem, port`events, port`polls
    ensures var t := Continued(port.oracle, cpu.Settings(), old(cpu.Whole(mem, port)), bound);
            cpu.Whole(mem, port) == t.c && isBreakpoint == (t.status == Breakpoint)
    ensures hit == if isBreakpoint then cpu.pc else 0
  {
    hide RunSlice, Continued, Contents;
    ghost var o, d, left := port.oracle, cpu.Settings(), bound;
    ghost var end := Continued(o, d, cpu.Whole(mem, port), bound);
    while true
      invariant cpu.Settings() == d
      invariant var t := Continued(o, d, cpu.Whole(mem, port), left); t.c == end.c && t.status == end.status
      decreases left
    {
      if left == 0 {
        NothingContinued(o, d, cpu.Whole(mem, port));
        assert false;
      }
      ContinuedTurn(o, d, cpu.Whole(mem, port), left);
      var status, _ := cpu.RunSlice(mem, port, FULL_SLICE);
      if status != Running {
        return status == Breakpoint, if status == Breakpoint then cpu.pc else 0;
      }
      left := left - 1;
    }
  }

  // ---- On a quiet host, continuing is stepping ----

  /** Once stepping has stopped, more budget makes no difference. */
  lemma StoppedStays(o: Oracle, d: Debug, c: Core, a: nat, b: nat)
    requires Stepping(o, d, c, a).status != Running && Stepping(o, d, c, b).status != Running
    ensures Stepping(o, d, c, a) == Stepping(o, d, c, b)
  {
    hide Stepping;
    if a <= b {
      SteppingSplits(o, d, c, a, b - a);
    } else {
      SteppingSplits(o, d, c, b, a - b);
    }
  }

  lemma StillRunning(o: Oracle, d: Debug, c: Core, a: nat, b: nat)
    requires Stepping(o, d, c, a).status == Running && Stepping(o, d, c, b).status != Running
    ensures a < b
  {
    hide Stepping;
    if b <= a {
      SteppingSplits(o, d, c, b, a - b);
      assert false;
    }
  }

  lemma {:induction false} TotalOfFull(k: nat)
    ensures Total(FullSlices(k)) == k * FULL_SLICE
    decreases k
  {
    if k == 0 {
      assert FullSlices(0) == [];
    } else {
      assert FullSlices(k)[1..] == FullSlices(k - 1);
      TotalOfFull(k - 1);
    }
  }

  /**
   * On a quiet host, if calling `StepInstruction` again and again stops within
   * `bound` steps, continuing by full slices stops too, in the same run.
   */
  lemma ContinuingIsStepping(o: Oracle, d: Debug, c: Core, bound: nat)
    requires Quiet(o) && !c.m.halted && Stepping(o, d, c, bound).status != Running
    ensures SameRun(Continued(o, d, c, bound), Stepping(o, d, c, bound))
  {
    hide RunSlice, RunSlices, Stepping, Total, FullSlices, Waiting;
    SteppingNone(o, d, c);
    var n := bound * FULL_SLICE;
    TotalOfFull(bound);
    FirstIsFull(bound);
    AnySlicingIsOneSlice(o, d, c, FullSlices(bound));
    SliceIsStepping(o, d, c, n);
    SteppingSplits(o, d, c, bound, n - bound);
  }

  lemma FirstIsFull(k: nat)
    requires k > 0
    ensures FullSlices(k)[0] == FULL_SLICE && k * FULL_SLICE >= k
  {
  }

  // ---- Step over and step out ----

  /** The debug settings with a temporary breakpoint. */
  function Until(d: Debug, target: bv32): Debug { d.(breakpoints := d.breakpoints + {target}) }

  /**
   * Continue with a temporary breakpoint at `target`. The user's breakpoints are
   * the same afterwards, and a stop that is reported is at one of them or at the target.
   */
  method RunTo(cpu: Cpu, mem: Memory, port: Port, target: bv32, ghost bound: nat)
    returns (isBreakpoint: bool, hit: bv32)
    requires Continued(port.oracle, Until(cpu.Settings(), target), cpu.Whole(mem, port), bound).status != Running
    modifies cpu, mem, port`events, port`polls
    ensures cpu.Settings() == old(cpu.Settings())
    ensures var t := Continued(port.oracle, Until(cpu.Settings(), target), old(cpu.Whole(mem, port)), bound);
            cpu.Whole(mem, port) == t.c && isBreakpoint == (t.status == Breakpoint)
    ensures isBreakpoint ==> cpu.debugEnabled && hit == cpu.pc && (hit == target || hit in cpu.breakpoints)
    ensures !isBreakpoint ==> hit == 0 && cpu.isHalted
  {
    hide Continued, Continues, Contents;
    ghost var d, c0 := cpu.Settings(), cpu.Whole(mem, port);
    var hadBreakpoint := target in cpu.breakpoints;
    cpu.breakpoints := cpu.breakpoints + {target};
    ContinuedEnds(port.oracle, Until(d, target), c0, bound);
    isBreakpoint, hit := RunUntilBreakpoint(cpu, mem, port, bound);
    if !hadBreakpoint {
      cpu.breakpoints := cpu.breakpoints - {target};
    }
    assert cpu.breakpoints == d.breakpoints;
  }

  /** `debug_step_out`: run to the address in ra. */
  method StepOut(cpu: Cpu, mem: Memory, port: Port, ghost bound: nat) returns (isBreakpoint: bool, hit: bv32)
    requires Continued(port.oracle, Until(cpu.Settings(), cpu.regs[1]), cpu.Whole(mem, port), bound).status != Running
    modifies cpu, mem, port`events, port`polls
    ensures cpu.Settings() == old(cpu.Settings())
    ensures var t := Continued(port.oracle, Until(cpu.Settings(), old(cpu.regs[1])), old(cpu.Whole(mem, port)), bound);
            cpu.Whole(mem, port) == t.c && isBreakpoint == (t.status == Breakpoint)
    ensures isBreakpoint ==> cpu.debugEnabled && hit == cpu.pc && (hit == old(cpu.regs[1]) || hit in cpu.breakpoints)
    ensures !isBreakpoint ==> hit == 0 && cpu.isHalted
  {
    hide Continued, Contents;
    isBreakpoint, hit := RunTo(cpu, mem, port, cpu.regs[1], bound);
  }

  /** `is_call_instruction`, on the word read at the pc. */
  predicate IsCall(inst: bv32) {
    if inst & 0x3 != 0x3 then
      || (inst & 0x3 == 0x1 && (inst >> 13) & 0x7 == 0x1)
      || (inst & 0x3 == 0x2 && (inst >> 13) & 0x7 == 0x4 && (inst >> 12) & 1 == 1)
    else
      var d := Decode(inst);
      (d.opcode == OP_JAL || d.opcode == OP_JALR) && (d.rd == 1 || d.rd == 5)
  }

  lemma CallBits(inst: bv32)
    requires inst & 0x3 != 0x3
    ensures var h := LowHalf(inst);
            && (Op(h) == 1 <==> inst & 0x3 == 0x1) && (Op(h) == 2 <==> inst & 0x3 == 0x2)
            && (Funct3(h) == 1 <==> (inst >> 13) & 0x7 == 0x1) && (Funct3(h) == 4 <==> (inst >> 13) & 0x7 == 0x4)
            && (Field(h, 12, 1) != 0 <==> (inst >> 12) & 1 == 1)
  {
  }

  /** A compressed word is taken for a call exactly when it is C.JAL, C.JALR, C.ADD or C.EBREAK. */
  lemma CallsOfHalfword(address: bv32, inst: bv32)
    requires inst & 0x3 != 0x3
    ensures var asm := DecodeRvc(address, LowHalf(inst));
            IsCall(inst) <==> asm.CJal? || asm.CJalr? || asm.CAdd? || asm.CEbreak?
  {
    hide Op, Funct3, Field, LowHalf, Reg, Creg, Decode, Addi4spnImm, Addi16spImm, Imm6, JumpTarget;
    hide BranchTarget;
    CallBits(inst);
    hide IsCall;
    CompressedCall(inst);
  }

  lemma CompressedCall(inst: bv32)
    requires inst & 0x3 != 0x3
    ensures IsCall(inst) <==>
            || (inst & 0x3 == 0x1 && (inst >> 13) & 0x7 == 0x1)
            || (inst & 0x3 == 0x2 && (inst >> 13) & 0x7 == 0x4 && (inst >> 12) & 1 == 1)
  {
    hide Decode;
  }

  /** So calls are recognised exactly among the halfwords that are neither C.ADD nor C.EBREAK. */
  lemma CallsRecognised(address: bv32, inst: bv32)
    requires inst & 0x3 != 0x3
    ensures var asm := DecodeRvc(address, LowHalf(inst));
            (IsCall(inst) <==> asm.CJal? || asm.CJalr?) <==> !(asm.CAdd? || asm.CEbreak?)
  {
    hide DecodeRvc, IsCall, LowHalf;
    CallsOfHalfword(address, inst);
  }

  /** C.ADD x1, x2 is taken for a call. */
  lemma AddTakenForCall(address: bv32)
    ensures IsCall(0x908A) && DecodeRvc(address, 0x908A) == CAdd(1, 2)
  {
  }

  /** A 32-bit word is taken for a call exactly when it is JAL or JALR with x1 or x5 as link register. */
  lemma CallsOfWord(rd: bv5, rs1: bv5, imm: bv32, inst: bv32)
    ensures IsCall(EncodeJ(OP_JAL, rd, imm)) <==> rd == 1 || rd == 5
    ensures IsCall(EncodeI(OP_JALR, rd, 0, rs1, imm)) <==> rd == 1 || rd == 5
    ensures inst & 0x3 == 0x3 && Decode(inst).opcode != OP_JAL && Decode(inst).opcode != OP_JALR ==> !IsCall(inst)
  {
    hide Decode, EncodeJ, EncodeI;
    DecodeJ(OP_JAL, rd, imm);
    DecodeI(OP_JALR, rd, 0, rs1, imm);
    JumpsAreWide(rd, rs1, imm);
  }

  lemma JumpsAreWide(rd: bv5, rs1: bv5, imm: bv32)
    ensures EncodeJ(OP_JAL, rd, imm) & 0x3 == 0x3 && EncodeI(OP_JALR, rd, 0, rs1, imm) & 0x3 == 0x3
  {
  }

  /** Where step over stops is the return address: a call puts it into its link register. */
  lemma CallLinksAfter(o: Oracle, m: Machine, inst: bv32)
    requires inst & 0x3 == 0x3 && IsCall(inst)
    ensures var rd, r := Decode(inst).rd, Execute32(o, m, inst);
            (rd == 1 || rd == 5) && r.Ok? && r.m.regs[rd as int] == After(m.pc, inst)
  {
    hide Decode, Dispatch, Plus;
    DecodeKeepsRaw(inst);
    LinkOnly(o, m, Decode(inst), Plus(m.pc, 4), Plus(m.pc, 4));
  }

  lemma CompressedCallLinksAfter(o: Oracle, m: Machine, inst: bv32)
    requires inst & 0x3 != 0x3
    requires var asm := DecodeRvc(m.pc, LowHalf(inst)); asm.CJal? || asm.CJalr?
    ensures var r := Execute16(o, m, LowHalf(inst)); r.Ok? && r.m.regs[1] == After(m.pc, inst)
  {
    hide DecodeRvc, Execute16, LowHalf, Plus, Even, ReadReg;
    DisassemblyIsFaithful(o, m, LowHalf(inst));
    hide MeaningOfLoad, MeaningOfStore, MeaningOfArith;
  }

  /** `debug_step_over`: a call is run to the address after it, anything else is one step. */
  method StepOver(cpu: Cpu, mem: Memory, port: Port, ghost bound: nat) returns (isBreakpoint: bool, hit: bv32)
    requires var r := Get32(port.oracle, cpu.State(mem, port), cpu.pc);
             IsCall(r.val) ==>
               Continued(port.oracle, Until(cpu.Settings(), After(cpu.pc, r.val)),
                 cpu.Whole(mem, port).(m := r.m), bound).status != Running
    modifies cpu, mem, port`events, port`polls
    ensures cpu.Settings() == old(cpu.Settings())
    ensures var r := old(Get32(port.oracle, cpu.State(mem, port), cpu.pc));
            var c0 := old(cpu.Whole(mem, port)).(m := r.m);
            if IsCall(r.val) then
              var t := Continued(port.oracle, Until(cpu.Settings(), After(c0.m.pc, r.val)), c0, bound);
              && cpu.Whole(mem, port) == t.c && isBreakpoint == (t.status == Breakpoint)
              && (isBreakpoint ==>
                  cpu.debugEnabled && hit == cpu.pc && (hit == After(c0.m.pc, r.val) || hit in cpu.breakpoints))
            else
              var s := StepInstruction(port.oracle, cpu.Settings(), c0);
              cpu.Whole(mem, port) == s.c && isBreakpoint == s.result.BreakpointHit?
                  && (isBreakpoint ==> hit == s.result.addr)
  {
    hide Continued, StepInstruction, Contents, IsCall, After, Load32;
    var inst := mem.ReadU32(port, Value(cpu.pc));
    if IsCall(inst) {
      isBreakpoint, hit := RunTo(cpu, mem, port, After(cpu.pc, inst), bound);
    } else {
      var result := cpu.StepInstruction(mem, port);
      isBreakpoint, hit := result.BreakpointHit?, if result.BreakpointHit? then result.addr else 0;
    }
  }

  /** Address of the instruction after the one at `pc`. */
  function After(pc: bv32, inst: bv32): bv32 { Plus(pc, if inst & 0x3 == 0x3 then 4 else 2) }

  // ---- Running to completion ----

  const OFF: Debug := Debug(false, {})

  /** The core without its debugging state and poll history. */
  function Bare(c: Core): Core { c.(polls := [], resume := None) }

  lemma StepOff(o: Oracle, d: Debug, c: Core)
    requires !c.m.halted
    ensures var s := StepInstruction(o, d, c);
            if s.result.BreakpointHit? then s.c == c.(resume := Some(c.m.pc)) && c.resume != Some(c.m.pc)
            else s == StepInstruction(o, OFF, c)
  {
    hide Try;
  }

  /** Stepping with breakpoints is stepping without them, until one is reported. */
  lemma {:induction false} SteppingOff(o: Oracle, d: Debug, c: Core, n: nat)
    requires !c.m.halted
    ensures var t := Stepping(o, d, c, n);
            if t.status == Running || t.status == Breakpoint then
              var u := Stepping(o, OFF, c, t.steps);
              u.status == Running && Bare(u.c) == Bare(t.c) && t.steps <= n
            else Stepping(o, OFF, c, n) == t
    decreases n
  {
    hide StepInstruction;
    if n == 0 {
    } else {
      StepOff(o, d, c);
      var s := StepInstruction(o, d, c);
      if s.result.StepOk? {
        StepOkRuns(o, d, c);
        SteppingOff(o, d, s.c, n - 1);
      }
    }
  }

  lemma StepOkRuns(o: Oracle, d: Debug, c: Core)
    requires StepInstruction(o, d, c).result.StepOk?
    ensures !StepInstruction(o, d, c).c.m.halted
  {
    hide FetchExecute;
  }

  lemma SteppingBare(o: Oracle, a: Core, b: Core, n: nat)
    requires Bare(a) == Bare(b)
    ensures var t, u := Stepping(o, OFF, a, n), Stepping(o, OFF, b, n);
            t.status == u.status && t.steps == u.steps && Bare(t.c) == Bare(u.c)
  {
    hide Stepping;
    SteppingNone(o, OFF, a);
    SteppingNone(o, OFF, b);
    if n > 0 {
      SteppingIgnoresResume(o, OFF, a, n);
      SteppingIgnoresResume(o, OFF, b, n);
      SteppingIgnoresPolls(o, OFF, a.(resume := None), [], n);
      SteppingIgnoresPolls(o, OFF, b.(resume := None), [], n);
      assert a.(resume := None).(polls := []) == b.(resume := None).(polls := []);
    }
  }

  /** A slice of `run` after `done` instructions, in terms of stepping from the start without breakpoints. */
  lemma SliceOfRun(o: Oracle, d: Debug, c0: Core, done: nat, c: Core, n: nat)
    requires Quiet(o) && !c.m.halted && n > 0
    requires Stepping(o, OFF, c0, done).status == Running && Bare(Stepping(o, OFF, c0, done).c) == Bare(c)
    ensures var s := RunSlice(o, d, c, n);
            var u := Stepping(o, OFF, c0, if s.status == Running || s.status == Breakpoint then done + s.steps
              else done + n);
            && u.status == (if s.status == Breakpoint then Running else s.status)
            && Bare(u.c) == Bare(s.c).(stepCounter := s.c.stepCounter + Uncounted(s.status))
  {
    hide Stepping, RunSlice;
    var s := RunSlice(o, d, c, n);
    SliceIsStepping(o, d, c, n);
    SteppingOff(o, d, c, n);
    var k := if s.status == Running || s.status == Breakpoint then s.steps else n;
    SteppingSplits(o, OFF, c0, done, k);
    SteppingBare(o, Stepping(o, OFF, c0, done).c, c, k);
    BareOfForget(Stepping(o, d, c, n).c, s.c, s.c.stepCounter + Uncounted(s.status));
  }

  lemma BareOfForget(a: Core, b: Core, n: nat)
    requires Forget(a) == Forget(b).(stepCounter := n)
    ensures Bare(a) == Bare(b).(stepCounter := n)
  {
  }

  /** A slice makes progress, or reports a breakpoint that the next one will run through. */
  lemma SliceProgress(o: Oracle, d: Debug, c: Core, n: nat)
    requires Quiet(o) && !c.m.halted && n > 0
    ensures var s := RunSlice(o, d, c, n);
            && (s.status == Running ==> s.steps == n && !s.c.m.halted)
            && (s.status == Breakpoint ==> !s.c.m.halted)
            && (s.status == Breakpoint && s.steps == 0 ==> s.c.resume == Some(s.c.m.pc) && c.resume != Some(c.m.pc))
  {
    hide RunSlice;
    SliceIsStepping(o, d, c, n);
    FirstOfStepping(o, d, c, n);
  }

  lemma {:induction false} FirstOfStepping(o: Oracle, d: Debug, c: Core, n: nat)
    requires !c.m.halted && n > 0
    ensures var t := Stepping(o, d, c, n);
            && (t.status == Running ==> t.steps == n && !t.c.m.halted)
            && (t.status == Breakpoint ==> !t.c.m.halted)
            && (t.status == Breakpoint && t.steps == 0 ==> t.c.resume == Some(t.c.m.pc) && c.resume != Some(c.m.pc))
    decreases n
  {
    hide StepInstruction;
    StepOff(o, d, c);
    var s := StepInstruction(o, d, c);
    if s.result.StepOk? {
      StepOkRuns(o, d, c);
      if n > 1 {
        FirstOfStepping(o, d, s.c, n - 1);
      }
    }
  }

  /** Full slices, `bound` of them or until the guest halts or traps; breakpoints are passed. */
  function RunThrough(o: Oracle, d: Debug, c: Core, bound: nat): Slice
    decreases bound
  {
    if bound == 0 then Slice(c, Running, 0)
    else
      var first := RunSlice(o, d, c, FULL_SLICE);
      if first.status == Halted || first.status == Trapped then first
      else
        var rest := RunThrough(o, d, first.c, bound - 1);
        rest.(steps := first.steps + rest.steps)
  }

  /** On any host, `run` ends in a halted core whose log continues the run it started from. */
  lemma {:induction false} RunThroughEnds(o: Oracle, d: Debug, c: Core, bound: nat)
    ensures Continues(o, c, RunThrough(o, d, c, bound).c)
    ensures RunThrough(o, d, c, bound).status != Running ==> RunThrough(o, d, c, bound).c.m.halted
    decreases bound
  {
    hide RunSlice, Continues;
    if bound == 0 {
      ContinuesSame(o, c, c);
    } else {
      var first := RunSlice(o, d, c, FULL_SLICE);
      SliceAccounting(o, d, c, FULL_SLICE);
      SliceReplays(o, d, c, FULL_SLICE);
      RunThroughEnds(o, d, first.c, bound - 1);
      ContinuesTransitive(o, c, first.c, RunThrough(o, d, first.c, bound - 1).c);
    }
  }

  /** `run`, on any host: full slices until the guest halts or traps, passing breakpoints. */
  method Run(cpu: Cpu, mem: Memory, port: Port, ghost bound: nat) returns (code: bv32)
    requires RunThrough(port.oracle, cpu.Settings(), cpu.Whole(mem, port), bound).status != Running
    modifies cpu`regs, cpu`fregs, cpu`pc, cpu`csrs, cpu`isHalted, cpu`exitCode, cpu`trapped, cpu`log
    modifies cpu`stepCounter, cpu`resumePastBreakpoint, mem, port`events, port`polls
    ensures cpu.Whole(mem, port) == RunThrough(port.oracle, cpu.Settings(), old(cpu.Whole(mem, port)), bound).c
    ensures Continues(port.oracle, old(cpu.Whole(mem, port)), cpu.Whole(mem, port))
    ensures cpu.isHalted && code == cpu.exitCode
  {
    hide RunSlice, Continues, Contents;
    ghost var o, d, left := port.oracle, cpu.Settings(), bound;
    ghost var end := RunThrough(o, d, cpu.Whole(mem, port), bound);
    RunThroughEnds(o, d, cpu.Whole(mem, port), bound);
    while true
      invariant cpu.Settings() == d
      invariant var t := RunThrough(o, d, cpu.Whole(mem, port), left); t.c == end.c && t.status == end.status
      decreases left
    {
      var status, _ := cpu.RunSlice(mem, port, FULL_SLICE);
      if status == Halted || status == Trapped {
        break;
      }
      left := left - 1;
    }
    cpu.isHalted := true;
    code := cpu.exitCode;
  }

  /**
   * Breakpoints do not change what `run` computes. On a quiet host, if stepping
   * without breakpoints stops within `bound` steps, `run` ends within twice as many
   * slices, with the same machine, flags and log; the counter differs by the trap.
   */
  lemma RunIgnoresBreakpoints(o: Oracle, d: Debug, c: Core, bound: nat)
    requires Quiet(o) && !c.m.halted && Stepping(o, OFF, c, bound).status != Running
    ensures var s, t := RunThrough(o, d, c, 2 * bound), Stepping(o, OFF, c, bound);
            s.status == t.status && Bare(t.c) == Bare(s.c).(stepCounter := s.c.stepCounter + Uncounted(s.status))
  {
    hide Stepping, RunThrough;
    SteppingNone(o, OFF, c);
    RunPassesBreakpoints(o, d, c, 0, c, 2 * bound, bound);
  }

  /** A pending resume at the pc means the next slice cannot stop at once. */
  function Owed(c: Core): nat { if c.resume == Some(c.m.pc) then 1 else 0 }

  lemma {:induction false} RunPassesBreakpoints(o: Oracle, d: Debug, c0: Core, done: nat, c: Core, k: nat, bound: nat)
    requires Quiet(o) && !c.m.halted
    requires Stepping(o, OFF, c0, done).status == Running && Bare(Stepping(o, OFF, c0, done).c) == Bare(c)
    requires Stepping(o, OFF, c0, bound).status != Running && k + Owed(c) >= 2 * (bound - done)
    ensures var s, t := RunThrough(o, d, c, k), Stepping(o, OFF, c0, bound);
            s.status == t.status && Bare(t.c) == Bare(s.c).(stepCounter := s.c.stepCounter + Uncounted(s.status))
    decreases k
  {
    hide Stepping, RunSlice, Bare;
    StillRunning(o, OFF, c0, done, bound);
    var s := RunSlice(o, d, c, FULL_SLICE);
    SliceOfRun(o, d, c0, done, c, FULL_SLICE);
    SliceProgress(o, d, c, FULL_SLICE);
    if s.status == Halted || s.status == Trapped {
      StoppedStays(o, OFF, c0, done + FULL_SLICE, bound);
    } else {
      SameCounter(s.c);
      StillRunning(o, OFF, c0, done + s.steps, bound);
      RunPassesBreakpoints(o, d, c0, done + s.steps, s.c, k - 1, bound);
    }
  }

  lemma SameCounter(c: Core)
    ensures Bare(c).(stepCounter := c.stepCounter + 0) == Bare(c)
  {
  }
}
