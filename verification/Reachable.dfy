/**
 * Properties of every reachable state and of every whole run: the machine
 * invariant, slice accounting, halted machines, pc alignment and interrupts.
 */
module Reachable {
  import opened Wrappers
  import opened Bits
  import opened HostImports
  import opened Machine
  import opened Frames
  import opened Steps
  import opened Interrupts
  import opened RunLoop
  import opened Runs

  // ---- The machine invariant ----

  /** What lasts through a run: x0, the heap bounds and the trace of host calls made so far. */
  predicate Lasting(m: Machine, m': Machine) {
    && m'.regs[0] == m.regs[0]
    && m'.customSyscalls == m.customSyscalls
    && Evolves(m.st, m'.st)
  }

  lemma KeptIsLasting(m: Machine, m': Machine)
    requires Kept(m, m'.(pc := m.pc))
    ensures Lasting(m, m')
  {
    hide BrkInRange;
  }

  lemma LastingTransitive(a: Machine, b: Machine, c: Machine)
    requires Lasting(a, b) && Lasting(b, c)
    ensures Lasting(a, c)
  {
    hide BrkInRange;
    if BrkInRange(b.st) && c.st.brk == b.st.brk {
      SameBrkInRange(b.st, c.st);
    }
  }

  lemma StoppedLasts(m: Machine, m1: Machine, e: CpuError)
    requires Precise(m, m1)
    ensures Lasting(m, Stopped(m1, e))
  {
    hide BrkInRange;
  }

  lemma AfterLasts(o: Oracle, m: Machine, a: Action)
    ensures Lasting(m, After(o, m, a))
  {
    hide FetchExecute, TakeInterrupt, Kept, Precise, Lasting, Stopped;
    match a
    case Executed(_) =>
      StepFramed(o, m);
      match FetchExecute(o, m) {
        case Ok(m') => KeptIsLasting(m, m');
        case Err(m', e) => StoppedLasts(m, m', e);
      }
    case Interrupted(irq) =>
      EntryLasts(m, irq);
  }

  lemma EntryLasts(m: Machine, irq: bv32)
    ensures Lasting(m, TakeInterrupt(m, irq))
  {
    hide TakeInterrupt, Entered, GetCsr, BrkInRange;
    EntrySaves(m, irq);
  }

  lemma {:induction false} RunLasts(o: Oracle, m: Machine, acts: seq<Action>)
    ensures Lasting(m, Replay(o, m, acts))
    decreases |acts|
  {
    hide After, Lasting;
    if acts == [] {
      LastingSame(m);
    } else {
      AfterLasts(o, m, acts[0]);
      RunLasts(o, After(o, m, acts[0]), acts[1..]);
      LastingTransitive(m, After(o, m, acts[0]), Replay(o, m, acts));
    }
  }

  lemma LastingSame(m: Machine)
    ensures Lasting(m, m)
  {
    hide BrkInRange;
  }

  /** x0 holds zero and the heap break lies in the heap. */
  predicate WellFormed(m: Machine) { m.regs[0] == 0 && BrkInRange(m.st) }

  lemma LastingWellFormed(m: Machine, m': Machine)
    requires WellFormed(m) && Lasting(m, m')
    ensures WellFormed(m')
  {
    hide BrkInRange;
    if m'.st.brk == m.st.brk {
      SameBrkInRange(m.st, m'.st);
    }
  }

  // ---- Sessions: any mix of slices, steps and changes of debugger settings ----

  datatype Command = DoSlice(budget: nat) | DoStep | SetDebug(debug: Debug)

  datatype Session = Session(d: Debug, c: Core)

  function Perform(o: Oracle, s: Session, cmd: Command): Session {
    match cmd
    case DoSlice(n) => Session(s.d, RunSlice(o, s.d, s.c, n).c)
    case DoStep => Session(s.d, StepInstruction(o, s.d, s.c).c)
    case SetDebug(d) => Session(d, s.c)
  }

  function PerformAll(o: Oracle, s: Session, cmds: seq<Command>): Session
    decreases |cmds|
  {
    if cmds == [] then s else PerformAll(o, Perform(o, s, cmds[0]), cmds[1..])
  }

  lemma PerformContinues(o: Oracle, s: Session, cmd: Command)
    ensures Continues(o, s.c, Perform(o, s, cmd).c)
  {
    hide RunSlice, StepInstruction, Continues;
    match cmd
    case DoSlice(n) => SliceReplays(o, s.d, s.c, n);
    case DoStep => StepReplays(o, s.d, s.c);
    case SetDebug(d) => ContinuesSame(o, s.c, s.c);
  }

  lemma {:induction false} SessionContinues(o: Oracle, s: Session, cmds: seq<Command>)
    ensures Continues(o, s.c, PerformAll(o, s, cmds).c)
    decreases |cmds|
  {
    hide Perform, Continues;
    if cmds == [] {
      ContinuesSame(o, s.c, s.c);
    } else {
      PerformContinues(o, s, cmds[0]);
      SessionContinues(o, Perform(o, s, cmds[0]), cmds[1..]);
      ContinuesTransitive(o, s.c, Perform(o, s, cmds[0]).c, PerformAll(o, s, cmds).c);
    }
  }

  /** A trap has stopped the machine with the trap exit code. */
  predicate TrapIsFinal(c: Core) {
    c.trapped ==> c.m.halted && c.m.exitCode == TRAP_EXIT_CODE
  }

  lemma {:induction false} ChunkTraps(o: Oracle, d: Debug, watch: bool, c: Core, skip: Option<bv32>, n: nat)
    requires TrapIsFinal(c)
    ensures TrapIsFinal(RunChunk(o, d, watch, c, skip, n).c)
    decreases n
  {
    hide FetchExecute, Notified;
    if n > 0 && !c.m.halted && !(watch && c.m.pc in d.breakpoints && skip != Some(c.m.pc)) && Try(o, c).Retired? {
      ChunkTraps(o, d, watch, Counted(Try(o, c).c), if watch then None else skip, n - 1);
    }
  }

  lemma {:induction false} LoopTraps(o: Oracle, d: Debug, watch: bool, c: Core, skip: Option<bv32>, left: nat)
    requires TrapIsFinal(c)
    ensures TrapIsFinal(RunFrom(o, d, watch, c, skip, left).c)
    decreases left
  {
    hide RunChunk, Polled, Interval, InterruptsEnabled, TakeInterrupt;
    if !c.m.halted && left > 0 {
      var count := Min(Interval(Polled(o, c).delay), left);
      var r := RunChunk(o, d, watch, AfterPoll(o, c), skip, count);
      ChunkTraps(o, d, watch, AfterPoll(o, c), skip, count);
      if r.stopped.None? {
        LoopTraps(o, d, watch, r.c, r.skip, left - count);
      }
    }
  }

  lemma PerformTraps(o: Oracle, s: Session, cmd: Command)
    requires TrapIsFinal(s.c)
    ensures TrapIsFinal(Perform(o, s, cmd).c)
  {
    hide RunFrom, FetchExecute, Notified;
    if cmd.DoSlice? {
      LoopTraps(o, s.d, Watching(s.d), s.c.(resume := None), s.c.resume, cmd.budget);
    }
  }

  /** The invariant of a session. */
  predicate Sound(c: Core) { WellFormed(c.m) && TrapIsFinal(c) }

  /**
   * Through any mix of slices, steps, interrupts, system calls and changes of
   * breakpoints: x0 stays zero, the heap break stays in the heap, a trap has
   * halted the machine with exit code 134, and the trace of host calls only grows.
   */
  lemma {:induction false} SessionKeepsInvariant(o: Oracle, s: Session, cmds: seq<Command>)
    requires Sound(s.c)
    ensures Sound(PerformAll(o, s, cmds).c)
    ensures s.c.m.st.events <= PerformAll(o, s, cmds).c.m.st.events
    decreases |cmds|
  {
    hide Perform, WellFormed, TrapIsFinal, Lasting, Replay, IsRun, BrkInRange;
    SessionContinues(o, s, cmds);
    var c' := PerformAll(o, s, cmds).c;
    RunLasts(o, s.c.m, c'.log[|s.c.log|..]);
    LastingWellFormed(s.c.m, c'.m);
    LastingTrace(s.c.m, c'.m);
    SessionTraps(o, s, cmds);
  }

  lemma LastingTrace(m: Machine, m': Machine)
    requires Lasting(m, m')
    ensures m.st.events <= m'.st.events
  {
  }

  lemma {:induction false} SessionTraps(o: Oracle, s: Session, cmds: seq<Command>)
    requires TrapIsFinal(s.c)
    ensures TrapIsFinal(PerformAll(o, s, cmds).c)
    decreases |cmds|
  {
    hide Perform, TrapIsFinal;
    if cmds == [] {
    } else {
      PerformTraps(o, s, cmds[0]);
      SessionTraps(o, Perform(o, s, cmds[0]), cmds[1..]);
    }
  }

  /** A halted machine never changes again, whatever is asked of it. */
  lemma HaltedForever(o: Oracle, s: Session, cmds: seq<Command>)
    requires s.c.m.halted
    ensures PerformAll(o, s, cmds).c.m == s.c.m && PerformAll(o, s, cmds).c.log == s.c.log
  {
    hide PerformAll, After;
    SessionContinues(o, s, cmds);
    var c' := PerformAll(o, s, cmds).c;
    assert c'.log[|s.c.log|..] == [];
    assert c'.log == s.c.log + c'.log[|s.c.log|..];
  }

  // ---- Slice accounting ----

  lemma {:induction false} ChunkCounts(o: Oracle, d: Debug, watch: bool, c: Core, skip: Option<bv32>, n: nat)
    ensures var r := RunChunk(o, d, watch, c, skip, n);
            && r.c.stepCounter == c.stepCounter + r.done
            && (r.stopped == Some(Halted) || r.stopped == Some(Trapped) ==> r.c.m.halted)
            && (r.stopped == Some(Trapped) ==> r.c.trapped)
            && (r.stopped == Some(Breakpoint) ==>
               !r.c.m.halted && r.c.m.pc in d.breakpoints && r.c.resume == Some(r.c.m.pc) && watch)
    decreases n
  {
    hide FetchExecute, Notified;
    if n > 0 && !c.m.halted && !(watch && c.m.pc in d.breakpoints && skip != Some(c.m.pc)) && Try(o, c).Retired? {
      ChunkCounts(o, d, watch, Counted(Try(o, c).c), if watch then None else skip, n - 1);
    }
  }

  lemma {:induction false} LoopCounts(o: Oracle, d: Debug, watch: bool, c: Core, skip: Option<bv32>, left: nat)
    ensures var s := RunFrom(o, d, watch, c, skip, left);
            && s.steps <= left
            && s.c.stepCounter == c.stepCounter + s.steps
            && (s.status == Running ==> s.steps == left && !s.c.m.halted)
            && (s.status == Halted || s.status == Trapped ==> s.c.m.halted)
            && (s.status == Trapped ==> s.c.trapped)
            && (s.status == Breakpoint ==>
                !s.c.m.halted && s.c.m.pc in d.breakpoints && s.c.resume == Some(s.c.m.pc) && watch)
    decreases left
  {
    hide RunChunk, Polled, Interval, InterruptsEnabled, TakeInterrupt;
    if !c.m.halted && left > 0 {
      var count := Min(Interval(Polled(o, c).delay), left);
      var r := RunChunk(o, d, watch, AfterPoll(o, c), skip, count);
      ChunkCounts(o, d, watch, AfterPoll(o, c), skip, count);
      if r.stopped.None? {
        LoopCounts(o, d, watch, r.c, r.skip, left - count);
      }
    }
  }

  /**
   * Slice accounting, on any host and for every poll delay: a slice never retires
   * more than its budget, adds exactly what it retires to the step counter,
   * reports Running only with its budget spent and a machine that runs, and
   * reports Halted or Trapped only with the machine halted.
   */
  lemma SliceAccounting(o: Oracle, d: Debug, c: Core, n: nat)
    ensures var s := RunSlice(o, d, c, n);
            && s.steps <= n
            && s.c.stepCounter == c.stepCounter + s.steps
            && (s.status == Running ==> s.steps == n && !s.c.m.halted)
            && (s.status == Halted || s.status == Trapped ==> s.c.m.halted)
            && (s.status == Trapped ==> s.c.trapped)
            && (s.status == Breakpoint ==>
                !s.c.m.halted && d.enabled && s.c.m.pc in d.breakpoints && s.c.resume == Some(s.c.m.pc))
  {
    hide RunFrom;
    LoopCounts(o, d, Watching(d), c.(resume := None), c.resume, n);
  }

  // ---- Traps are precise ----

  /** `c'` is `pre` stopped by a fault of the instruction at its pc. */
  ghost predicate FaultsInto(o: Oracle, pre: Core, c': Core) {
    && !pre.m.halted
    && FetchExecute(o, pre.m).Err?
    && c'.m == Stopped(FetchExecute(o, pre.m).m, FetchExecute(o, pre.m).error)
    && c'.log == pre.log + [Executed(pre.m.pc)]
  }

  lemma {:induction false} ChunkFault(o: Oracle, d: Debug, watch: bool, c: Core, skip: Option<bv32>, n: nat)
    returns (pre: Core)
    requires RunChunk(o, d, watch, c, skip, n).stopped == Some(Trapped)
    ensures Continues(o, c, pre) && FaultsInto(o, pre, RunChunk(o, d, watch, c, skip, n).c)
    decreases n
  {
    hide FetchExecute, Continues;
    if Try(o, c).Faulted? {
      pre := c;
      ContinuesSame(o, c, c);
    } else {
      var c1 := Counted(Try(o, c).c);
      pre := ChunkFault(o, d, watch, c1, if watch then None else skip, n - 1);
      TryContinues(o, c);
      ContinuesSame(o, Try(o, c).c, c1);
      ContinuesTransitive(o, c, Try(o, c).c, c1);
      ContinuesTransitive(o, c, c1, pre);
    }
  }

  lemma {:induction false} LoopFault(o: Oracle, d: Debug, watch: bool, c: Core, skip: Option<bv32>, left: nat)
    returns (pre: Core)
    requires RunFrom(o, d, watch, c, skip, left).status == Trapped
    ensures Continues(o, c, pre) && FaultsInto(o, pre, RunFrom(o, d, watch, c, skip, left).c)
    decreases left
  {
    hide RunChunk, AfterPoll, Polled, Interval, Continues, FaultsInto;
    var count := Min(Interval(Polled(o, c).delay), left);
    var c0 := AfterPoll(o, c);
    var r := RunChunk(o, d, watch, c0, skip, count);
    PollContinues(o, c);
    if r.stopped.Some? {
      pre := ChunkFault(o, d, watch, c0, skip, count);
      ContinuesTransitive(o, c, c0, pre);
    } else {
      ChunkContinues(o, d, watch, c0, skip, count);
      ContinuesTransitive(o, c, c0, r.c);
      pre := LoopFault(o, d, watch, r.c, r.skip, left - count);
      ContinuesTransitive(o, c, r.c, pre);
    }
  }

  /**
   * A Trapped slice reports the faulting pc and the state just before the faulting
   * instruction: registers, CSRs, memory and heap break are those of the last
   * state the run reached, and only the record of host calls may be longer.
   */
  lemma TrappedSliceIsPrecise(o: Oracle, d: Debug, c: Core, n: nat)
    requires RunSlice(o, d, c, n).status == Trapped
    ensures exists pre: Core ::
              && Continues(o, c, pre)
              && FaultsInto(o, pre, RunSlice(o, d, c, n).c)
              && SameGuestState(pre.m, RunSlice(o, d, c, n).c.m)
  {
    hide RunFrom, Continues;
    var c0 := c.(resume := None);
    var pre := LoopFault(o, d, Watching(d), c0, c.resume, n);
    ContinuesSame(o, c, c0);
    ContinuesTransitive(o, c, c0, pre);
    FaultKeepsState(o, pre, RunSlice(o, d, c, n).c);
  }

  /** Everything a guest can observe of itself. */
  predicate SameGuestState(m: Machine, m': Machine) {
    && m'.pc == m.pc
    && m'.regs == m.regs
    && m'.fregs == m.fregs
    && m'.csrs == m.csrs
    && m'.st.bytes == m.st.bytes
    && m'.st.brk == m.st.brk
  }

  lemma FaultKeepsState(o: Oracle, pre: Core, c': Core)
    requires FaultsInto(o, pre, c')
    ensures SameGuestState(pre.m, c'.m)
  {
    hide FetchExecute;
    StepFramed(o, pre.m);
  }

  // ---- The pc stays even ----

  /** Along the run, mepc and mtvec hold only even values. */
  predicate VectorsEven(o: Oracle, m: Machine, acts: seq<Action>)
    decreases |acts|
  {
    && IsEven(GetCsr(m, MEPC))
    && IsEven(GetCsr(m, MTVEC))
    && (acts != [] ==> VectorsEven(o, After(o, m, acts[0]), acts[1..]))
  }

  lemma AfterGoesEven(o: Oracle, m: Machine, a: Action)
    requires IsEven(m.pc) && IsEven(GetCsr(m, MEPC)) && IsEven(GetCsr(m, MTVEC))
    ensures IsEven(After(o, m, a).pc)
  {
    hide FetchExecute, TakeInterrupt, IsEven, GetCsr, Entered;
    match a
    case Executed(_) => StepGoesEven(o, m);
    case Interrupted(irq) => EntrySaves(m, irq);
  }

  /**
   * From an even pc, every run during which mepc and mtvec hold only even values
   * has an even pc at its end, and so at every point in between.
   */
  lemma {:induction false} RunKeepsPcEven(o: Oracle, m: Machine, acts: seq<Action>, k: nat)
    requires IsEven(m.pc) && VectorsEven(o, m, acts) && k <= |acts|
    ensures IsEven(Replay(o, m, acts[..k]).pc)
    decreases |acts|
  {
    hide After, IsEven, GetCsr;
    if k == 0 {
      assert acts[..0] == [];
    } else {
      AfterGoesEven(o, m, acts[0]);
      RunKeepsPcEven(o, After(o, m, acts[0]), acts[1..], k - 1);
      assert acts[..k][0] == acts[0] && acts[..k][1..] == acts[1..][..k - 1];
    }
  }

  // ---- Interrupts do not nest ----

  /** No instruction of the run is MRET or writes mstatus or mepc. */
  predicate Undisturbed(o: Oracle, m: Machine, acts: seq<Action>)
    decreases |acts|
  {
    acts == [] || (
      && (acts[0].Executed? ==> !StepDisturbs(o, m, MSTATUS) && !StepDisturbs(o, m, MEPC))
      && Undisturbed(o, After(o, m, acts[0]), acts[1..]))
  }

  lemma InstructionKeepsCsr(o: Oracle, m: Machine, num: bv12)
    requires !StepDisturbs(o, m, num)
    ensures GetCsr(AfterInstruction(o, m), num) == GetCsr(m, num)
  {
    hide FetchExecute, StepDisturbs, Notified;
    StepKeepsCsr(o, m, num);
    if FetchExecute(o, m).Err? {
      NoticeKeepsCsrs(FetchExecute(o, m).m, FetchExecute(o, m).error);
    }
  }

  lemma NoticeKeepsCsrs(m: Machine, e: CpuError)
    ensures Notified(m, e).csrs == m.csrs
  {
  }

  /** With interrupts masked, an undisturbed run takes none and keeps mepc and mstatus. */
  lemma {:induction false} MaskedRun(o: Oracle, m: Machine, acts: seq<Action>)
    requires !InterruptsEnabled(m) && IsRun(o, m, acts) && Undisturbed(o, m, acts)
    ensures forall i :: 0 <= i < |acts| ==> acts[i].Executed?
    ensures GetCsr(Replay(o, m, acts), MEPC) == GetCsr(m, MEPC)
    ensures GetCsr(Replay(o, m, acts), MSTATUS) == GetCsr(m, MSTATUS)
    decreases |acts|
  {
    hide AfterInstruction, TakeInterrupt, StepDisturbs, MieSet, GetCsr;
    if acts == [] {
    } else {
      InstructionKeepsCsr(o, m, MSTATUS);
      InstructionKeepsCsr(o, m, MEPC);
      MaskedRun(o, After(o, m, acts[0]), acts[1..]);
      forall i | 0 <= i < |acts| ensures acts[i].Executed? {
        if i > 0 {
          assert acts[i] == acts[1..][i - 1];
        }
      }
    }
  }

  /**
   * Interrupts do not nest. After an interrupt is taken, over any run with no MRET
   * and no write to mstatus or mepc, no second interrupt is taken and mepc keeps
   * the interrupted pc. If the next instruction is then MRET, it restores MIE,
   * sets MPIE and leaves every other bit of mstatus as it was before the
   * interrupt; it returns to the interrupted pc exactly when that address is not
   * zero, or when falling through from MRET happens to lead to zero as well.
   */
  lemma InterruptsDoNotNest(o: Oracle, m: Machine, irq: bv32, acts: seq<Action>)
    requires IsRun(o, TakeInterrupt(m, irq), acts) && Undisturbed(o, TakeInterrupt(m, irq), acts)
    ensures forall i :: 0 <= i < |acts| ==> acts[i].Executed?
    ensures GetCsr(Replay(o, TakeInterrupt(m, irq), acts), MEPC) == m.pc
    ensures var last := Replay(o, TakeInterrupt(m, irq), acts);
            StepIsMret(o, last) ==>
              && FetchExecute(o, last).Ok?
              && GetCsr(FetchExecute(o, last).m, MSTATUS) == GetCsr(m, MSTATUS) | MSTATUS_MPIE
              && (FetchExecute(o, last).m.pc == m.pc <==> m.pc != 0 || Plus(last.pc, 4) == 0)
  {
    hide TakeInterrupt, FetchExecute, StepIsMret, Entered, Returned, GetCsr, MieSet, IsRun, Undisturbed;
    hide Replay;
    EntrySaves(m, irq);
    EntryMasks(m, irq);
    MaskedRun(o, TakeInterrupt(m, irq), acts);
    EntryThenReturnBits(GetCsr(m, MSTATUS));
    var last := Replay(o, TakeInterrupt(m, irq), acts);
    if StepIsMret(o, last) {
      StepOfMret(o, last);
    }
  }
}
