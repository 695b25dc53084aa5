/**
 * What a debugger step reports and leaves behind, case by case, and what the host
 * learns of a trap.
 */
module Outcomes {
  import opened Wrappers
  import opened HostImports
  import opened Machine
  import opened Formats
  import opened Steps
  import opened RunLoop
  import opened Runs
  import opened Syscalls

  /** What the host is told of a fault: the arguments of a system call nobody implements, and nothing otherwise. */
  function Notice(e: CpuError): seq<Event> {
    match e
    case UnknownSyscall(args) => [UnknownSyscallNotice(args)]
    case IllegalInstruction(_, _) => []
    case UnknownOpcode(_, _) => []
  }

  /** The machine a fault leaves: halted with code 134, and the host told. */
  lemma TrapState(o: Oracle, m: Machine)
    requires FetchExecute(o, m).Err?
    ensures var r := FetchExecute(o, m);
            AfterInstruction(o, m) ==
            r.m.(halted := true, exitCode := 134, st := r.m.st.(events := r.m.st.events + Notice(r.error)))
  {
    hide FetchExecute;
    var r := FetchExecute(o, m);
    assert r.m.st.events + [] == r.m.st.events;
  }

  /**
   * A debugger step, case by case. At a breakpoint not yet reported it reports it
   * and arms the resume; on a halted machine it reports the exit code; otherwise it
   * executes one instruction, counts it, and reports a halt, a trap at the pc it
   * had, or success.
   */
  lemma StepReports(o: Oracle, d: Debug, c: Core)
    ensures var s := StepInstruction(o, d, c);
            if d.enabled && c.m.pc in d.breakpoints && c.resume != Some(c.m.pc) then
              s == Stepped(c.(resume := Some(c.m.pc)), BreakpointHit(c.m.pc))
            else if c.m.halted then
              s == Stepped(c.(resume := None), StepHalted(c.m.exitCode))
            else
              var m' := AfterInstruction(o, c.m);
              && s.c == c.(m := m', resume := None, stepCounter := c.stepCounter + 1, log := c.log + [Executed(c.m.pc)],
                           trapped := c.trapped || FetchExecute(o, c.m).Err?)
              && s.result == if FetchExecute(o, c.m).Err? then Trap(c.m.pc)
                             else if m'.halted then StepHalted(m'.exitCode) else StepOk
  {
    hide FetchExecute, Notified;
  }

  /**
   * An ECALL with an unknown number, fetched from ordinary memory: the step traps, and
   * the host learns the arguments.
   */
  lemma UnknownCallIsReported(o: Oracle, d: Debug, c: Core)
    requires !c.m.halted && !(d.enabled && c.m.pc in d.breakpoints && c.resume != Some(c.m.pc))
    requires FetchExecute(o, c.m) == Execute32(o, c.m, ECALL) && IsBuiltIn(o, c.m) && !IsKnown(c.m.regs[17])
    ensures var s := StepInstruction(o, d, c);
            && s.result == Trap(c.m.pc) && s.c.trapped && s.c.m.halted && s.c.m.exitCode == 134
            && s.c.m.regs == c.m.regs && s.c.m.st.bytes == c.m.st.bytes
            && s.c.m.st.events == Asked(c.m).st.events + [UnknownSyscallNotice(CallArgs(c.m))]
  {
    hide FetchExecute, StepInstruction, AfterInstruction, IsKnown, CallArgs, Execute32;
    UnknownFaults(o, c.m);
    StepReports(o, d, c);
    TrapState(o, c.m);
  }
}
