/**
 * The simulator object that the host holds: a CPU, a memory and the host's port.
 * The reachable-state invariant starts here, with new objects, and every entry
 * point of the object keeps it.
 */
module Simulator {
  import opened Wrappers
  import opened Bits
  import opened HostImports
  import opened FlatMemory
  import opened PagedMemory
  import opened RunLoop
  import opened Frames
  import opened Reachable
  import opened Cpu

  /** A session of new objects: registers zero but for sp, memory zero, the heap empty, nothing logged. */
  ghost predicate IsNew(s: Session) {
    && s.d == Debug(false, {})
    && s.c.m.regs == seq(32, _ => 0)[2 := 0x7FF_FFFC]
    && s.c.m.fregs == seq(32, _ => 0) && s.c.m.csrs == seq(4096, _ => 0)
    && s.c.m.pc == 0 && !s.c.m.halted && s.c.m.exitCode == 0 && !s.c.m.customSyscalls
    && s.c.m.st.brk == s.c.m.st.initialBrk == 0x100_0000 && s.c.m.st.events == []
    && (forall a: int :: At(s.c.m.st.bytes, a) == 0)
    && !s.c.trapped && s.c.stepCounter == 0 && s.c.resume == None && s.c.polls == [] && s.c.log == []
  }

  /** New objects satisfy the invariant. */
  lemma NewIsSound(s: Session)
    requires IsNew(s)
    ensures Sound(s.c)
  {
  }

  /** So every state a session of new objects reaches does, whatever the host and the commands. */
  lemma ReachableIsSound(o: Oracle, s: Session, cmds: seq<Command>)
    requires IsNew(s)
    ensures Sound(PerformAll(o, s, cmds).c)
  {
    hide IsNew, Sound, PerformAll;
    NewIsSound(s);
    SessionKeepsInvariant(o, s, cmds);
  }

  lemma PerformKeepsInvariant(o: Oracle, s: Session, cmd: Command)
    requires Sound(s.c)
    ensures Sound(Perform(o, s, cmd).c)
  {
    hide Sound, Perform;
    SessionKeepsInvariant(o, s, [cmd]);
    assert PerformAll(o, s, [cmd]) == Perform(o, s, cmd) by {
      assert [cmd][1..] == [];
    }
  }

  class Simulator {
    const cpu: Cpu
    const mem: Memory
    const port: Port

    ghost function State(): Session
      reads this, cpu, mem, port
    {
      Session(cpu.Settings(), cpu.Whole(mem, port))
    }

    ghost predicate Valid()
      reads this, cpu, mem, port
    {
      Sound(State().c)
    }

    constructor (oracle: Oracle)
      ensures Valid() && IsNew(State()) && port.oracle == oracle
      ensures fresh(cpu) && fresh(mem) && fresh(port)
    {
      cpu := new Cpu();
      mem := new Memory();
      port := new Port(oracle);
      new;
      NewIsSound(State());
    }

    method RunSlice(budget: nat) returns (status: SliceStatus, steps: nat)
      requires Valid()
      modifies cpu, mem, port
      ensures Valid() && State() == Perform(port.oracle, old(State()), DoSlice(budget))
      ensures RunLoop.RunSlice(port.oracle, old(cpu.Settings()), old(cpu.Whole(mem, port)), budget) ==
              Slice(cpu.Whole(mem, port), status, steps)
    {
      hide RunLoop.RunSlice, Sound, Contents;
      PerformKeepsInvariant(port.oracle, State(), DoSlice(budget));
      status, steps := cpu.RunSlice(mem, port, budget);
    }

    method DebugStep() returns (isBreakpoint: bool, hit: bv32)
      requires Valid()
      modifies cpu, mem, port
      ensures Valid() && State() == Perform(port.oracle, old(State()), DoStep)
      ensures isBreakpoint == AtBreakpoint(old(cpu.Settings()), old(cpu.pc), old(cpu.resumePastBreakpoint))
      ensures hit == if isBreakpoint then old(cpu.pc) else 0
    {
      hide RunLoop.Try, Sound, Contents;
      PerformKeepsInvariant(port.oracle, State(), DoStep);
      var result := cpu.StepInstruction(mem, port);
      isBreakpoint, hit := result.BreakpointHit?, if result.BreakpointHit? then result.addr else 0;
    }

    method SetDebugMode(enabled: bool)
      requires Valid()
      modifies cpu`debugEnabled
      ensures Valid() && State() == old(State()).(d := Debug(enabled, old(cpu.breakpoints)))
    {
      hide Sound, Contents;
      cpu.debugEnabled := enabled;
    }

    method AddBreakpoint(addr: bv32)
      requires Valid()
      modifies cpu`breakpoints
      ensures Valid() && State() == old(State()).(d := Debug(cpu.debugEnabled, old(cpu.breakpoints) + {addr}))
    {
      hide Sound, Contents;
      cpu.breakpoints := cpu.breakpoints + {addr};
    }

    method RemoveBreakpoint(addr: bv32)
      requires Valid()
      modifies cpu`breakpoints
      ensures Valid() && State() == old(State()).(d := Debug(cpu.debugEnabled, old(cpu.breakpoints) - {addr}))
    {
      hide Sound, Contents;
      cpu.breakpoints := cpu.breakpoints - {addr};
    }

    /** A write from the debugger; it reaches devices like a write of the guest. */
    method WriteMemoryByte(addr: U32, val: bv8)
      requires Valid()
      modifies mem`pages, port`events
      ensures Valid()
      ensures var c := old(cpu.Whole(mem, port));
              cpu.Whole(mem, port) == c.(m := c.m.(st := Store8(c.m.st, addr, val)))
    {
      hide Contents, BrkInRange;
      Store8Evolves(mem.View(port), addr, val);
      ghost var s := mem.View(port);
      mem.WriteU8(port, addr, val);
      if BrkInRange(s) {
        SameBrkInRange(s, mem.View(port));
      }
    }

    /** Registers outside the file are ignored, and x0 stays zero. */
    method WriteRegister(index: nat, val: bv32)
      requires Valid()
      modifies cpu`regs
      ensures Valid()
      ensures cpu.regs == if 0 < index < 32 then old(cpu.regs)[index := val] else old(cpu.regs)
    {
      hide Contents, BrkInRange;
      if index < 32 && index != 0 {
        cpu.regs := cpu.regs[index := val];
      }
    }
  }
}
