/**
 * The run loop and the single-step entry point of the debugger, as functions.
 *
 * `StepInstruction` is one debugger step. `RunSlice` is the nested loop: it polls
 * the host for interrupts, runs a chunk of instructions until the next poll is
 * due or the budget is spent, and stops early on a halt, a trap or a breakpoint.
 * A log of executed instructions and delivered interrupts records every run.
 */
module RunLoop {
  import opened Wrappers
  import opened HostImports
  import opened Machine
  import opened Steps
  import opened Interrupts

  /** Debugger settings; they do not change while a slice runs. */
  datatype Debug = Debug(enabled: bool, breakpoints: set<bv32>)

  datatype Action = Executed(pc: bv32) | Interrupted(irq: bv32)

  /** The machine together with the bookkeeping of the CPU object around it. */
  datatype Core = Core(
    m: Machine,
    trapped: bool,
    stepCounter: nat,
    resume: Option<bv32>,
    polls: seq<bool>,
    log: seq<Action>)

  datatype StepResult = StepOk | BreakpointHit(addr: bv32) | StepHalted(code: bv32) | Trap(addr: bv32)

  datatype SliceStatus = Running | Halted | Trapped | Breakpoint

  const TRAP_EXIT_CODE: bv32 := 134

  // ---- One instruction ----

  /** The host is told about a system call nobody implements. */
  function Notified(m: Machine, e: CpuError): Machine {
    if e.UnknownSyscall? then Record(m, UnknownSyscallNotice(e.args)) else m
  }

  /** A trap stops the machine. */
  function Stopped(m: Machine, e: CpuError): Machine {
    Notified(m, e).(halted := true, exitCode := TRAP_EXIT_CODE)
  }

  datatype Attempt = Retired(c: Core) | Faulted(c: Core)

  /** Execute the instruction at the pc, without counting it. */
  function Try(o: Oracle, c: Core): Attempt {
    var log := c.log + [Executed(c.m.pc)];
    match FetchExecute(o, c.m)
    case Ok(m) => Retired(c.(m := m, log := log))
    case Err(m, e) => Faulted(c.(m := Stopped(m, e), trapped := true, log := log))
  }

  function Counted(c: Core): Core { c.(stepCounter := c.stepCounter + 1) }

  // ---- The debugger's single step ----

  predicate AtBreakpoint(d: Debug, pc: bv32, passed: Option<bv32>) {
    d.enabled && pc in d.breakpoints && passed != Some(pc)
  }

  datatype Stepped = Stepped(c: Core, result: StepResult)

  function StepInstruction(o: Oracle, d: Debug, c: Core): Stepped {
    if AtBreakpoint(d, c.m.pc, c.resume) then
      Stepped(c.(resume := Some(c.m.pc)), BreakpointHit(c.m.pc))
    else
      var c0 := c.(resume := None);
      if c0.m.halted then Stepped(c0, StepHalted(c0.m.exitCode))
      else
        match Try(o, c0)
        case Retired(c1) => Stepped(Counted(c1), if c1.m.halted then StepHalted(c1.m.exitCode) else StepOk)
        case Faulted(c1) => Stepped(Counted(c1), Trap(c.m.pc))
  }

  /** The three ways a debugger step goes. */
  lemma StepForms(o: Oracle, d: Debug, c: Core)
    ensures AtBreakpoint(d, c.m.pc, c.resume) ==>
              StepInstruction(o, d, c) == Stepped(c.(resume := Some(c.m.pc)), BreakpointHit(c.m.pc))
    ensures !AtBreakpoint(d, c.m.pc, c.resume) && c.m.halted ==>
              StepInstruction(o, d, c) == Stepped(c.(resume := None), StepHalted(c.m.exitCode))
    ensures !AtBreakpoint(d, c.m.pc, c.resume) && !c.m.halted ==>
              StepInstruction(o, d, c) ==
              match Try(o, c.(resume := None))
              case Retired(c1) => Stepped(Counted(c1), if c1.m.halted then StepHalted(c1.m.exitCode) else StepOk)
              case Faulted(c1) => Stepped(Counted(c1), Trap(c.m.pc))
  {
    hide Try, AtBreakpoint;
  }

  // ---- The run loop ----

  /** Poll interval: a zero answer means 1000, a negative one is a huge unsigned number. */
  function Interval(delay: I32): (r: nat)
    ensures r > 0
  {
    if delay == 0 then 1000 else if delay < 0 then 0x1_0000_0000_0000_0000 + delay else delay
  }

  function Polled(o: Oracle, c: Core): Poll { o.poll(c.m.st.events, c.polls) }

  /** Poll the host, and take an interrupt if there is one and the guest allows it. */
  function AfterPoll(o: Oracle, c: Core): Core {
    var p := Polled(o, c);
    var asked := p.enabled && InterruptsEnabled(c.m);
    var c1 := c.(polls := c.polls + [asked]);
    if asked && p.irq != 0 then c1.(m := TakeInterrupt(c1.m, p.irq), log := c1.log + [Interrupted(p.irq)])
    else c1
  }

  /** State of a slice between two polls. */
  datatype Chunk = Chunk(c: Core, done: nat, skip: Option<bv32>, stopped: Option<SliceStatus>)

  /** The inner loop: at most `count` instructions. */
  function RunChunk(o: Oracle, d: Debug, watch: bool, c: Core, skip: Option<bv32>, count: nat): (r: Chunk)
    ensures r.done <= count
    ensures r.stopped.None? ==> r.done == count
    ensures r.stopped != Some(Running)
    decreases count
  {
    if count == 0 then Chunk(c, 0, skip, None)
    else if c.m.halted then Chunk(c, 0, skip, Some(Halted))
    else if watch && c.m.pc in d.breakpoints && skip != Some(c.m.pc) then
      Chunk(c.(resume := Some(c.m.pc)), 0, skip, Some(Breakpoint))
    else
      var skip' := if watch then None else skip;
      match Try(o, c)
      case Faulted(c1) => Chunk(c1, 0, skip', Some(Trapped))
      case Retired(c1) =>
        var r := RunChunk(o, d, watch, Counted(c1), skip', count - 1);
        r.(done := r.done + 1)
  }

  datatype Slice = Slice(c: Core, status: SliceStatus, steps: nat)

  function Min(a: nat, b: nat): nat { if a < b then a else b }

  /** The outer loop with `left` instructions of budget to go. */
  function RunFrom(o: Oracle, d: Debug, watch: bool, c: Core, skip: Option<bv32>, left: nat): Slice
    decreases left
  {
    if c.m.halted then Slice(c, Halted, 0)
    else if left == 0 then Slice(c, Running, 0)
    else
      var count := Min(Interval(Polled(o, c).delay), left);
      var r := RunChunk(o, d, watch, AfterPoll(o, c), skip, count);
      if r.stopped.Some? then Slice(r.c, r.stopped.value, r.done)
      else
        var rest := RunFrom(o, d, watch, r.c, r.skip, left - count);
        rest.(steps := r.done + rest.steps)
  }

  predicate Watching(d: Debug) { d.enabled && d.breakpoints != {} }

  /** `run_slice`. */
  function RunSlice(o: Oracle, d: Debug, c: Core, budget: nat): Slice {
    RunFrom(o, d, Watching(d), c.(resume := None), c.resume, budget)
  }

  // ---- The simple form ----

  /** Call `StepInstruction` until it does not return `StepOk` or `n` calls have succeeded. */
  function Stepping(o: Oracle, d: Debug, c: Core, n: nat): Slice
    decreases n
  {
    if n == 0 then Slice(c, Running, 0)
    else
      var s := StepInstruction(o, d, c);
      match s.result
      case BreakpointHit(_) => Slice(s.c, Breakpoint, 0)
      case Trap(_) => Slice(s.c, Trapped, 0)
      case StepHalted(_) => Slice(s.c, Halted, if c.m.halted then 0 else 1)
      case StepOk =>
        var rest := Stepping(o, d, s.c, n - 1);
        rest.(steps := 1 + rest.steps)
  }

  // ---- One turn of each loop ----

  lemma ChunkEnds(o: Oracle, d: Debug, watch: bool, c: Core, skip: Option<bv32>, count: nat)
    ensures count == 0 ==> RunChunk(o, d, watch, c, skip, count) == Chunk(c, 0, skip, None)
    ensures count > 0 && c.m.halted ==> RunChunk(o, d, watch, c, skip, count) == Chunk(c, 0, skip, Some(Halted))
    ensures count > 0 && !c.m.halted && watch && c.m.pc in d.breakpoints && skip != Some(c.m.pc) ==>
              RunChunk(o, d, watch, c, skip, count) == Chunk(c.(resume := Some(c.m.pc)), 0, skip, Some(Breakpoint))
  {
    hide Try;
  }

  lemma ChunkTurns(o: Oracle, d: Debug, watch: bool, c: Core, skip: Option<bv32>, count: nat)
    requires count > 0 && !c.m.halted && !(watch && c.m.pc in d.breakpoints && skip != Some(c.m.pc))
    ensures var skip' := if watch then None else skip;
            RunChunk(o, d, watch, c, skip, count) ==
            match Try(o, c)
            case Faulted(c1) => Chunk(c1, 0, skip', Some(Trapped))
            case Retired(c1) => (var r := RunChunk(o, d, watch, Counted(c1), skip', count - 1); r.(done := r.done + 1))
  {
    hide Try;
  }

  /** A chunk is its first turn and then the rest. */
  lemma ChunkSplits(o: Oracle, d: Debug, watch: bool, c: Core, skip: Option<bv32>, count: nat)
    requires count > 0
    ensures var first := RunChunk(o, d, watch, c, skip, 1);
            RunChunk(o, d, watch, c, skip, count) ==
            if first.stopped.Some? then first
            else (var r := RunChunk(o, d, watch, first.c, first.skip, count - 1); r.(done := r.done + 1))
  {
    hide Try, RunChunk;
    ChunkEnds(o, d, watch, c, skip, count);
    ChunkEnds(o, d, watch, c, skip, 1);
    if !c.m.halted && !(watch && c.m.pc in d.breakpoints && skip != Some(c.m.pc)) {
      ChunkTurns(o, d, watch, c, skip, count);
      ChunkTurns(o, d, watch, c, skip, 1);
      ChunkEnds(o, d, watch, Counted(Try(o, c).c), if watch then None else skip, 0);
    }
  }

  lemma LoopEnds(o: Oracle, d: Debug, watch: bool, c: Core, skip: Option<bv32>, left: nat)
    ensures c.m.halted ==> RunFrom(o, d, watch, c, skip, left) == Slice(c, Halted, 0)
    ensures !c.m.halted && left == 0 ==> RunFrom(o, d, watch, c, skip, left) == Slice(c, Running, 0)
  {
    hide RunChunk, AfterPoll;
  }

  lemma LoopTurns(o: Oracle, d: Debug, watch: bool, c: Core, skip: Option<bv32>, left: nat)
    requires !c.m.halted && left > 0
    ensures var count := Min(Interval(Polled(o, c).delay), left);
            var r := RunChunk(o, d, watch, AfterPoll(o, c), skip, count);
            RunFrom(o, d, watch, c, skip, left) ==
            if r.stopped.Some? then Slice(r.c, r.stopped.value, r.done)
            else (var rest := RunFrom(o, d, watch, r.c, r.skip, left - count); rest.(steps := r.done + rest.steps))
  {
    hide RunChunk, AfterPoll, Polled, Interval;
  }
}
