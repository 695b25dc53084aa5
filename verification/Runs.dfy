/**
 * Whole runs. The log of a slice is a complete record: replaying it on the bare
 * machine gives the machine the slice ends with. What holds of every replayable
 * sequence of actions therefore holds of every mix of slices and single steps.
 */
module Runs {
  import opened Wrappers
  import opened HostImports
  import opened Machine
  import opened Steps
  import opened Interrupts
  import opened RunLoop

  // ---- Replaying a log ----

  /** The machine after executing the instruction at the pc, trap handling included. */
  function AfterInstruction(o: Oracle, m: Machine): Machine {
    match FetchExecute(o, m)
    case Ok(m') => m'
    case Err(m', e) => Stopped(m', e)
  }

  function After(o: Oracle, m: Machine, a: Action): Machine {
    match a
    case Executed(_) => AfterInstruction(o, m)
    case Interrupted(irq) => TakeInterrupt(m, irq)
  }

  /** An action the machine allows: it is not halted, and takes interrupts only when enabled. */
  predicate Allowed(m: Machine, a: Action) {
    && !m.halted
    && (a.Executed? ==> a.pc == m.pc)
    && (a.Interrupted? ==> InterruptsEnabled(m) && a.irq != 0)
  }

  function Replay(o: Oracle, m: Machine, acts: seq<Action>): Machine
    decreases |acts|
  {
    if acts == [] then m else Replay(o, After(o, m, acts[0]), acts[1..])
  }

  predicate IsRun(o: Oracle, m: Machine, acts: seq<Action>)
    decreases |acts|
  {
    acts == [] || (Allowed(m, acts[0]) && IsRun(o, After(o, m, acts[0]), acts[1..]))
  }

  lemma {:induction false} ReplayAppend(o: Oracle, m: Machine, xs: seq<Action>, ys: seq<Action>)
    ensures Replay(o, m, xs + ys) == Replay(o, Replay(o, m, xs), ys)
    ensures IsRun(o, m, xs + ys) <==> IsRun(o, m, xs) && IsRun(o, Replay(o, m, xs), ys)
    decreases |xs|
  {
    hide After, Allowed;
    if xs == [] {
      assert xs + ys == ys;
    } else {
      assert (xs + ys)[0] == xs[0] && (xs + ys)[1..] == xs[1..] + ys;
      ReplayAppend(o, After(o, m, xs[0]), xs[1..], ys);
    }
  }

  lemma {:induction false} ReplayOne(o: Oracle, m: Machine, a: Action)
    ensures Replay(o, m, [a]) == After(o, m, a)
    ensures IsRun(o, m, [a]) <==> Allowed(m, a)
  {
    hide After, Allowed;
    assert [a][1..] == [];
  }

  /** `c'` continues `c`: its log extends the log of `c` by a run from one machine to the other. */
  ghost predicate Continues(o: Oracle, c: Core, c': Core) {
    && c.log <= c'.log
    && IsRun(o, c.m, c'.log[|c.log|..])
    && c'.m == Replay(o, c.m, c'.log[|c.log|..])
  }

  lemma ContinuesSame(o: Oracle, c: Core, c': Core)
    requires c'.m == c.m && c'.log == c.log
    ensures Continues(o, c, c')
  {
    hide After, Allowed;
    assert c'.log[|c.log|..] == [];
  }

  lemma ContinuesTransitive(o: Oracle, a: Core, b: Core, c: Core)
    requires Continues(o, a, b) && Continues(o, b, c)
    ensures Continues(o, a, c)
  {
    hide Replay, IsRun;
    ReplayAppend(o, a.m, b.log[|a.log|..], c.log[|b.log|..]);
    assert c.log[|a.log|..] == b.log[|a.log|..] + c.log[|b.log|..];
  }

  lemma ContinuesOne(o: Oracle, c: Core, c': Core, a: Action)
    requires c'.log == c.log + [a] && Allowed(c.m, a) && c'.m == After(o, c.m, a)
    ensures Continues(o, c, c')
  {
    hide Replay, IsRun, After, Allowed;
    assert c'.log[|c.log|..] == [a];
    ReplayOne(o, c.m, a);
  }

  lemma TryContinues(o: Oracle, c: Core)
    requires !c.m.halted
    ensures Continues(o, c, Try(o, c).c)
  {
    hide FetchExecute, Continues;
    ContinuesOne(o, c, Try(o, c).c, Executed(c.m.pc));
  }

  lemma PollContinues(o: Oracle, c: Core)
    requires !c.m.halted
    ensures Continues(o, c, AfterPoll(o, c))
  {
    hide TakeInterrupt, InterruptsEnabled, Continues, FetchExecute;
    var p := Polled(o, c);
    if p.enabled && InterruptsEnabled(c.m) && p.irq != 0 {
      ContinuesOne(o, c, AfterPoll(o, c), Interrupted(p.irq));
    } else {
      ContinuesSame(o, c, AfterPoll(o, c));
    }
  }

  lemma {:induction false} ChunkContinues(o: Oracle, d: Debug, watch: bool, c: Core, skip: Option<bv32>, n: nat)
    ensures Continues(o, c, RunChunk(o, d, watch, c, skip, n).c)
    decreases n
  {
    hide Try, Continues;
    if n == 0 || c.m.halted || (watch && c.m.pc in d.breakpoints && skip != Some(c.m.pc)) {
      ContinuesSame(o, c, RunChunk(o, d, watch, c, skip, n).c);
    } else {
      TryContinues(o, c);
      var c1 := Try(o, c).c;
      if Try(o, c).Retired? {
        var skip' := if watch then None else skip;
        ChunkContinues(o, d, watch, Counted(c1), skip', n - 1);
        ContinuesSame(o, c1, Counted(c1));
        ContinuesTransitive(o, c, c1, Counted(c1));
        ContinuesTransitive(o, c, Counted(c1), RunChunk(o, d, watch, Counted(c1), skip', n - 1).c);
      }
    }
  }

  lemma {:induction false} LoopContinues(o: Oracle, d: Debug, watch: bool, c: Core, skip: Option<bv32>, left: nat)
    ensures Continues(o, c, RunFrom(o, d, watch, c, skip, left).c)
    decreases left
  {
    hide RunChunk, AfterPoll, Polled, Interval, Continues;
    if c.m.halted || left == 0 {
      ContinuesSame(o, c, c);
    } else {
      var count := Min(Interval(Polled(o, c).delay), left);
      var c0 := AfterPoll(o, c);
      var r := RunChunk(o, d, watch, c0, skip, count);
      PollContinues(o, c);
      ChunkContinues(o, d, watch, c0, skip, count);
      ContinuesTransitive(o, c, c0, r.c);
      if r.stopped.None? {
        LoopContinues(o, d, watch, r.c, r.skip, left - count);
        ContinuesTransitive(o, c, r.c, RunFrom(o, d, watch, r.c, r.skip, left - count).c);
      }
    }
  }

  /** The log of a slice is a run of the machine from its first to its last state, on any host. */
  lemma SliceReplays(o: Oracle, d: Debug, c: Core, n: nat)
    ensures Continues(o, c, RunSlice(o, d, c, n).c)
  {
    hide RunFrom, Continues;
    var c0 := c.(resume := None);
    ContinuesSame(o, c, c0);
    LoopContinues(o, d, Watching(d), c0, c.resume, n);
    ContinuesTransitive(o, c, c0, RunSlice(o, d, c, n).c);
  }

  /** So is the log of a debugger step. */
  lemma StepReplays(o: Oracle, d: Debug, c: Core)
    ensures Continues(o, c, StepInstruction(o, d, c).c)
  {
    hide Try, Continues, AtBreakpoint;
    var c0 := c.(resume := None);
    var s := StepInstruction(o, d, c);
    if AtBreakpoint(d, c.m.pc, c.resume) || c.m.halted {
      ContinuesSame(o, c, s.c);
    } else {
      ContinuesSame(o, c, c0);
      TryContinues(o, c0);
      ContinuesSame(o, Try(o, c0).c, s.c);
      ContinuesTransitive(o, c, c0, Try(o, c0).c);
      ContinuesTransitive(o, c, Try(o, c0).c, s.c);
    }
  }
}
