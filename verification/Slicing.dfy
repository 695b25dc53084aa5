/**
 * The fast run loop refines repeated single steps, and slicing does not change a
 * run. Both hold on a host that delivers no interrupt, for whatever poll delays
 * it answers, with breakpoints active.
 */
module Slicing {
  import opened Wrappers
  import opened HostImports
  import opened Steps
  import opened Interrupts
  import opened RunLoop

  /** The core without the history of polls, which is all that slicing may change. */
  function Forget(c: Core): Core { c.(polls := []) }

  /** A debugger step does not look at the history of polls. */
  lemma StepIgnoresPolls(o: Oracle, d: Debug, c: Core, p: seq<bool>)
    ensures StepInstruction(o, d, c.(polls := p)) ==
            Stepped(StepInstruction(o, d, c).c.(polls := p), StepInstruction(o, d, c).result)
  {
    hide FetchExecute;
  }

  lemma {:induction false} SteppingIgnoresPolls(o: Oracle, d: Debug, c: Core, p: seq<bool>, n: nat)
    ensures Stepping(o, d, c.(polls := p), n) ==
            var t := Stepping(o, d, c, n); t.(c := t.c.(polls := p))
    decreases n
  {
    hide StepInstruction;
    if n == 0 {
    } else {
      StepIgnoresPolls(o, d, c, p);
      SteppingIgnoresPolls(o, d, StepInstruction(o, d, c).c, p, n - 1);
    }
  }

  /** Stepping in two parts. */
  lemma {:induction false} SteppingSplits(o: Oracle, d: Debug, c: Core, a: nat, b: nat)
    ensures Stepping(o, d, c, a + b) ==
            var first := Stepping(o, d, c, a);
            if first.status != Running then first
            else
              var second := Stepping(o, d, first.c, b);
              second.(steps := first.steps + second.steps)
    decreases a
  {
    hide StepInstruction;
    if a == 0 {
    } else {
      var s := StepInstruction(o, d, c);
      if s.result.StepOk? {
        SteppingSplits(o, d, s.c, a - 1, b);
        assert a + b - 1 == (a - 1) + b;
      }
    }
  }

  /** The address a chunk may still run through, as a single step sees it. */
  function Passed(watch: bool, skip: Option<bv32>): Option<bv32> { if watch then skip else None }

  /** One debugger step, seen from the inner loop. */
  lemma StepOfChunk(o: Oracle, d: Debug, c: Core, skip: Option<bv32>)
    requires c.resume == None && !c.m.halted
    ensures var watch := Watching(d);
            var s := StepInstruction(o, d, c.(resume := Passed(watch, skip)));
            if watch && c.m.pc in d.breakpoints && skip != Some(c.m.pc)
            then s == Stepped(c.(resume := Some(c.m.pc)), BreakpointHit(c.m.pc))
            else match Try(o, c)
                 case Faulted(c1) => s == Stepped(Counted(c1), Trap(c.m.pc))
                 case Retired(c1) => s == Stepped(Counted(c1), if c1.m.halted then StepHalted(c1.m.exitCode)
                     else StepOk)
  {
    hide FetchExecute;
    var c' := c.(resume := Passed(Watching(d), skip));
    assert c'.(resume := None) == c;
  }

  lemma TryKeepsResume(o: Oracle, c: Core)
    ensures Try(o, c).c.resume == c.resume && Try(o, c).c.stepCounter == c.stepCounter && Try(o, c).c.polls == c.polls
  {
    hide FetchExecute;
  }

  /** Status of repeated stepping after a chunk that was not cut short. */
  function StatusOf(c: Core): SliceStatus { if c.m.halted then Halted else Running }

  /** What the slice counts and the stepper does not agree on: the faulting instruction. */
  function Uncounted(status: SliceStatus): nat { if status == Trapped then 1 else 0 }

  /** The same run, told by the loop (`c`, `status`, `steps`) and by the stepper. */
  predicate Agrees(c: Core, status: SliceStatus, steps: nat, t: Slice) {
    t.status == status && t.steps == steps && t.c == c.(stepCounter := c.stepCounter + Uncounted(status))
  }

  /** A chunk is that many debugger steps. */
  lemma {:induction false} ChunkIsStepping(o: Oracle, d: Debug, c: Core, skip: Option<bv32>, n: nat)
    requires c.resume == None && !c.m.halted && n > 0
    ensures ChunkAgrees(o, d, c, skip, n)
    decreases n
  {
    hide Try, StepInstruction, Watching, ChunkAgrees;
    var watch := Watching(d);
    if (watch && c.m.pc in d.breakpoints && skip != Some(c.m.pc)) || Try(o, c).Faulted? {
      ChunkStopsAtOnce(o, d, c, skip, n);
    } else {
      TryKeepsResume(o, c);
      var c1 := Counted(Try(o, c).c);
      if !c1.m.halted && n > 1 {
        ChunkIsStepping(o, d, c1, if watch then None else skip, n - 1);
      }
      ChunkGoesOn(o, d, c, skip, n);
    }
  }

  ghost predicate ChunkAgrees(o: Oracle, d: Debug, c: Core, skip: Option<bv32>, n: nat) {
    var r := RunChunk(o, d, Watching(d), c, skip, n);
    var t := Stepping(o, d, c.(resume := Passed(Watching(d), skip)), n);
    && Agrees(r.c, if r.stopped.Some? then r.stopped.value else StatusOf(r.c), r.done, t)
    && (r.stopped.None? ==> r.c.resume == None && Passed(Watching(d), r.skip) == None)
  }

  lemma ChunkStopsAtOnce(o: Oracle, d: Debug, c: Core, skip: Option<bv32>, n: nat)
    requires c.resume == None && !c.m.halted && n > 0
    requires (Watching(d) && c.m.pc in d.breakpoints && skip != Some(c.m.pc)) || Try(o, c).Faulted?
    ensures ChunkAgrees(o, d, c, skip, n)
  {
    hide Try, StepInstruction, Watching;
    StepOfChunk(o, d, c, skip);
  }

  /** One turn of a chunk, and the same turn of the stepper. */
  lemma ChunkTurn(o: Oracle, d: Debug, c: Core, skip: Option<bv32>, n: nat)
    requires c.resume == None && !c.m.halted && n > 0
    requires !(Watching(d) && c.m.pc in d.breakpoints && skip != Some(c.m.pc)) && Try(o, c).Retired?
    ensures var c1 := Counted(Try(o, c).c);
            var rest := RunChunk(o, d, Watching(d), c1, if Watching(d) then None else skip, n - 1);
            var tail := Stepping(o, d, c1, n - 1);
            && RunChunk(o, d, Watching(d), c, skip, n) == rest.(done := rest.done + 1)
            && Stepping(o, d, c.(resume := Passed(Watching(d), skip)), n) ==
               if c1.m.halted then Slice(c1, Halted, 1) else tail.(steps := 1 + tail.steps)
  {
    hide Try, StepInstruction, Watching;
    StepOfChunk(o, d, c, skip);
    ChunkTurns(o, d, Watching(d), c, skip, n);
  }

  lemma ChunkGoesOn(o: Oracle, d: Debug, c: Core, skip: Option<bv32>, n: nat)
    requires c.resume == None && !c.m.halted && n > 0
    requires !(Watching(d) && c.m.pc in d.breakpoints && skip != Some(c.m.pc)) && Try(o, c).Retired?
    requires var c1 := Counted(Try(o, c).c);
             !c1.m.halted && n > 1 ==> ChunkAgrees(o, d, c1, if Watching(d) then None else skip, n - 1)
    ensures ChunkAgrees(o, d, c, skip, n)
  {
    hide Try, StepInstruction, Watching, RunChunk, Stepping;
    ChunkTurn(o, d, c, skip, n);
    TryKeepsResume(o, c);
    var watch := Watching(d);
    var c1 := Counted(Try(o, c).c);
    var skip' := if watch then None else skip;
    if c1.m.halted {
      ChunkOfHalted(o, d, c1, skip', n - 1);
    } else if n > 1 {
      assert c1.(resume := Passed(watch, skip')) == c1;
    } else {
      ChunkEnds(o, d, watch, c1, skip', 0);
      SteppingNone(o, d, c1);
    }
  }

  /** A halted machine in the middle of a chunk: the loop notices it without executing anything. */
  lemma ChunkOfHalted(o: Oracle, d: Debug, c: Core, skip: Option<bv32>, n: nat)
    requires c.m.halted
    ensures RunChunk(o, d, Watching(d), c, skip, n) == Chunk(c, 0, skip, if n == 0 then None else Some(Halted))
  {
  }

  // ---- The loop ----

  /** On a quiet host a poll only lengthens the history of polls. */
  lemma QuietPoll(o: Oracle, c: Core)
    requires Quiet(o)
    ensures AfterPoll(o, c) == c.(polls := AfterPoll(o, c).polls)
  {
    hide TakeInterrupt, InterruptsEnabled;
  }

  /** The loop told by the stepper, up to the history of polls. */
  ghost predicate LoopAgrees(s: Slice, t: Slice) {
    Agrees(Forget(s.c), s.status, s.steps, t.(c := Forget(t.c)))
  }

  lemma {:induction false} LoopIsStepping(o: Oracle, d: Debug, c: Core, skip: Option<bv32>, left: nat)
    requires Quiet(o) && c.resume == None && !c.m.halted && left > 0
    ensures LoopAgrees(RunFrom(o, d, Watching(d), c, skip, left),
                       Stepping(o, d, c.(resume := Passed(Watching(d), skip)), left))
    decreases left
  {
    hide RunChunk, Stepping, Watching, AfterPoll, Polled, ChunkAgrees, LoopAgrees;
    var watch := Watching(d);
    var count := Min(Interval(Polled(o, c).delay), left);
    var c0 := AfterPoll(o, c);
    QuietPoll(o, c);
    ChunkIsStepping(o, d, c0, skip, count);
    var r := RunChunk(o, d, watch, c0, skip, count);
    if r.stopped.None? && !r.c.m.halted && left > count {
      NextChunkStarts(o, d, c0, skip, count);
      LoopIsStepping(o, d, r.c, r.skip, left - count);
    }
    LoopStep(o, d, c, skip, left);
  }

  lemma NextChunkStarts(o: Oracle, d: Debug, c: Core, skip: Option<bv32>, n: nat)
    requires ChunkAgrees(o, d, c, skip, n)
    ensures RunChunk(o, d, Watching(d), c, skip, n).stopped.None? ==>
            RunChunk(o, d, Watching(d), c, skip, n).c.resume == None
  {
    hide RunChunk, Stepping, Watching;
  }

  /** The stepper's run of one round, with the slice's history of polls. */
  lemma RoundOfStepping(o: Oracle, d: Debug, c: Core, skip: Option<bv32>, count: nat)
    requires Quiet(o) && c.resume == None
    requires ChunkAgrees(o, d, AfterPoll(o, c), skip, count)
    ensures var r := RunChunk(o, d, Watching(d), AfterPoll(o, c), skip, count);
            var t := Stepping(o, d, c.(resume := Passed(Watching(d), skip)), count);
            && Agrees(r.c, if r.stopped.Some? then r.stopped.value
               else StatusOf(r.c), r.done, t.(c := t.c.(polls := r.c.polls)))
            && (r.stopped.None? ==> r.c.resume == None && Passed(Watching(d), r.skip) == None)
  {
    hide RunChunk, Stepping, Watching, AfterPoll, Passed;
    var c0 := AfterPoll(o, c);
    QuietPoll(o, c);
    var start := c.(resume := Passed(Watching(d), skip));
    SteppingIgnoresPolls(o, d, start, c0.polls, count);
    assert start.(polls := c0.polls) == c0.(resume := Passed(Watching(d), skip));
  }

  /** One round of the outer loop, given the rounds after it. */
  lemma LoopStep(o: Oracle, d: Debug, c: Core, skip: Option<bv32>, left: nat)
    requires Quiet(o) && c.resume == None && !c.m.halted && left > 0
    requires ChunkAgrees(o, d, AfterPoll(o, c), skip, Min(Interval(Polled(o, c).delay), left))
    requires var count := Min(Interval(Polled(o, c).delay), left);
             var r := RunChunk(o, d, Watching(d), AfterPoll(o, c), skip, count);
             r.stopped.None? && !r.c.m.halted && left > count ==>
               LoopAgrees(RunFrom(o, d, Watching(d), r.c, r.skip, left - count),
                          Stepping(o, d, r.c.(resume := Passed(Watching(d), r.skip)), left - count))
    ensures LoopAgrees(RunFrom(o, d, Watching(d), c, skip, left),
                       Stepping(o, d, c.(resume := Passed(Watching(d), skip)), left))
  {
    hide RunChunk, Stepping, Watching, AfterPoll, Polled, Interval, ChunkAgrees;
    var watch := Watching(d);
    var count := Min(Interval(Polled(o, c).delay), left);
    RoundOfStepping(o, d, c, skip, count);
    var r := RunChunk(o, d, watch, AfterPoll(o, c), skip, count);
    var start := c.(resume := Passed(watch, skip));
    var t := Stepping(o, d, start, count);
    SteppingSplits(o, d, start, count, left - count);
    if r.stopped.None? {
      var rest := RunFrom(o, d, watch, r.c, r.skip, left - count);
      assert RunFrom(o, d, watch, c, skip, left) == rest.(steps := r.done + rest.steps);
      if r.c.m.halted {
        assert rest == Slice(r.c, Halted, 0);
      } else {
        assert r.c.(resume := Passed(watch, r.skip)) == r.c;
        SteppingIgnoresPolls(o, d, t.c, r.c.polls, left - count);
        assert t.c.(polls := r.c.polls) == r.c;
        SteppingNone(o, d, r.c);
      }
    }
  }

  lemma SteppingNone(o: Oracle, d: Debug, c: Core)
    ensures Stepping(o, d, c, 0) == Slice(c, Running, 0)
  {
  }

  // ---- The theorems ----

  /**
   * The fast loop refines the simple one. From any machine that is not halted and
   * for every positive budget, a slice ends with the same machine, flags,
   * pending breakpoint, stop reason and retired instructions as calling
   * `StepInstruction` again and again; the step counter is one lower after a trap.
   */
  lemma SliceIsStepping(o: Oracle, d: Debug, c: Core, n: nat)
    requires Quiet(o) && !c.m.halted && n > 0
    ensures var s := RunSlice(o, d, c, n);
            var t := Stepping(o, d, c, n);
            && s.status == t.status
            && s.steps == t.steps
            && Forget(t.c) == Forget(s.c).(stepCounter := s.c.stepCounter + Uncounted(s.status))
  {
    hide RunFrom, Stepping;
    LoopIsStepping(o, d, c.(resume := None), c.resume, n);
    if !Watching(d) {
      SteppingIgnoresResume(o, d, c, n);
    }
    assert c.(resume := None).(resume := c.resume) == c;
  }

  /** A slice and repeated stepping tell the same run. */
  predicate SameRun(s: Slice, t: Slice) {
    && s.status == t.status
    && s.steps == t.steps
    && Forget(t.c) == Forget(s.c).(stepCounter := s.c.stepCounter + Uncounted(s.status))
  }

  /**
   * From any machine, halted or not, a slice and repeated stepping agree unless the
   * machine is halted at a breakpoint it has not reported: the stepper looks at
   * breakpoints first, the loop at the halt.
   */
  lemma AgreeUnlessHaltedAtBreakpoint(o: Oracle, d: Debug, c: Core, n: nat)
    requires Quiet(o) && n > 0
    ensures SameRun(RunSlice(o, d, c, n), Stepping(o, d, c, n)) <==>
            !(c.m.halted && AtBreakpoint(d, c.m.pc, c.resume))
  {
    hide RunSlice, Stepping, AtBreakpoint;
    if c.m.halted {
      HaltedSlice(o, d, c, n);
      HaltedStepping(o, d, c, n);
    } else {
      SliceIsStepping(o, d, c, n);
    }
  }

  lemma HaltedSlice(o: Oracle, d: Debug, c: Core, n: nat)
    requires c.m.halted
    ensures RunSlice(o, d, c, n) == Slice(c.(resume := None), Halted, 0)
  {
  }

  lemma HaltedStepping(o: Oracle, d: Debug, c: Core, n: nat)
    requires c.m.halted && n > 0
    ensures Stepping(o, d, c, n) ==
            if AtBreakpoint(d, c.m.pc, c.resume) then Slice(c.(resume := Some(c.m.pc)), Breakpoint, 0)
            else Slice(c.(resume := None), Halted, 0)
  {
    hide Try, AtBreakpoint;
  }

  /** Such a core: any halted one with an unreported breakpoint at its pc. */
  lemma HaltedAtBreakpointExample(o: Oracle, c: Core, n: nat)
    requires n > 0
    ensures var c0 := c.(m := c.m.(halted := true), resume := None);
            var d := Debug(true, {c.m.pc});
            RunSlice(o, d, c0, n).status == Halted && Stepping(o, d, c0, n).status == Breakpoint
  {
    hide RunSlice, Stepping;
    var c0 := c.(m := c.m.(halted := true), resume := None);
    HaltedSlice(o, Debug(true, {c.m.pc}), c0, n);
    HaltedStepping(o, Debug(true, {c.m.pc}), c0, n);
  }

  /** Without active breakpoints a pending resume has no effect on the next step. */
  lemma SteppingIgnoresResume(o: Oracle, d: Debug, c: Core, n: nat)
    requires !Watching(d) && n > 0
    ensures Stepping(o, d, c, n) == Stepping(o, d, c.(resume := None), n)
  {
    hide Try;
    assert c.(resume := None).(resume := None) == c.(resume := None);
    assert StepInstruction(o, d, c) == StepInstruction(o, d, c.(resume := None));
  }

  lemma {:induction false} SteppingRunsOn(o: Oracle, d: Debug, c: Core, n: nat)
    requires n > 0 && Stepping(o, d, c, n).status == Running
    ensures !Stepping(o, d, c, n).c.m.halted && Stepping(o, d, c, n).c.resume == None
    decreases n
  {
    hide Try;
    TryKeepsResume(o, c.(resume := None));
    if n > 1 {
      SteppingRunsOn(o, d, StepInstruction(o, d, c).c, n - 1);
    }
  }

  lemma {:induction false} ChunkKeepsResume(o: Oracle, d: Debug, watch: bool, c: Core, skip: Option<bv32>, n: nat)
    ensures RunChunk(o, d, watch, c, skip, n).stopped != Some(Breakpoint) ==>
              RunChunk(o, d, watch, c, skip, n).c.resume == c.resume
    decreases n
  {
    hide Try;
    if n == 0 {
      ChunkEnds(o, d, watch, c, skip, 0);
    } else {
      TryKeepsResume(o, c);
      ChunkKeepsResume(o, d, watch, Counted(Try(o, c).c), if watch then None else skip, n - 1);
    }
  }

  lemma {:induction false} LoopKeepsResume(o: Oracle, d: Debug, watch: bool, c: Core, skip: Option<bv32>, left: nat)
    requires RunFrom(o, d, watch, c, skip, left).status == Running
    ensures var s := RunFrom(o, d, watch, c, skip, left); !s.c.m.halted && s.c.resume == c.resume
    decreases left
  {
    hide RunChunk, Polled, Interval, TakeInterrupt, InterruptsEnabled;
    if left == 0 {
      LoopEnds(o, d, watch, c, skip, 0);
    } else {
      var count := Min(Interval(Polled(o, c).delay), left);
      var r := RunChunk(o, d, watch, AfterPoll(o, c), skip, count);
      ChunkKeepsResume(o, d, watch, AfterPoll(o, c), skip, count);
      LoopKeepsResume(o, d, watch, r.c, r.skip, left - count);
    }
  }

  /** On any host, a slice that runs out of budget leaves no pending breakpoint and a machine that still runs. */
  lemma RunningSlice(o: Oracle, d: Debug, c: Core, n: nat)
    requires RunSlice(o, d, c, n).status == Running
    ensures !RunSlice(o, d, c, n).c.m.halted && RunSlice(o, d, c, n).c.resume == None
  {
    hide RunFrom;
    LoopKeepsResume(o, d, Watching(d), c.(resume := None), c.resume, n);
  }

  /**
   * Slicing does not change a run: a slice of `a` that runs out of budget,
   * followed by a slice of `b`, is one slice of `a + b`, whatever the breakpoints
   * and whatever poll delays the host answers.
   */
  lemma SlicesCompose(o: Oracle, d: Debug, c: Core, a: nat, b: nat)
    requires Quiet(o) && !c.m.halted && a > 0 && RunSlice(o, d, c, a).status == Running
    ensures var first := RunSlice(o, d, c, a);
            var second := RunSlice(o, d, first.c, b);
            var whole := RunSlice(o, d, c, a + b);
            && Forget(second.c) == Forget(whole.c)
            && second.status == whole.status
            && first.steps + second.steps == whole.steps
  {
    hide Stepping, RunSlice;
    var first := RunSlice(o, d, c, a);
    SliceIsStepping(o, d, c, a);
    RunningSlice(o, d, c, a);
    if b == 0 {
      assert first.c.(resume := None) == first.c;
      EmptySliceForgetsBreakpoint(o, d, first.c);
    } else {
      var t := Stepping(o, d, c, a);
      SliceIsStepping(o, d, c, a + b);
      SteppingSplits(o, d, c, a, b);
      SliceIsStepping(o, d, first.c, b);
      SteppingIgnoresPolls(o, d, t.c, first.c.polls, b);
      assert t.c.(polls := first.c.polls) == first.c;
    }
  }

  /** A whole session: slices with the given budgets, for as long as they run out of budget. */
  function RunSlices(o: Oracle, d: Debug, c: Core, budgets: seq<nat>): Slice
    requires budgets != []
    decreases |budgets|
  {
    var first := RunSlice(o, d, c, budgets[0]);
    if first.status != Running || |budgets| == 1 then first
    else
      var rest := RunSlices(o, d, first.c, budgets[1..]);
      rest.(steps := first.steps + rest.steps)
  }

  function Total(budgets: seq<nat>): nat {
    if budgets == [] then 0 else budgets[0] + Total(budgets[1..])
  }

  /** Two slices that tell the same run, up to the history of polls. */
  predicate SameSlice(s: Slice, t: Slice) {
    Forget(s.c) == Forget(t.c) && s.status == t.status && s.steps == t.steps
  }

  /** The machine waits at a breakpoint that has been reported and is to be passed. */
  predicate Waiting(d: Debug, c: Core) { d.enabled && c.m.pc in d.breakpoints && c.resume == Some(c.m.pc) }

  /**
   * Any division of a budget into slices gives the run of a single slice, unless it
   * starts with an empty slice, is not empty, and the machine waits at a breakpoint.
   */
  lemma AnySlicingIsOneSlice(o: Oracle, d: Debug, c: Core, budgets: seq<nat>)
    requires Quiet(o) && !c.m.halted && budgets != []
    ensures SameSlice(RunSlices(o, d, c, budgets), RunSlice(o, d, c, Total(budgets))) <==>
            budgets[0] > 0 || Total(budgets) == 0 || !Waiting(d, c)
  {
    hide RunSlice, RunSlices, Waiting;
    var n := Total(budgets);
    if budgets[0] > 0 || n == 0 || !Waiting(d, c) {
      SlicingComposes(o, d, c, budgets);
    } else {
      var c1 := c.(resume := None);
      EmptySliceFirst(o, d, c, budgets);
      NotWaiting(d, c1);
      SlicingComposes(o, d, c1, budgets[1..]);
      EmptySliceMatters(o, d, c, n);
    }
  }

  /** An empty slice in front only discards the pending breakpoint. */
  lemma EmptySliceFirst(o: Oracle, d: Debug, c: Core, budgets: seq<nat>)
    requires !c.m.halted && budgets != [] && budgets[0] == 0
    ensures |budgets| == 1 ==>
              Total(budgets) == 0 && RunSlices(o, d, c, budgets) == Slice(c.(resume := None), Running, 0)
    ensures |budgets| > 1 ==> Total(budgets) == Total(budgets[1..])
    ensures |budgets| > 1 ==> RunSlices(o, d, c, budgets) == RunSlices(o, d, c.(resume := None), budgets[1..])
  {
    hide RunSlice;
    EmptySliceForgetsBreakpoint(o, d, c);
  }

  lemma {:induction false} SlicingComposes(o: Oracle, d: Debug, c: Core, budgets: seq<nat>)
    requires Quiet(o) && !c.m.halted && budgets != []
    requires budgets[0] > 0 || Total(budgets) == 0 || !Waiting(d, c)
    ensures SameSlice(RunSlices(o, d, c, budgets), RunSlice(o, d, c, Total(budgets)))
    decreases |budgets|
  {
    hide RunSlice, Waiting;
    var n := Total(budgets);
    if budgets[0] == 0 {
      EmptySliceFirst(o, d, c, budgets);
      EmptySliceForgetsBreakpoint(o, d, c);
      if |budgets| > 1 {
        var c1 := c.(resume := None);
        NotWaiting(d, c1);
        SlicingComposes(o, d, c1, budgets[1..]);
        EmptySliceForgetsBreakpoint(o, d, c1);
        if n > 0 {
          EmptySliceMatters(o, d, c, n);
        }
      }
    } else {
      var first := RunSlice(o, d, c, budgets[0]);
      var more := Total(budgets[1..]);
      if first.status != Running {
        EarlyStop(o, d, c, budgets[0], more);
      } else if |budgets| > 1 {
        RunningSlice(o, d, c, budgets[0]);
        NotWaiting(d, first.c);
        SlicingComposes(o, d, first.c, budgets[1..]);
        SlicesCompose(o, d, c, budgets[0], more);
      }
    }
  }

  lemma NotWaiting(d: Debug, c: Core)
    requires c.resume == None
    ensures !Waiting(d, c)
  {
  }

  /** A slice that stops before its budget is spent does not notice a larger budget. */
  lemma EarlyStop(o: Oracle, d: Debug, c: Core, a: nat, b: nat)
    requires Quiet(o) && !c.m.halted && a > 0 && RunSlice(o, d, c, a).status != Running
    ensures var short := RunSlice(o, d, c, a);
            var long := RunSlice(o, d, c, a + b);
            Forget(short.c) == Forget(long.c) && short.status == long.status && short.steps == long.steps
  {
    hide RunSlice, Stepping;
    SliceIsStepping(o, d, c, a);
    SliceIsStepping(o, d, c, a + b);
    SteppingSplits(o, d, c, a, b);
  }

  lemma EmptySliceForgetsBreakpoint(o: Oracle, d: Debug, c: Core)
    requires !c.m.halted
    ensures RunSlice(o, d, c, 0) == Slice(c.(resume := None), Running, 0)
  {
  }

  /** The first turn of a slice: where it looks for a breakpoint, and what it does there. */
  lemma FirstTurn(o: Oracle, d: Debug, c: Core, n: nat)
    requires !c.m.halted && n > 0
    ensures var c0 := AfterPoll(o, c.(resume := None));
            var s := RunSlice(o, d, c, n);
            if AtBreakpoint(d, c0.m.pc, c.resume) then s == Slice(c0.(resume := Some(c0.m.pc)), Breakpoint, 0)
            else s.steps > 0 || s.status == Trapped
  {
    hide Try, RunChunk, RunFrom, Polled, Interval, TakeInterrupt, InterruptsEnabled;
    var c1 := c.(resume := None);
    var c0 := AfterPoll(o, c1);
    var count := Min(Interval(Polled(o, c1).delay), n);
    LoopTurns(o, d, Watching(d), c1, c.resume, n);
    PollKeepsRunning(o, c1);
    ChunkEnds(o, d, Watching(d), c0, c.resume, count);
    if !AtBreakpoint(d, c0.m.pc, c.resume) {
      ChunkTurns(o, d, Watching(d), c0, c.resume, count);
    }
  }

  lemma PollKeepsRunning(o: Oracle, c: Core)
    ensures AfterPoll(o, c).m.halted == c.m.halted && AfterPoll(o, c).resume == c.resume
  {
    hide InterruptsEnabled, Polled;
  }

  /**
   * When an empty slice matters. On any host, an empty slice followed by a slice of
   * `n` is a slice of `n`, exactly, unless the machine runs and the poll leaves it
   * at the breakpoint that was to be passed.
   */
  lemma EmptySliceMattersExactly(o: Oracle, d: Debug, c: Core, n: nat)
    requires n > 0
    ensures var p := AfterPoll(o, c.(resume := None)).m.pc;
            RunSlice(o, d, RunSlice(o, d, c, 0).c, n) == RunSlice(o, d, c, n) <==>
            c.m.halted || !(d.enabled && p in d.breakpoints && c.resume == Some(p))
  {
    hide RunSlice, AfterPoll;
    var c1 := c.(resume := None);
    if c.m.halted {
      HaltedSlice(o, d, c, 0);
      HaltedSlice(o, d, c, n);
      HaltedSlice(o, d, c1, n);
    } else {
      EmptySliceForgetsBreakpoint(o, d, c);
      FirstTurn(o, d, c, n);
      FirstTurn(o, d, c1, n);
      assert c1.(resume := None) == c1;
      var p := AfterPoll(o, c1).m.pc;
      if !(d.enabled && p in d.breakpoints && c.resume == Some(p)) {
        SkipElsewhere(o, d, c, n);
      }
    }
  }

  /** A pending breakpoint at another address has no effect. */
  lemma SkipElsewhere(o: Oracle, d: Debug, c: Core, n: nat)
    requires !c.m.halted && n > 0
    requires var p := AfterPoll(o, c.(resume := None)).m.pc; !(d.enabled && p in d.breakpoints && c.resume == Some(p))
    ensures RunSlice(o, d, c.(resume := None), n) == RunSlice(o, d, c, n)
  {
    hide RunChunk, RunFrom, Polled, Interval, AfterPoll;
    var c1 := c.(resume := None);
    var c0 := AfterPoll(o, c1);
    assert c1.(resume := None) == c1;
    var count := Min(Interval(Polled(o, c1).delay), n);
    LoopTurns(o, d, Watching(d), c1, c.resume, n);
    LoopTurns(o, d, Watching(d), c1, None, n);
    if Watching(d) {
      ChunkSkipsElsewhere(o, d, c0, c.resume, count);
    } else {
      ChunkIgnoresSkip(o, d, c0, c.resume, None, count);
      var r := RunChunk(o, d, false, c0, c.resume, count);
      LoopIgnoresSkip(o, d, r.c, r.skip, RunChunk(o, d, false, c0, None, count).skip, n - count);
    }
  }

  lemma ChunkSkipsElsewhere(o: Oracle, d: Debug, c: Core, skip: Option<bv32>, n: nat)
    requires n > 0 && !(c.m.pc in d.breakpoints && skip == Some(c.m.pc))
    ensures var r, r' := RunChunk(o, d, true, c, skip, n), RunChunk(o, d, true, c, None, n);
            r.(skip := r'.skip) == r' && (r.stopped.None? ==> r == r')
  {
    hide Try;
  }

  /** Without active breakpoints, the address to pass is never looked at. */
  lemma {:induction false} ChunkIgnoresSkip(o: Oracle, d: Debug, c: Core, x: Option<bv32>, y: Option<bv32>, n: nat)
    ensures RunChunk(o, d, false, c, y, n) == RunChunk(o, d, false, c, x, n).(skip := y)
    decreases n
  {
    hide Try;
    if n == 0 {
      ChunkEnds(o, d, false, c, x, 0);
    } else {
      ChunkIgnoresSkip(o, d, Counted(Try(o, c).c), x, y, n - 1);
    }
  }

  lemma {:induction false} LoopIgnoresSkip(o: Oracle, d: Debug, c: Core, x: Option<bv32>, y: Option<bv32>, left: nat)
    ensures RunFrom(o, d, false, c, x, left) == RunFrom(o, d, false, c, y, left)
    decreases left
  {
    hide RunChunk, AfterPoll, Polled, Interval;
    if c.m.halted || left == 0 {
      LoopEnds(o, d, false, c, x, left);
      LoopEnds(o, d, false, c, y, left);
    } else {
      var count := Min(Interval(Polled(o, c).delay), left);
      ChunkIgnoresSkip(o, d, AfterPoll(o, c), x, y, count);
      var r, r' := RunChunk(o, d, false, AfterPoll(o, c), x, count), RunChunk(o, d, false, AfterPoll(o, c), y, count);
      LoopIgnoresSkip(o, d, r.c, r.skip, r'.skip, left - count);
    }
  }

  /** On a quiet host that is a condition on the machine alone. */
  lemma EmptySliceMatters(o: Oracle, d: Debug, c: Core, n: nat)
    requires Quiet(o) && !c.m.halted && n > 0
    ensures var s, t := RunSlice(o, d, c.(resume := None), n), RunSlice(o, d, c, n);
            && (s == t <==> !Waiting(d, c))
            && (SameSlice(s, t) <==> !Waiting(d, c))
  {
    hide RunSlice, AfterPoll;
    var c1 := c.(resume := None);
    QuietPoll(o, c1);
    assert AfterPoll(o, c1).m == c.m;
    EmptySliceForgetsBreakpoint(o, d, c);
    EmptySliceMattersExactly(o, d, c, n);
    FirstTurn(o, d, c, n);
    FirstTurn(o, d, c1, n);
    assert c1.(resume := None) == c1;
  }

  // ---- On a host that does interrupt ----

  /** A budget that the poll intervals of the run use up exactly. */
  predicate OnPollBoundary(o: Oracle, d: Debug, watch: bool, c: Core, skip: Option<bv32>, left: nat)
    decreases left
  {
    c.m.halted || left == 0 ||
    var interval := Interval(Polled(o, c).delay);
    interval <= left &&
    var r := RunChunk(o, d, watch, AfterPoll(o, c), skip, interval);
    r.stopped.Some? || OnPollBoundary(o, d, watch, r.c, r.skip, left - interval)
  }

  lemma {:induction false} LoopSplits(o: Oracle, d: Debug, watch: bool, c: Core, skip: Option<bv32>, a: nat, b: nat)
    requires a > 0 && OnPollBoundary(o, d, watch, c, skip, a) && RunFrom(o, d, watch, c, skip, a).status == Running
    ensures var first := RunFrom(o, d, watch, c, skip, a);
            var second := RunFrom(o, d, watch, first.c, None, b);
            RunFrom(o, d, watch, c, skip, a + b) == second.(steps := first.steps + second.steps)
    decreases a
  {
    hide RunChunk, AfterPoll, Polled, Interval, RunFrom;
    LoopEnds(o, d, watch, c, skip, a);
    LoopTurns(o, d, watch, c, skip, a);
    LoopTurns(o, d, watch, c, skip, a + b);
    var interval := Interval(Polled(o, c).delay);
    var r := RunChunk(o, d, watch, AfterPoll(o, c), skip, interval);
    ChunkPasses(o, d, watch, AfterPoll(o, c), skip, interval);
    if a == interval {
      LoopEnds(o, d, watch, r.c, r.skip, 0);
      if !watch {
        LoopIgnoresSkip(o, d, r.c, r.skip, None, b);
      }
    } else {
      LoopSplits(o, d, watch, r.c, r.skip, a - interval, b);
      assert a + b - interval == (a - interval) + b;
    }
  }

  lemma {:induction false} ChunkPasses(o: Oracle, d: Debug, watch: bool, c: Core, skip: Option<bv32>, n: nat)
    requires n > 0
    ensures var r := RunChunk(o, d, watch, c, skip, n); r.stopped.None? && watch ==> r.skip == None
    decreases n
  {
    hide Try;
    if n > 1 && Try(o, c).Retired? {
      ChunkPasses(o, d, watch, Counted(Try(o, c).c), if watch then None else skip, n - 1);
    }
  }

  /**
   * On any host, interrupts included, a slice that runs out of budget where a poll
   * is due anyway composes exactly: same machine, log and history of polls as one
   * slice of the sum.
   */
  lemma SlicesComposeOnPollBoundary(o: Oracle, d: Debug, c: Core, a: nat, b: nat)
    requires a > 0 && RunSlice(o, d, c, a).status == Running
    requires OnPollBoundary(o, d, Watching(d), c.(resume := None), c.resume, a)
    ensures var first := RunSlice(o, d, c, a);
            var second := RunSlice(o, d, first.c, b);
            RunSlice(o, d, c, a + b) == second.(steps := first.steps + second.steps)
  {
    hide RunFrom, OnPollBoundary;
    RunningSlice(o, d, c, a);
    var first := RunSlice(o, d, c, a);
    assert first.c.(resume := None) == first.c;
    LoopSplits(o, d, Watching(d), c.(resume := None), c.resume, a, b);
  }
}
