/**
 * Breakpoints are neither overrun nor able to stall a session, even when
 * interrupts arrive between slices.
 */
module Breakpoints {
  import opened Wrappers
  import opened HostImports
  import opened Machine
  import opened Steps
  import opened Interrupts
  import opened RunLoop
  import opened Runs
  import opened Reachable

  /**
   * A log respects the breakpoints: an instruction at a breakpoint address is
   * executed only as the first one, and only at the address `passed`.
   */
  predicate Respects(acts: seq<Action>, breakpoints: set<bv32>, passed: Option<bv32>)
    decreases |acts|
  {
    if acts == [] then true
    else if acts[0].Interrupted? then Respects(acts[1..], breakpoints, passed)
    else (acts[0].pc in breakpoints ==> passed == Some(acts[0].pc)) && Respects(acts[1..], breakpoints, None)
  }

  lemma {:induction false} RespectsAppend(xs: seq<Action>, ys: seq<Action>, b: set<bv32>, passed: Option<bv32>)
    requires Respects(xs, b, passed)
    requires Respects(ys, b, if forall i :: 0 <= i < |xs| ==> xs[i].Interrupted? then passed else None)
    ensures Respects(xs + ys, b, passed)
    decreases |xs|
  {
    if xs == [] {
      assert xs + ys == ys;
    } else {
      assert (xs + ys)[0] == xs[0] && (xs + ys)[1..] == xs[1..] + ys;
      if xs[0].Interrupted? {
        assert (forall i :: 0 <= i < |xs[1..]| ==> xs[1..][i].Interrupted?) ==> forall i :: 0 <= i < |xs| ==>
            xs[i].Interrupted? by {
          if forall i :: 0 <= i < |xs[1..]| ==> xs[1..][i].Interrupted? {
            forall i | 0 <= i < |xs| ensures xs[i].Interrupted? {
              if i > 0 { assert xs[i] == xs[1..][i - 1]; }
            }
          }
        }
        RespectsAppend(xs[1..], ys, b, passed);
      } else {
        RespectsAppend(xs[1..], ys, b, None);
      }
    }
  }

  /** The part of the log between two states respects the breakpoints. */
  predicate RespectsSince(c: Core, c': Core, b: set<bv32>, passed: Option<bv32>) {
    c.log <= c'.log && Respects(c'.log[|c.log|..], b, passed)
  }

  lemma SinceSame(c: Core, c': Core, b: set<bv32>, passed: Option<bv32>)
    requires c'.log == c.log
    ensures RespectsSince(c, c', b, passed)
  {
    assert c'.log[|c.log|..] == [];
  }

  /** One instruction, then the rest of the run with nothing left to pass. */
  lemma SinceExecuted(c: Core, c1: Core, c': Core, b: set<bv32>, passed: Option<bv32>)
    requires c1.log == c.log + [Executed(c.m.pc)] && (c.m.pc in b ==> passed == Some(c.m.pc))
    requires RespectsSince(c1, c', b, None)
    ensures RespectsSince(c, c', b, passed)
  {
    var acts := c'.log[|c.log|..];
    assert acts[0] == Executed(c.m.pc) && acts[1..] == c'.log[|c1.log|..];
  }

  lemma SinceInterrupted(c: Core, c1: Core, c': Core, irq: bv32, b: set<bv32>, passed: Option<bv32>)
    requires c1.log == c.log + [Interrupted(irq)] && RespectsSince(c1, c', b, passed)
    ensures RespectsSince(c, c', b, passed)
  {
    var acts := c'.log[|c.log|..];
    assert acts[0] == Interrupted(irq) && acts[1..] == c'.log[|c1.log|..];
  }

  /** Once an instruction has been executed, nothing is left to pass. */
  lemma SinceTransitive(c: Core, c1: Core, c': Core, b: set<bv32>, passed: Option<bv32>)
    requires RespectsSince(c, c1, b, passed) && RespectsSince(c1, c', b, None)
    ensures RespectsSince(c, c', b, passed)
  {
    hide Respects;
    var xs, ys := c1.log[|c.log|..], c'.log[|c1.log|..];
    assert c'.log[|c.log|..] == xs + ys;
    RespectsAny(ys, b, passed);
    RespectsAppend(xs, ys, b, passed);
  }

  /** A log that passes no breakpoint respects them whatever may be passed. */
  lemma {:induction false} RespectsAny(acts: seq<Action>, b: set<bv32>, passed: Option<bv32>)
    requires Respects(acts, b, None)
    ensures Respects(acts, b, passed)
    decreases |acts|
  {
    if acts != [] && acts[0].Interrupted? {
      RespectsAny(acts[1..], b, passed);
    }
  }

  lemma {:induction false} ChunkRespects(o: Oracle, d: Debug, c: Core, skip: Option<bv32>, n: nat)
    ensures var r := RunChunk(o, d, true, c, skip, n);
            && RespectsSince(c, r.c, d.breakpoints, skip)
            && (n > 0 && r.stopped.None? ==> r.skip == None)
    decreases n
  {
    hide FetchExecute, RespectsSince;
    var r := RunChunk(o, d, true, c, skip, n);
    if n == 0 || c.m.halted || (c.m.pc in d.breakpoints && skip != Some(c.m.pc)) {
      SinceSame(c, r.c, d.breakpoints, skip);
    } else if Try(o, c).Faulted? {
      SinceSame(r.c, r.c, d.breakpoints, None);
      SinceExecuted(c, r.c, r.c, d.breakpoints, skip);
    } else {
      var c1 := Counted(Try(o, c).c);
      ChunkRespects(o, d, c1, None, n - 1);
      SinceExecuted(c, c1, r.c, d.breakpoints, skip);
    }
  }

  lemma {:induction false} LoopRespects(o: Oracle, d: Debug, c: Core, skip: Option<bv32>, left: nat)
    ensures RespectsSince(c, RunFrom(o, d, true, c, skip, left).c, d.breakpoints, skip)
    decreases left
  {
    hide RunChunk, Polled, Interval, TakeInterrupt, InterruptsEnabled, RespectsSince;
    if c.m.halted || left == 0 {
      SinceSame(c, c, d.breakpoints, skip);
    } else {
      var count := Min(Interval(Polled(o, c).delay), left);
      var c0 := AfterPoll(o, c);
      var r := RunChunk(o, d, true, c0, skip, count);
      var end := RunFrom(o, d, true, c, skip, left).c;
      ChunkRespects(o, d, c0, skip, count);
      if r.stopped.None? {
        LoopRespects(o, d, r.c, None, left - count);
        SinceTransitive(c0, r.c, end, d.breakpoints, skip);
      }
      if c0.log == c.log {
        SinceSameLog(c, c0, end, d.breakpoints, skip);
      } else {
        SinceInterrupted(c, c0, end, Polled(o, c).irq, d.breakpoints, skip);
      }
    }
  }

  lemma SinceSameLog(c: Core, c0: Core, c': Core, b: set<bv32>, passed: Option<bv32>)
    requires c0.log == c.log && RespectsSince(c0, c', b, passed)
    ensures RespectsSince(c, c', b, passed)
  {
  }

  /**
   * Breakpoint safety: with debugging on, no slice executes an instruction at a
   * breakpoint address except possibly its first one, at the address already reported.
   */
  lemma SliceRespectsBreakpoints(o: Oracle, d: Debug, c: Core, n: nat)
    requires d.enabled
    ensures RespectsSince(c, RunSlice(o, d, c, n).c, d.breakpoints, c.resume)
  {
    hide RunFrom, RespectsSince, Continues;
    var c0 := c.(resume := None);
    if d.breakpoints != {} {
      LoopRespects(o, d, c0, c.resume, n);
      SinceSameLog(c, c0, RunSlice(o, d, c, n).c, d.breakpoints, c.resume);
    } else {
      SliceReplays(o, d, c, n);
      NothingToRespect(o, d, c, RunSlice(o, d, c, n).c);
    }
  }

  lemma NothingToRespect(o: Oracle, d: Debug, c: Core, c': Core)
    requires d.breakpoints == {} && Continues(o, c, c')
    ensures RespectsSince(c, c', d.breakpoints, c.resume)
  {
    hide IsRun, Replay;
    NoBreakpoints(c'.log[|c.log|..], c.resume);
  }

  lemma {:induction false} NoBreakpoints(acts: seq<Action>, passed: Option<bv32>)
    ensures Respects(acts, {}, passed)
    decreases |acts|
  {
    if acts == [] {
    } else {
      NoBreakpoints(acts[1..], if acts[0].Interrupted? then passed else None);
    }
  }

  /** What `Respects` says of a single instruction of the log. */
  lemma {:induction false} RespectsAt(acts: seq<Action>, b: set<bv32>, passed: Option<bv32>, k: nat)
    requires Respects(acts, b, passed) && k < |acts| && acts[k].Executed? && acts[k].pc in b
    ensures passed == Some(acts[k].pc)
    ensures forall i :: 0 <= i < k ==> acts[i].Interrupted?
    decreases |acts|
  {
    if k == 0 {
    } else {
      RespectsAt(acts[1..], b, if acts[0].Interrupted? then passed else None, k - 1);
      forall i | 0 <= i < k ensures acts[i].Interrupted? {
        if i > 0 {
          assert acts[i] == acts[1..][i - 1];
        }
      }
    }
  }

  // ---- Progress ----

  /** A slice that reports a breakpoint without retiring anything was stopped by its first check. */
  lemma StalledSlice(o: Oracle, d: Debug, c: Core, n: nat)
    requires n > 0 && !c.m.halted
    requires RunSlice(o, d, c, n).status == Breakpoint && RunSlice(o, d, c, n).steps == 0
    ensures var first := AfterPoll(o, c.(resume := None)).m;
            && RunSlice(o, d, c, n).c.m == first
            && c.resume != Some(first.pc)
  {
    hide FetchExecute, TakeInterrupt, InterruptsEnabled, Polled, Interval;
    var c0 := AfterPoll(o, c.(resume := None));
    var count := Min(Interval(Polled(o, c.(resume := None)).delay), n);
    var r := RunChunk(o, d, Watching(d), c0, c.resume, count);
  }

  /**
   * Progress: two consecutive slices with a positive budget never report the same
   * breakpoint address without an instruction retired in between, even if an
   * interrupt arrives between them.
   */
  lemma BreakpointNotReportedTwice(o: Oracle, d: Debug, c: Core, a: nat, b: nat)
    requires b > 0
    requires RunSlice(o, d, c, a).status == Breakpoint
    requires RunSlice(o, d, RunSlice(o, d, c, a).c, b).status == Breakpoint
    requires RunSlice(o, d, RunSlice(o, d, c, a).c, b).steps == 0
    ensures RunSlice(o, d, RunSlice(o, d, c, a).c, b).c.m.pc != RunSlice(o, d, c, a).c.m.pc
  {
    hide RunSlice, AfterPoll;
    var first := RunSlice(o, d, c, a);
    SliceAccounting(o, d, c, a);
    StalledSlice(o, d, first.c, b);
  }

  /**
   * Nor can breakpoints stall a session: if a second slice in a row retires
   * nothing, an interrupt has been taken and further ones are masked, so the slice
   * after it executes an instruction.
   */
  lemma NoThirdStall(o: Oracle, d: Debug, c1: Core, b: nat, e: nat)
    requires b > 0 && e > 0 && !c1.m.halted && c1.resume == Some(c1.m.pc)
    requires RunSlice(o, d, c1, b).status == Breakpoint && RunSlice(o, d, c1, b).steps == 0
    ensures var c2 := RunSlice(o, d, c1, b).c;
            var third := RunSlice(o, d, c2, e);
            third.steps > 0 || third.status == Trapped
  {
    hide RunSlice, FetchExecute, TakeInterrupt, InterruptsEnabled, Polled;
    StalledSlice(o, d, c1, b);
    SliceAccounting(o, d, c1, b);
    var c2 := RunSlice(o, d, c1, b).c;
    EntryMasks(c1.m, Polled(o, c1.(resume := None)).irq);
    assert !InterruptsEnabled(c2.m);
    SliceAccounting(o, d, c2, e);
    var third := RunSlice(o, d, c2, e);
    assert AfterPoll(o, c2.(resume := None)).m == c2.m;
    SliceMakesProgress(o, d, c2, e);
  }

  /** A positive slice retires an instruction, traps, or reports a breakpoint at once. */
  lemma SliceMakesProgress(o: Oracle, d: Debug, c: Core, n: nat)
    requires n > 0 && !c.m.halted
    ensures var s := RunSlice(o, d, c, n);
            s.steps > 0 || s.status == Trapped || (s.status == Breakpoint
                && c.resume != Some(AfterPoll(o, c.(resume := None)).m.pc))
  {
    hide FetchExecute, TakeInterrupt, InterruptsEnabled, Polled, Interval;
    EntryKeepsRunning(c.m, Polled(o, c.(resume := None)).irq);
    var c0 := AfterPoll(o, c.(resume := None));
    assert !c0.m.halted;
    var count := Min(Interval(Polled(o, c.(resume := None)).delay), n);
    var r := RunChunk(o, d, Watching(d), c0, c.resume, count);
  }

  lemma EntryKeepsRunning(m: Machine, irq: bv32)
    ensures TakeInterrupt(m, irq).halted == m.halted
  {
    hide Entered, GetCsr, TakeInterrupt;
    EntrySaves(m, irq);
  }
}
