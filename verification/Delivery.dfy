/**
 * Every interrupt is delivered. The schedule of a slice is stated on its log, the
 * machine and the host's answers alone: when the host is polled, which poll
 * delivers, and how many instructions run before the next one. The log of every
 * slice follows that schedule, on any host.
 */
module Delivery {
  import opened Wrappers
  import opened HostImports
  import opened Machine
  import opened Steps
  import opened Interrupts
  import opened RunLoop
  import opened Runs

  /** Bit 3 of `mstatus`, at CSR 0x300. */
  predicate Receptive(m: Machine) { m.csrs[0x300] & 0x8 != 0 }

  /** Instructions between two polls: the delay as a 64-bit unsigned number, or 1000 for zero. */
  function Cadence(delay: I32): (k: nat)
    ensures k > 0
  {
    var u := delay % 0x1_0000_0000_0000_0000;
    if u == 0 then 1000 else u
  }

  /** What `c'` has added to the log of `c`. */
  function Added(c: Core, c': Core): seq<Action> {
    if |c.log| <= |c'.log| then c'.log[|c.log|..] else []
  }

  predicate AllExecuted(acts: seq<Action>) { forall i :: 0 <= i < |acts| ==> acts[i].Executed? }

  /** A slice has a reason to stop here: a halt, or an active breakpoint at the pc. */
  predicate MayStop(d: Debug, m: Machine) { m.halted || (d.enabled && m.pc in d.breakpoints) }

  /**
   * The schedule from a point where a poll is due, with `left` instructions of
   * budget. The host answers `p`; if it has an interrupt and the guest receives
   * interrupts, that interrupt is the next action, and otherwise it is not. Then as
   * many instructions run as the answer allows, unless the slice stops, and the
   * host is polled again. `polls` and `polls'` are the history before and after.
   */
  ghost predicate Follows(o: Oracle, d: Debug, m: Machine, polls: seq<bool>, acts: seq<Action>, left: nat,
                          polls': seq<bool>)
    decreases left
  {
    if m.halted || left == 0 then acts == [] && polls' == polls
    else
      var p := o.poll(m.st.events, polls);
      var asked := p.enabled && Receptive(m);
      if asked && p.irq != 0 then
        && acts != [] && acts[0] == Interrupted(p.irq)
        && RunsOn(o, d, TakeInterrupt(m, p.irq), polls + [asked], acts[1..], Min(Cadence(p.delay), left), left, polls')
      else
        RunsOn(o, d, m, polls + [asked], acts, Min(Cadence(p.delay), left), left, polls')
  }

  /** `k` instructions and the rest of the schedule, or fewer and a reason to stop. */
  ghost predicate RunsOn(o: Oracle, d: Debug, m: Machine, polls: seq<bool>, acts: seq<Action>, k: nat, left: nat,
                         polls': seq<bool>)
    requires 0 < k <= left
    decreases left, 0
  {
    if |acts| < k then AllExecuted(acts) && MayStop(d, Replay(o, m, acts)) && polls' == polls
    else AllExecuted(acts[..k]) && Follows(o, d, Replay(o, m, acts[..k]), polls, acts[k..], left - k, polls')
  }

  lemma CadenceIsInterval(delay: I32)
    ensures Interval(delay) == Cadence(delay)
  {
  }

  lemma ReceptiveIsEnabled(m: Machine)
    ensures Receptive(m) <==> InterruptsEnabled(m)
  {
    assert MSTATUS as int == 0x300;
  }

  // ---- The inner loop ----

  /** What a chunk adds to the log: instructions only, as many as it says. */
  lemma {:induction false} ChunkLog(o: Oracle, d: Debug, watch: bool, c: Core, skip: Option<bv32>, n: nat)
    ensures var r := RunChunk(o, d, watch, c, skip, n);
            && c.log <= r.c.log && AllExecuted(r.c.log[|c.log|..]) && r.c.polls == c.polls
            && |r.c.log| == |c.log| + r.done + (if r.stopped == Some(Trapped) then 1 else 0)
            && (r.stopped == Some(Halted) || r.stopped == Some(Trapped) ==> r.c.m.halted)
            && (r.stopped == Some(Breakpoint) ==> watch && r.c.m.pc in d.breakpoints)
            && (if r.stopped.Some? then r.done < n && r.stopped != Some(Running) else r.done == n)
    decreases n
  {
    hide FetchExecute, Notified;
    if n == 0 {
    } else if !c.m.halted && !(watch && c.m.pc in d.breakpoints && skip != Some(c.m.pc)) && Try(o, c).Retired? {
      var c1 := Counted(Try(o, c).c);
      ChunkLog(o, d, watch, c1, if watch then None else skip, n - 1);
      LogGrows(c, c1, RunChunk(o, d, watch, c, skip, n).c);
    }
  }

  lemma LogGrows(c: Core, c1: Core, c': Core)
    requires c1.log == c.log + [Executed(c.m.pc)] && c1.log <= c'.log && AllExecuted(c'.log[|c1.log|..])
    ensures c.log <= c'.log && AllExecuted(c'.log[|c.log|..])
  {
    assert c'.log[|c.log|..] == [Executed(c.m.pc)] + c'.log[|c1.log|..];
  }

  // ---- The outer loop ----

  lemma {:induction false} LoopFollows(o: Oracle, d: Debug, c: Core, skip: Option<bv32>, left: nat)
    ensures var s := RunFrom(o, d, Watching(d), c, skip, left);
            && c.log <= s.c.log
            && Follows(o, d, c.m, c.polls, s.c.log[|c.log|..], left, s.c.polls)
    decreases left
  {
    hide RunChunk, AfterPoll, Polled, Interval, Follows, Watching, RunFrom;
    var watch := Watching(d);
    var s := RunFrom(o, d, watch, c, skip, left);
    if c.m.halted || left == 0 {
      LoopEnds(o, d, watch, c, skip, left);
      NothingFollows(o, d, c.m, c.polls, s.c.log[|c.log|..], left);
    } else {
      LoopTurns(o, d, watch, c, skip, left);
      var k := Min(Interval(Polled(o, c).delay), left);
      var r := RunChunk(o, d, watch, AfterPoll(o, c), skip, k);
      ChunkLog(o, d, watch, AfterPoll(o, c), skip, k);
      if r.stopped.None? {
        LoopFollows(o, d, r.c, r.skip, left - k);
      }
      RoundFollows(o, d, AfterPoll(o, c), skip, k, left, s.c);
      PollDelivers(o, d, c, left, s.c);
    }
  }

  lemma NothingFollows(o: Oracle, d: Debug, m: Machine, polls: seq<bool>, acts: seq<Action>, left: nat)
    requires (m.halted || left == 0) && acts == []
    ensures Follows(o, d, m, polls, acts, left, polls)
  {
  }

  /** A chunk of the loop is a round of the schedule. */
  lemma RoundFollows(o: Oracle, d: Debug, c: Core, skip: Option<bv32>, k: nat, left: nat, end: Core)
    requires 0 < k <= left
    requires var r := RunChunk(o, d, Watching(d), c, skip, k);
             if r.stopped.Some? then end == r.c
             else r.c.log <= end.log && Follows(o, d, r.c.m, r.c.polls, end.log[|r.c.log|..], left - k, end.polls)
    ensures c.log <= end.log && RunsOn(o, d, c.m, c.polls, end.log[|c.log|..], k, left, end.polls)
  {
    hide RunChunk, Follows, Replay, IsRun, Watching;
    var r := RunChunk(o, d, Watching(d), c, skip, k);
    ChunkLog(o, d, Watching(d), c, skip, k);
    ChunkContinues(o, d, Watching(d), c, skip, k);
    var acts := end.log[|c.log|..];
    var here := r.c.log[|c.log|..];
    if |here| < k {
      assert acts == here;
      WatchingIsEnabled(d);
      assert Replay(o, c.m, acts) == r.c.m;
      match r.stopped.value {
        case Running =>
        case Halted =>
        case Trapped =>
        case Breakpoint =>
      }
    } else {
      assert acts[..k] == here && acts[k..] == end.log[|r.c.log|..];
      if r.stopped.Some? {
        NothingFollows(o, d, r.c.m, r.c.polls, acts[k..], left - k);
      }
    }
  }

  lemma WatchingIsEnabled(d: Debug)
    ensures Watching(d) ==> d.enabled
  {
  }

  /** A poll of the loop is a poll of the schedule. */
  lemma PollDelivers(o: Oracle, d: Debug, c: Core, left: nat, end: Core)
    requires !c.m.halted && left > 0
    requires var c0 := AfterPoll(o, c);
             && c0.log <= end.log
             && RunsOn(o, d, c0.m, c0.polls, end.log[|c0.log|..], Min(Interval(Polled(o, c).delay), left), left,
                end.polls)
    ensures c.log <= end.log && Follows(o, d, c.m, c.polls, end.log[|c.log|..], left, end.polls)
  {
    hide RunsOn, Interval, Cadence, Receptive, InterruptsEnabled, TakeInterrupt;
    ReceptiveIsEnabled(c.m);
    var p := Polled(o, c);
    CadenceIsInterval(p.delay);
    var c0 := AfterPoll(o, c);
    var acts := end.log[|c.log|..];
    if p.enabled && InterruptsEnabled(c.m) && p.irq != 0 {
      assert acts[0] == c0.log[|c.log|] == Interrupted(p.irq);
      assert acts[1..] == end.log[|c0.log|..];
    } else {
      assert acts == end.log[|c0.log|..];
    }
  }

  // ---- The theorems ----

  /**
   * Every slice follows the schedule, on any host: each poll at which the host has
   * an interrupt for a receptive guest delivers it there and then, no interrupt is
   * delivered anywhere else, and polls come as often as the host's answers ask.
   */
  lemma SliceDelivers(o: Oracle, d: Debug, c: Core, n: nat)
    ensures var s := RunSlice(o, d, c, n);
            && c.log <= s.c.log
            && Follows(o, d, c.m, c.polls, s.c.log[|c.log|..], n, s.c.polls)
  {
    hide RunFrom, Follows, Watching;
    LoopFollows(o, d, c.(resume := None), c.resume, n);
  }

  /** So the first thing a slice does is take the interrupt, if and only if there is one for a receptive guest. */
  lemma FirstPollDelivers(o: Oracle, d: Debug, c: Core, n: nat)
    requires !c.m.halted && n > 0
    ensures var p := o.poll(c.m.st.events, c.polls);
            var acts := Added(c, RunSlice(o, d, c, n).c);
            && (p.enabled && c.m.csrs[0x300] & 0x8 != 0 && p.irq != 0 <==> acts != [] && acts[0] == Interrupted(p.irq))
            && (acts != [] && acts[0].Interrupted? ==> acts[0] == Interrupted(p.irq))
  {
    hide RunSlice;
    SliceDelivers(o, d, c, n);
    var p := o.poll(c.m.st.events, c.polls);
    var acts := Added(c, RunSlice(o, d, c, n).c);
    if acts != [] && !(p.enabled && Receptive(c.m) && p.irq != 0) {
      FirstIsExecuted(o, d, c.m, c.polls + [p.enabled && Receptive(c.m)], acts, Min(Cadence(p.delay), n), n,
                      RunSlice(o, d, c, n).c.polls);
    }
  }

  lemma FirstIsExecuted(o: Oracle, d: Debug, m: Machine, polls: seq<bool>, acts: seq<Action>, k: nat, left: nat,
                        polls': seq<bool>)
    requires 0 < k <= left && acts != [] && RunsOn(o, d, m, polls, acts, k, left, polls')
    ensures acts[0].Executed?
  {
    hide Follows, Replay;
    if |acts| >= k {
      assert acts[0] == acts[..k][0];
    }
  }

  /**
   * A poll that delivers: the machine at the start of the handler, on a host with
   * interrupt 11 and a handler at 0x100.
   */
  lemma DeliveryExample(o: Oracle, d: Debug, c: Core)
    requires !c.m.halted && o.poll(c.m.st.events, c.polls) == Poll(100, true, 11)
    requires c.m.csrs[0x300] == 8 && c.m.csrs[0x305] == 0x100 && c.m.pc == 0x1000
    ensures var acts := Added(c, RunSlice(o, d, c, 1).c); acts != [] && acts[0] == Interrupted(11)
    ensures var m := TakeInterrupt(c.m, 11); m.pc == 0x100 && m.csrs[0x341] == 0x1000 && m.csrs[0x342] == 0x8000_000B
  {
    hide RunSlice, Replay, TakeInterrupt;
    FirstPollDelivers(o, d, c, 1);
    EntrySaves(c.m, 11);
    assert MSTATUS as int == 0x300 && MTVEC as int == 0x305 && MEPC as int == 0x341 && MCAUSE as int == 0x342;
  }
}
