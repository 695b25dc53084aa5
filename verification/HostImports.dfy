/**
 * The functions the emulator imports from its host.
 *
 * The host is an oracle: what it answers is any function of what it has been
 * asked so far. Everything the guest can cause it to do is an `Event`, so a run
 * leaves a trace of device accesses and system calls in the order they happen.
 * The interrupt poll is asked by the run loop rather than by the guest. It has a
 * history of its own, and a device does not observe when the loop polls.
 */
module HostImports {
  import opened Bits

  datatype SyscallArgs = SyscallArgs(a0: bv32, a1: bv32, a2: bv32, a3: bv32, a7: bv32)

  datatype Event =
    | MmioRead(addr: U32, size: nat)
    | MmioWrite(addr: U32, size: nat, val: bv32)
    | CustomSyscall(args: SyscallArgs)
    | Stdout(bytes: seq<bv8>)
    | Stderr(bytes: seq<bv8>)
    | Stdin(count: nat)
    | UnknownSyscallNotice(args: SyscallArgs)

  type I32 = x: int | -0x8000_0000 <= x < 0x8000_0000 witness 0

  /** One answer to the interrupt poll; `irq` is what the host reports if the pending-interrupt line is read. */
  datatype Poll = Poll(delay: I32, enabled: bool, irq: bv32)

  /** Operands and result of a floating-point computation, as register bits. */
  datatype FpOperands = FpOperands(raw: bv32, x1: bv32, f1: bv64, f2: bv64, f3: bv64)
  datatype FpResult = FpIllegal | FpNothing | FpToInteger(x: bv32) | FpToFloat(f: bv64)

  datatype Oracle = Oracle(
    mmioRead: (seq<Event>, U32, nat) -> bv32,
    customSyscall: (seq<Event>, SyscallArgs) -> bv32,
    stdin: (seq<Event>, nat) -> seq<bv8>,
    poll: (seq<Event>, seq<bool>) -> Poll,
    fpu: FpOperands -> FpResult)

  /** What a guest read of `count` bytes receives: never more than it asked for. */
  function StdinBytes(o: Oracle, events: seq<Event>, count: nat): (r: seq<bv8>)
    ensures |r| <= count
  {
    var data := o.stdin(events, count);
    if |data| <= count then data else data[..count]
  }

  /** A host that never has an interrupt to deliver. */
  ghost predicate Quiet(o: Oracle) {
    forall events, polls :: o.poll(events, polls).enabled ==> o.poll(events, polls).irq == 0
  }

  /** The host as the emulator sees it at run time. */
  class Port {
    const oracle: Oracle
    var events: seq<Event>
    var polls: seq<bool>

    constructor (oracle: Oracle)
      ensures this.oracle == oracle && events == [] && polls == []
    {
      this.oracle := oracle;
      events, polls := [], [];
    }

    method ReadMmio(addr: U32, size: nat) returns (val: bv32)
      modifies this`events
      ensures val == oracle.mmioRead(old(events), addr, size)
      ensures events == old(events) + [MmioRead(addr, size)]
    {
      val := oracle.mmioRead(events, addr, size);
      events := events + [MmioRead(addr, size)];
    }

    /** Every call whose answer the emulator ignores or that has none. */
    method Tell(e: Event)
      modifies this`events
      ensures events == old(events) + [e]
    {
      events := events + [e];
    }

    method CustomSyscall(args: SyscallArgs) returns (res: bv32)
      modifies this`events
      ensures res == oracle.customSyscall(old(events), args)
      ensures events == old(events) + [Event.CustomSyscall(args)]
    {
      res := oracle.customSyscall(events, args);
      events := events + [Event.CustomSyscall(args)];
    }

    method ReadFromStdin(count: nat) returns (data: seq<bv8>)
      modifies this`events
      ensures data == StdinBytes(oracle, old(events), count)
      ensures events == old(events) + [Stdin(count)]
    {
      data := StdinBytes(oracle, events, count);
      events := events + [Stdin(count)];
    }

    /** Ask for the poll interval and the interrupt state; `asked` records whether the line is read. */
    method PollInterrupt(mayInterrupt: bool) returns (p: Poll)
      modifies this`polls
      ensures p == oracle.poll(events, old(polls))
      ensures polls == old(polls) + [p.enabled && mayInterrupt]
    {
      p := oracle.poll(events, polls);
      polls := polls + [p.enabled && mayInterrupt];
    }
  }
}
