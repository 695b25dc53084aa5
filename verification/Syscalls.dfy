/**
 * System calls, as an ECALL instruction makes them: which number does what, when a
 * custom handler answers instead, what `write` hands to the host, what `read`
 * leaves in guest memory, and that a guest which writes what it has read echoes
 * its input. Buffers may lie anywhere, reach into the device window and wrap around.
 */
module Syscalls {
  import opened Bits
  import opened HostImports
  import opened FlatMemory
  import opened Machine
  import opened Instructions
  import opened Formats
  import opened Multiply
  import opened Arithmetic

  /** Where `write` sends its bytes. */
  function Sent(fd: bv32, bytes: seq<bv8>): seq<Event> {
    if fd == 1 then [Stdout(bytes)] else if fd == 2 then [Stderr(bytes)] else []
  }

  /** `bytes` is what memory holds at `a`, wherever that is ordinary memory. */
  ghost predicate Matches(memory: Flat, a: U32, bytes: seq<bv8>) {
    forall i :: 0 <= i < |bytes| && Wrap(a + i) < MMIO_BASE ==> bytes[i] == At(memory, Wrap(a + i))
  }

  /** The bytes `write` collects. */
  function Collected(o: Oracle, m: Machine, args: SyscallArgs): (bytes: seq<bv8>)
    ensures |bytes| == Count(args.a2)
  {
    ByteLoads(o, m.st, Value(args.a1), Count(args.a2)).val
  }

  /**
   * `write` hands the host the bytes in memory, after asking the devices under the
   * buffer in order, and changes nothing but a0. The count it returns is the count
   * it wrote exactly up to 16 MiB.
   */
  lemma WriteEmitsMemory(o: Oracle, m: Machine, args: SyscallArgs)
    ensures var bytes := Collected(o, m, args);
            var asked := DeviceReads(Value(args.a1), Count(args.a2));
            && Matches(m.st.bytes, Value(args.a1), bytes)
            && SysWrite(o, m, args) ==
               WriteReg(m.(st := m.st.(events := m.st.events + asked + Sent(args.a0, bytes))), A0, args.a2)
            && (Value(args.a2) == |bytes| <==> Value(args.a2) <= COUNT_LIMIT)
  {
    hide Value, ByteLoads, DeviceReads, WriteReg, Wrap, At;
    var a, n := Value(args.a1), Count(args.a2);
    LoadsAnywhere(o, m.st, a, n);
    forall i | 0 <= i < n && Wrap(a + i) < MMIO_BASE
      ensures Collected(o, m, args)[i] == At(m.st.bytes, Wrap(a + i))
    {
      LoadedAt(o, m.st, a, n, i);
    }
    var asked := DeviceReads(Value(args.a1), Count(args.a2));
    assert m.st.events + asked + [] == m.st.events + asked;
  }

  /** What `read` receives. */
  function Delivered(o: Oracle, m: Machine, args: SyscallArgs): (data: seq<bv8>)
    ensures |data| <= COUNT_LIMIT
  {
    StdinBytes(o, m.st.events, Count(args.a2))
  }

  /**
   * `read` puts the bytes the host delivered into every ordinary byte of the
   * buffer, tells the devices under it the others in order, returns how many there
   * were, and changes no other byte.
   */
  lemma ReadFillsMemory(o: Oracle, m: Machine, args: SyscallArgs, x: U32)
    ensures var data := Delivered(o, m, args);
            var m1 := SysRead(o, m, args);
            var told := [Stdin(Count(args.a2))] + DeviceWrites(Value(args.a1), data);
            && m1 == WriteReg(m.(st := m.st.(bytes := m1.st.bytes, events := m.st.events + told)), A0, FromNat(|data|))
            && Value(ReadReg(m1, A0)) == |data|
            && At(m1.st.bytes, x) == Written(m.st, Value(args.a1), data, x)
  {
    hide Value, ByteStores, DeviceWrites, FromNat, Count, StdinBytes, At, Offset;
    var a, data := Value(args.a1), Delivered(o, m, args);
    var s1 := Record(m, Stdin(Count(args.a2))).st;
    StoresAnywhere(s1, a, data);
    StoredAt(s1, a, data, x);
    FromNatZero();
    FromNatValue(|data|);
    NoStores(s1, a);
    var told := [Stdin(Count(args.a2))] + DeviceWrites(a, data);
    assert m.st.events + told == s1.events + DeviceWrites(a, data);
    assert SysRead(o, m, args) == WriteReg(m.(st := ByteStores(s1, a, data)), A0, FromNat(|data|));
  }

  lemma OffsetOfPosition(a: U32, i: nat)
    requires i < WORD
    ensures Offset(a, Wrap(a + i)) == i
  {
  }

  lemma BufferBelow(a: U32, n: nat, i: nat)
    requires a + n <= MMIO_BASE && i < n
    ensures Wrap(a + i) < MMIO_BASE
  {
  }

  // ---- By number ----

  /** The argument registers a0 to a3 and the number in a7. */
  function CallArgs(m: Machine): SyscallArgs {
    SyscallArgs(m.regs[10], m.regs[11], m.regs[12], m.regs[13], m.regs[17])
  }

  /** No custom handler is installed, or it declines by answering zero. */
  predicate IsBuiltIn(o: Oracle, m: Machine) {
    m.customSyscalls ==> o.customSyscall(m.st.events, CallArgs(m)) == 0
  }

  /** The machine once a custom handler, if there is one, has been asked. */
  function Asked(m: Machine): Machine {
    if m.customSyscalls then m.(st := m.st.(events := m.st.events + [CustomSyscall(CallArgs(m))])) else m
  }

  /** The machine after the call: past the ECALL, with `a0` in register 10. */
  function Returns(m: Machine, m1: Machine, a0: bv32): Machine {
    m1.(regs := m1.regs[10 := a0], pc := Plus(m.pc, 4))
  }

  lemma ArgsAreRegisters(m: Machine)
    ensures Args(m) == CallArgs(m)
  {
  }

  lemma WritesA0(m: Machine, m1: Machine, v: bv32)
    ensures WriteReg(m1, A0, v).(pc := Plus(m.pc, 4)) == Returns(m, m1, v)
    ensures Returns(m, m1, v).st == m1.st
  {
    hide Plus;
  }

  lemma EcallDispatch(o: Oracle, m: Machine)
    ensures IsBuiltIn(o, m) ==>
              Execute32(o, m, ECALL) == Commit(BuiltinSyscall(o, Asked(m), CallArgs(m), Plus(m.pc, 4)))
    ensures !IsBuiltIn(o, m) ==>
              Execute32(o, m, ECALL) == Ok(WriteReg(Asked(m), A0,
                  o.customSyscall(m.st.events, CallArgs(m))).(pc := Plus(m.pc, 4)))
  {
    hide Dispatch, Decode, BuiltinSyscall, WriteReg, Args, CallArgs, Plus;
    ArgsAreRegisters(m);
    EcallMeans(o, m, Plus(m.pc, 4));
  }

  lemma BuiltinForms(o: Oracle, m: Machine, args: SyscallArgs, next: bv32)
    ensures args.a7 == 64 || args.a7 == 4 ==> BuiltinSyscall(o, m, args, next) == Done(SysWrite(o, m, args), next)
    ensures args.a7 == 63 || args.a7 == 3 ==> BuiltinSyscall(o, m, args, next) == Done(SysRead(o, m, args), next)
    ensures args.a7 == 214 || args.a7 == 45 ==> BuiltinSyscall(o, m, args, next) == Done(SysBrk(m, args), next)
    ensures args.a7 == 57 || args.a7 == 62 || args.a7 == 80 ==>
              BuiltinSyscall(o, m, args, next) == Done(WriteReg(m, A0, 0), next)
  {
    hide SysWrite, SysRead, SysBrk, WriteReg;
  }

  /** A custom handler that answers a nonzero number has made the call: it is a0, and nothing else changes. */
  lemma CustomAnswer(o: Oracle, m: Machine)
    requires m.customSyscalls && o.customSyscall(m.st.events, CallArgs(m)) != 0
    ensures Execute32(o, m, ECALL) == Ok(Returns(m, Asked(m), o.customSyscall(m.st.events, CallArgs(m))))
  {
    hide Execute32, BuiltinSyscall, WriteReg, CallArgs, Plus;
    EcallDispatch(o, m);
    WritesA0(m, Asked(m), o.customSyscall(m.st.events, CallArgs(m)));
  }

  /** 93, 10 and 1 exit with the code in a0. */
  lemma ExitHalts(o: Oracle, m: Machine)
    requires IsBuiltIn(o, m) && (m.regs[17] == 93 || m.regs[17] == 10 || m.regs[17] == 1)
    ensures Execute32(o, m, ECALL) == Ok(Asked(m).(halted := true, exitCode := m.regs[10], pc := Plus(m.pc, 4)))
  {
    hide Execute32, SysWrite, SysRead, SysBrk, WriteReg, Plus;
    EcallDispatch(o, m);
  }

  /** 57, 62 and 80 do nothing and return zero. */
  lemma StubsReturnZero(o: Oracle, m: Machine)
    requires IsBuiltIn(o, m) && (m.regs[17] == 57 || m.regs[17] == 62 || m.regs[17] == 80)
    ensures Execute32(o, m, ECALL) == Ok(Returns(m, Asked(m), 0))
  {
    hide Execute32, BuiltinSyscall, WriteReg, Plus;
    EcallDispatch(o, m);
    BuiltinForms(o, Asked(m), CallArgs(m), Plus(m.pc, 4));
    WritesA0(m, Asked(m), 0);
  }

  predicate IsKnown(number: bv32) {
    number in {93, 10, 1, 64, 4, 63, 3, 214, 45, 57, 62, 80}
  }

  /** Any other number faults with the arguments, and nothing has changed but for the question to the handler. */
  lemma UnknownFaults(o: Oracle, m: Machine)
    requires IsBuiltIn(o, m) && !IsKnown(m.regs[17])
    ensures Execute32(o, m, ECALL) == Err(Asked(m), UnknownSyscall(CallArgs(m)))
  {
    hide Execute32, SysWrite, SysRead, SysBrk, WriteReg, Plus;
    EcallDispatch(o, m);
  }

  /**
   * 214 and 45 move the heap break to a0 if that lies in the heap, and return where
   * it then is; zero only asks.
   */
  lemma BrkMoves(o: Oracle, m: Machine)
    requires IsBuiltIn(o, m) && (m.regs[17] == 214 || m.regs[17] == 45)
    ensures var r := Execute32(o, m, ECALL);
            var want := Value(m.regs[10]);
            && r.Ok?
            && r.m == Returns(m, Asked(m).(st := Asked(m).st.(brk := r.m.st.brk)), r.m.st.brk)
            && Value(r.m.st.brk) ==
               (if want != 0 && Value(m.st.initialBrk) <= want < 0xFFFF_0000 then want else Value(m.st.brk))
  {
    EcallDispatch(o, m);
    BuiltinForms(o, Asked(m), CallArgs(m), Plus(m.pc, 4));
    AskedKeeps(m);
    hide Execute32, BuiltinSyscall, WriteReg, Plus, SetBrk, Value, Returns, Asked;
    BreakMachine(Asked(m), m.regs[10]);
    var m1 := Moved(Asked(m), m.regs[10]);
    WritesA0(m, m1, m1.st.brk);
  }

  lemma AskedKeeps(m: Machine)
    ensures Asked(m).st.brk == m.st.brk && Asked(m).st.initialBrk == m.st.initialBrk
  {
  }

  /** The machine once the break has moved, if it does. */
  function Moved(m: Machine, want: bv32): Machine { if want != 0 then m.(st := SetBrk(m.st, want)) else m }

  lemma BreakMachine(m: Machine, want: bv32)
    ensures var m1 := Moved(m, want);
            && m1 == m.(st := m.st.(brk := m1.st.brk))
            && Value(m1.st.brk) ==
               (if Value(want) != 0 && Value(m.st.initialBrk) <= Value(want) < 0xFFFF_0000 then Value(want)
                else Value(m.st.brk))
  {
    hide SetBrk, Value;
    BreakAfter(m.st, want);
    ZeroValue();
    if want != 0 {
      NonZero(want);
    }
    assert m == m.(st := m.st.(brk := m.st.brk));
  }

  lemma BreakAfter(s: Store, want: bv32)
    ensures SetBrk(s, want) == s.(brk := SetBrk(s, want).brk)
    ensures Value(SetBrk(s, want).brk) ==
            if Value(s.initialBrk) <= Value(want) < 0xFFFF_0000 then Value(want) else Value(s.brk)
  {
    hide Value, Below;
    UnsignedLessIsLess(want, s.initialBrk);
    UnsignedLessIsLess(want, 0xFFFF_0000);
    WindowValue();
  }

  lemma WindowValue()
    ensures Value(0xFFFF_0000) == 0xFFFF_0000
  {
  }

  /** A byte count, limited to 16 MiB. */
  function Limited(x: bv32): nat { if Value(x) <= 0x100_0000 then Value(x) else 0x100_0000 }

  /**
   * 64 and 4 write: the bytes in memory go to standard output or standard error,
   * after the devices under the buffer have been asked in order.
   */
  lemma WriteCall(o: Oracle, m: Machine)
    requires IsBuiltIn(o, m) && (m.regs[17] == 64 || m.regs[17] == 4)
    ensures var a, n := Value(m.regs[11]), Limited(m.regs[12]);
            var bytes := Collected(o, Asked(m), CallArgs(m));
            && |bytes| == n && Matches(m.st.bytes, a, bytes)
            && Execute32(o, m, ECALL) ==
               Ok(Returns(m, Asked(m).(st := m.st.(events := Asked(m).st.events + DeviceReads(a,
                   n) + Sent(m.regs[10], bytes))),
                          m.regs[12]))
  {
    hide Execute32, BuiltinSyscall, SysWrite, WriteReg, Plus, Value, DeviceReads, Collected, Matches, Returns;
    EcallDispatch(o, m);
    BuiltinForms(o, Asked(m), CallArgs(m), Plus(m.pc, 4));
    var m0, args := Asked(m), CallArgs(m);
    var bytes := Collected(o, m0, args);
    WriteEmitsMemory(o, m0, args);
    var s' := m0.st.(events := m0.st.events + DeviceReads(Value(m.regs[11]),
        Limited(m.regs[12])) + Sent(m.regs[10], bytes));
    WritesA0(m, m0.(st := s'), m.regs[12]);
  }

  /**
   * 63 and 3 read: what the host delivers goes into the buffer, and a0 is how much
   * it was. Every other byte stays.
   */
  lemma ReadCall(o: Oracle, m: Machine, x: U32)
    requires IsBuiltIn(o, m) && (m.regs[17] == 63 || m.regs[17] == 3)
    ensures var a, n := Value(m.regs[11]), Limited(m.regs[12]);
            var data := StdinBytes(o, Asked(m).st.events, n);
            var r := Execute32(o, m, ECALL);
            && r.Ok? && Value(r.m.regs[10]) == |data|
            && r.m == Returns(m, Asked(m).(st := m.st.(bytes := r.m.st.bytes,
                                                       events := Asked(m).st.events + [Stdin(n)] + DeviceWrites(a,
                                                           data))),
                              r.m.regs[10])
            && At(r.m.st.bytes, x) == Written(m.st, a, data, x)
  {
    hide Execute32, BuiltinSyscall, SysRead, Plus, Value, DeviceWrites, StdinBytes, At, Offset, FromNat;
    EcallDispatch(o, m);
    BuiltinForms(o, Asked(m), CallArgs(m), Plus(m.pc, 4));
    var m0, args := Asked(m), CallArgs(m);
    ReadFillsMemory(o, m0, args, x);
    var data := Delivered(o, m0, args);
    Regroup(m0.st.events, [Stdin(Limited(m.regs[12]))], DeviceWrites(Value(m.regs[11]), data));
  }

  /** Position `i` of the buffer after a read, where it is ordinary memory. */
  lemma ReadPosition(o: Oracle, m: Machine, i: nat)
    requires !m.customSyscalls && m.regs[17] == 63
    requires var data := StdinBytes(o, m.st.events, Limited(m.regs[12]));
             i < |data| && Wrap(Value(m.regs[11]) + i) < MMIO_BASE
    ensures At(Execute32(o, m, ECALL).m.st.bytes, Wrap(Value(m.regs[11]) + i)) ==
            StdinBytes(o, m.st.events, Limited(m.regs[12]))[i]
  {
    hide Execute32, Plus, Value, DeviceWrites, StdinBytes, At, Offset, FromNat, Wrap;
    OffsetOfPosition(Value(m.regs[11]), i);
    ReadCall(o, m, Wrap(Value(m.regs[11]) + i));
  }

  /**
   * The echo, made of two ECALLs: a guest that has read into a buffer puts 64 into
   * a7, 1 into a0 and the count it got into a2, and calls again. The host receives
   * as many bytes, the same ones wherever the buffer is ordinary memory, and
   * exactly what it sent, with no device call, if all of it is.
   */
  lemma EchoOfTwoCalls(o: Oracle, m: Machine)
    requires !m.customSyscalls && m.regs[17] == 63
    ensures var a, data := Value(m.regs[11]), StdinBytes(o, m.st.events, Limited(m.regs[12]));
            var m1 := Execute32(o, m, ECALL).m;
            var m2 := m1.(regs := m1.regs[12 := m1.regs[10]][10 := 1][17 := 64]);
            var r := Execute32(o, m2, ECALL);
            && Execute32(o, m, ECALL).Ok? && r.Ok?
            && Value(r.m.regs[10]) == |data|
            && exists echo: seq<bv8> ::
                 && |echo| == |data|
                 && (forall i :: 0 <= i < |data| && Wrap(a + i) < MMIO_BASE ==> echo[i] == data[i])
                 && (a + |data| <= MMIO_BASE ==> echo == data && DeviceReads(a, |data|) == [])
                 && r.m.st.events == m1.st.events + DeviceReads(a, |data|) + [Stdout(echo)]
  {
    hide Execute32, Plus, Value, DeviceReads, DeviceWrites, StdinBytes, At, Offset, FromNat, Wrap, Collected;
    var a, data := Value(m.regs[11]), StdinBytes(o, m.st.events, Limited(m.regs[12]));
    ReadCall(o, m, 0);
    var m1 := Execute32(o, m, ECALL).m;
    var m2 := m1.(regs := m1.regs[12 := m1.regs[10]][10 := 1][17 := 64]);
    WriteCall(o, m2);
    var echo := Collected(o, m2, CallArgs(m2));
    forall i | 0 <= i < |data| && Wrap(a + i) < MMIO_BASE
      ensures echo[i] == data[i]
    {
      ReadPosition(o, m, i);
    }
    if a + |data| <= MMIO_BASE {
      NoDeviceCalls(a, data);
      forall i | 0 <= i < |data|
        ensures echo[i] == data[i]
      {
        BufferBelow(a, |data|, i);
      }
    }
  }
}
