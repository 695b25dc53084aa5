/**
 * What no instruction can do: the part of the machine each arm of the 32-bit
 * executor leaves alone, faults included.
 */
module Frames {
  import opened Bits
  import opened HostImports
  import opened FlatMemory
  import opened Instructions
  import opened Machine
  import opened Compressed

  predicate IsEven(x: bv32) { x & 1 == 0 }

  /** The heap break is inside the heap. */
  predicate BrkInRange(st: Store) { st.initialBrk <= st.brk && st.brk < 0xFFFF_0000 }

  /** `st'` differs from `st` at most by contents, a legal break and more host calls. */
  predicate Evolves(st: Store, st': Store) {
    st'.initialBrk == st.initialBrk && (st'.brk == st.brk || BrkInRange(st')) && st.events <= st'.events
  }

  /** `st'` differs from `st` at most by more host calls. */
  predicate OnlyTold(st: Store, st': Store) {
    st' == st.(events := st'.events) && st.events <= st'.events
  }

  /** A faulting instruction changes nothing but the record of host calls it made before the fault. */
  predicate Precise(m: Machine, m': Machine) {
    m' == m.(st := m'.st) && OnlyTold(m.st, m'.st)
  }

  /** What a completed arm keeps. */
  predicate Kept(m: Machine, m': Machine) {
    && m'.pc == m.pc
    && m'.regs[0] == m.regs[0]
    && m'.customSyscalls == m.customSyscalls
    && (m.halted ==> m'.halted)
    && (!m'.halted ==> m'.exitCode == m.exitCode)
    && Evolves(m.st, m'.st)
  }

  /** The frame of every arm; `csrs` says whether the arm may touch the CSR file. */
  predicate Framed(m: Machine, arm: Arm, csrs: bool) {
    match arm
    case Fault(m', _) => Precise(m, m')
    case Done(m', _) => Kept(m, m') && (!csrs ==> m'.csrs == m.csrs)
  }

  // ---- Memory ----

  lemma Load8Tells(o: Oracle, s: Store, a: U32)
    ensures OnlyTold(s, Load8(o, s, a).st)
  {
  }

  lemma Load16Tells(o: Oracle, s: Store, a: U32)
    ensures OnlyTold(s, Load16(o, s, a).st)
  {
    hide Half, LowHalf, Load8;
    Load8Tells(o, s, a);
    Load8Tells(o, Load8(o, s, a).st, Next(a));
  }

  lemma Load32Tells(o: Oracle, s: Store, a: U32)
    ensures OnlyTold(s, Load32(o, s, a).st)
  {
    hide Word, Load8;
    var b0 := Load8(o, s, a);
    var b1 := Load8(o, b0.st, Next(a));
    var b2 := Load8(o, b1.st, Next(Next(a)));
    Load8Tells(o, s, a);
    Load8Tells(o, b0.st, Next(a));
    Load8Tells(o, b1.st, Next(Next(a)));
    Load8Tells(o, b2.st, Next(Next(Next(a))));
  }

  lemma {:induction false} ByteLoadsTell(o: Oracle, s: Store, a: U32, n: nat)
    ensures OnlyTold(s, ByteLoads(o, s, a, n).st)
    decreases n
  {
    hide Load8;
    if n == 0 {
    } else {
      Load8Tells(o, s, a);
      ByteLoadsTell(o, Load8(o, s, a).st, Next(a), n - 1);
    }
  }

  lemma Store8Evolves(s: Store, a: U32, v: bv8)
    ensures Evolves(s, Store8(s, a, v)) && Store8(s, a, v).brk == s.brk
  {
  }

  lemma Store16Evolves(s: Store, a: U32, v: bv16)
    ensures Evolves(s, Store16(s, a, v)) && Store16(s, a, v).brk == s.brk
  {
    hide Byte16, Store8, BrkInRange;
    Store8Evolves(s, a, Byte16(v, 0));
    Store8Evolves(Store8(s, a, Byte16(v, 0)), Next(a), Byte16(v, 1));
  }

  lemma Store32Evolves(s: Store, a: U32, v: bv32)
    ensures Evolves(s, Store32(s, a, v)) && Store32(s, a, v).brk == s.brk
  {
    hide Byte, Store8, BrkInRange;
    var s1 := Store8(s, a, Byte(v, 0));
    var s2 := Store8(s1, Next(a), Byte(v, 1));
    var s3 := Store8(s2, Next(Next(a)), Byte(v, 2));
    Store8Evolves(s, a, Byte(v, 0));
    Store8Evolves(s1, Next(a), Byte(v, 1));
    Store8Evolves(s2, Next(Next(a)), Byte(v, 2));
    Store8Evolves(s3, Next(Next(Next(a))), Byte(v, 3));
  }

  lemma {:induction false} ByteStoresEvolve(s: Store, a: U32, data: seq<bv8>)
    ensures Evolves(s, ByteStores(s, a, data)) && ByteStores(s, a, data).brk == s.brk
    decreases |data|
  {
    hide Store8, BrkInRange;
    if data == [] {
    } else {
      Store8Evolves(s, a, data[0]);
      ByteStoresEvolve(Store8(s, a, data[0]), Next(a), data[1..]);
    }
  }

  // ---- Arms ----

  lemma KeptTransitive(a: Machine, b: Machine, c: Machine)
    requires Kept(a, b) && Kept(b, c)
    ensures Kept(a, c)
  {
    hide BrkInRange;
    if BrkInRange(b.st) && c.st.brk == b.st.brk {
      SameBrkInRange(b.st, c.st);
    }
  }

  lemma SameBrkInRange(s: Store, s': Store)
    requires BrkInRange(s) && s'.brk == s.brk && s'.initialBrk == s.initialBrk
    ensures BrkInRange(s')
  {
  }

  lemma WriteRegAfter(m: Machine, m1: Machine, r: bv5, v: bv32)
    requires Kept(m, m1) && m1.csrs == m.csrs
    ensures Kept(m, WriteReg(m1, r, v)) && WriteReg(m1, r, v).csrs == m.csrs
  {
    hide Kept, WriteReg;
    WriteRegKeeps(m1, r, v);
    KeptTransitive(m, m1, WriteReg(m1, r, v));
  }

  lemma WriteRegKeeps(m: Machine, r: bv5, v: bv32)
    ensures Kept(m, WriteReg(m, r, v)) && WriteReg(m, r, v).csrs == m.csrs
  {
    hide BrkInRange;
  }

  /** The machine after a load: nothing but the record of device reads has changed. */
  lemma GetsTell(o: Oracle, m: Machine, addr: bv32)
    ensures Precise(m, Get8(o, m, addr).m) && Precise(m, Get16(o, m, addr).m) && Precise(m, Get32(o, m, addr).m)
  {
    hide Load8, Load16, Load32;
    Load8Tells(o, m.st, Value(addr));
    Load16Tells(o, m.st, Value(addr));
    Load32Tells(o, m.st, Value(addr));
  }

  lemma GetDoubleTells(o: Oracle, m: Machine, addr: bv32)
    ensures Precise(m, GetDouble(o, m, addr).m)
  {
    hide Get32, Get8, Get16, Plus, Pair;
    GetsTell(o, m, addr);
    GetsTell(o, Get32(o, m, addr).m, Plus(addr, 4));
  }

  /** A load followed by a register write. */
  lemma LoadThenWrite(m: Machine, m1: Machine, r: bv5, v: bv32)
    requires Precise(m, m1)
    ensures Kept(m, WriteReg(m1, r, v)) && WriteReg(m1, r, v).csrs == m.csrs
  {
    hide BrkInRange;
  }

  lemma LoadThenWriteFloat(m: Machine, m1: Machine, r: bv5, v: bv64)
    requires Precise(m, m1)
    ensures Kept(m, SetFreg(m1, r, v)) && SetFreg(m1, r, v).csrs == m.csrs
  {
    hide BrkInRange;
  }

  lemma LoadFramed(o: Oracle, m: Machine, d: Inst32, next: bv32)
    ensures Framed(m, ExecLoad(o, m, d, next), false)
  {
    hide Get8, Get16, Get32, Address, SignExtend8, SignExtend16, ZeroExtend8, ZeroExtend16, IImm;
    hide WriteReg, ReadReg, Kept, Precise;
    var addr := Address(m, d.rs1, IImm(d.raw));
    GetsTell(o, m, addr);
    if d.funct3 == 0 || d.funct3 == 4 {
      var r := Get8(o, m, addr);
      LoadThenWrite(m, r.m, d.rd, if d.funct3 == 0 then SignExtend8(r.val) else ZeroExtend8(r.val));
    } else if d.funct3 == 1 || d.funct3 == 5 {
      var r := Get16(o, m, addr);
      LoadThenWrite(m, r.m, d.rd, if d.funct3 == 1 then SignExtend16(r.val) else ZeroExtend16(r.val));
    } else {
      var r := Get32(o, m, addr);
      LoadThenWrite(m, r.m, d.rd, r.val);
      NothingTold(m);
    }
  }

  lemma PutsKeep(m: Machine, addr: bv32, b: bv8, h: bv16, w: bv32)
    ensures Kept(m, Put8(m, addr, b)) && Put8(m, addr, b).csrs == m.csrs
    ensures Kept(m, Put16(m, addr, h)) && Put16(m, addr, h).csrs == m.csrs
    ensures Kept(m, Put32(m, addr, w)) && Put32(m, addr, w).csrs == m.csrs
  {
    hide Store8, Store16, Store32, Evolves;
    Store8Evolves(m.st, Value(addr), b);
    Store16Evolves(m.st, Value(addr), h);
    Store32Evolves(m.st, Value(addr), w);
  }

  lemma StoreFramed(m: Machine, d: Inst32, next: bv32)
    ensures Framed(m, ExecStore(m, d, next), false)
  {
    hide Put8, Put16, Put32, Address, SImm, ReadReg, Kept, LowHalf, LowByte;
    var val := ReadReg(m, d.rs2);
    PutsKeep(m, Address(m, d.rs1, SImm(d.raw)), LowByte(val), LowHalf(val), val);
    NothingTold(m);
  }

  lemma NothingTold(m: Machine)
    ensures Precise(m, m) && Kept(m, m)
  {
    hide BrkInRange;
  }

  lemma RegisterArmsFramed(m: Machine, d: Inst32, next: bv32)
    ensures Framed(m, ExecUpper(m, d, next), false)
    ensures Framed(m, ExecBranch(m, d, next), false)
    ensures Framed(m, ExecOpImm(m, d, next), false)
    ensures Framed(m, ExecOp(m, d, next), false)
    ensures Framed(m, ExecMulDiv(m, d, next), false)
  {
    hide WriteReg, ReadReg, Kept, Precise, Address, Target, Even, IImm, UImm, JImm, BImm, ImmResult;
    hide OpResult, MulDiv, Compare, IsOp;
    NothingTold(m);
    var a, b := ReadReg(m, d.rs1), ReadReg(m, d.rs2);
    WriteRegKeeps(m, d.rd, UImm(d.raw));
    WriteRegKeeps(m, d.rd, Target(m, UImm(d.raw)));
    WriteRegKeeps(m, d.rd, next);
    WriteRegKeeps(m, d.rd, ImmResult(d.funct3, d.funct7, a, IImm(d.raw), d.rs2));
    WriteRegKeeps(m, d.rd, MulDiv(d.funct3, a, b));
    if IsOp(d.funct7, d.funct3) {
      WriteRegKeeps(m, d.rd, OpResult(d.funct7, d.funct3, a, b));
    }
  }

  lemma PreciseIsKept(m: Machine, m1: Machine)
    requires Precise(m, m1)
    ensures Kept(m, m1) && m1.csrs == m.csrs
  {
    hide BrkInRange;
  }

  /** Read, then write memory, then a register. */
  lemma ReadModifyWrite(m: Machine, m1: Machine, addr: bv32, w: bv32, r: bv5, v: bv32)
    requires Precise(m, m1)
    ensures Kept(m, WriteReg(Put32(m1, addr, w), r, v)) && WriteReg(Put32(m1, addr, w), r, v).csrs == m.csrs
  {
    hide Put32, WriteReg, Put8, Put16, Kept, Precise;
    PreciseIsKept(m, m1);
    PutsKeep(m1, addr, 0, 0, w);
    WriteRegKeeps(Put32(m1, addr, w), r, v);
    KeptTransitive(m, m1, Put32(m1, addr, w));
    KeptTransitive(m, Put32(m1, addr, w), WriteReg(Put32(m1, addr, w), r, v));
  }

  lemma AmoFramed(o: Oracle, m: Machine, d: Inst32, next: bv32)
    ensures Framed(m, ExecAmo(o, m, d, next), false)
  {
    hide Get8, Get16, Get32, Put32, ReadReg, WriteReg, Kept, Precise, Funct5, IsAmo, AmoValue;
    var addr, src := ReadReg(m, d.rs1), ReadReg(m, d.rs2);
    var was := Get32(o, m, addr);
    var funct5 := Funct5(d);
    var result := if funct5 == 0x03 then 0 else was.val;
    GetsTell(o, m, addr);
    if funct5 == 0x02 {
      LoadThenWrite(m, was.m, d.rd, result);
    } else {
      ReadModifyWrite(m, was.m, addr, AmoValue(funct5, was.val, src), d.rd, result);
    }
  }

  lemma FloatArmsFramed(o: Oracle, m: Machine, d: Inst32, next: bv32)
    ensures Framed(m, ExecLoadFp(o, m, d, next), false)
    ensures Framed(m, ExecFpu(o, m, d, next), false)
  {
    hide Get8, Get16, Get32, GetDouble, Address, IImm, WriteReg, ReadReg, SetFreg, ReadFreg, Boxed;
    hide IsNan64, Kept, Precise;
    var addr := Address(m, d.rs1, IImm(d.raw));
    NothingTold(m);
    GetsTell(o, m, addr);
    GetDoubleTells(o, m, addr);
    var r32, r64 := Get32(o, m, addr), GetDouble(o, m, addr);
    LoadThenWriteFloat(m, r32.m, d.rd, Boxed(r32.val));
    LoadThenWriteFloat(m, r64.m, d.rd, if IsNan64(r64.val) then 0x7FF8_0000_0000_0000 else r64.val);
    var fp := o.fpu(Operands(m, d));
    if fp.FpToInteger? {
      WriteRegKeeps(m, d.rd, fp.x);
    } else if fp.FpToFloat? {
      LoadThenWriteFloat(m, m, d.rd, fp.f);
    }
  }

  lemma StoreFpFramed(m: Machine, d: Inst32, next: bv32)
    ensures Framed(m, ExecStoreFp(m, d, next), false)
  {
    hide Put8, Put16, Put32, Address, SImm, ReadReg, ReadFreg, Kept, Precise, Plus, LowWord, HighWord;
    var addr, bits := Address(m, d.rs1, SImm(d.raw)), ReadFreg(m, d.rs2);
    var m1 := Put32(m, addr, LowWord(bits));
    PutsKeep(m, addr, 0, 0, LowWord(bits));
    PutsKeep(m1, Plus(addr, 4), 0, 0, HighWord(bits));
    KeptTransitive(m, m1, PutDouble(m, addr, bits));
    NothingTold(m);
  }

  // ---- System instructions ----

  lemma RecordKeeps(m: Machine, e: Event)
    ensures Kept(m, Record(m, e)) && Record(m, e).csrs == m.csrs && Precise(m, Record(m, e))
  {
    hide BrkInRange;
  }

  lemma SysWriteKeeps(o: Oracle, m: Machine, args: SyscallArgs)
    ensures Kept(m, SysWrite(o, m, args)) && SysWrite(o, m, args).csrs == m.csrs
  {
    hide ByteLoads, WriteReg, Record, Kept, Count;
    var r := ByteLoads(o, m.st, Value(args.a1), Count(args.a2));
    var m1 := m.(st := r.st);
    ByteLoadsTell(o, m.st, Value(args.a1), Count(args.a2));
    PreciseIsKept(m, m1);
    RecordKeeps(m1, Stdout(r.val));
    RecordKeeps(m1, Stderr(r.val));
    var m2 := if args.a0 == 1 then Record(m1, Stdout(r.val))
      else if args.a0 == 2 then Record(m1, Stderr(r.val)) else m1;
    NothingTold(m1);
    KeptTransitive(m, m1, m2);
    WriteRegAfter(m, m2, A0, args.a2);
  }

  lemma SysReadKeeps(o: Oracle, m: Machine, args: SyscallArgs)
    ensures Kept(m, SysRead(o, m, args)) && SysRead(o, m, args).csrs == m.csrs
  {
    hide ByteStores, WriteReg, Record, Kept, Evolves, Count, StdinBytes, FromNat;
    var data := StdinBytes(o, m.st.events, Count(args.a2));
    var m1 := Record(m, Stdin(Count(args.a2)));
    var m2 := m1.(st := ByteStores(m1.st, Value(args.a1), data));
    RecordKeeps(m, Stdin(Count(args.a2)));
    ByteStoresEvolve(m1.st, Value(args.a1), data);
    StoreKept(m1, m2);
    KeptTransitive(m, m1, m2);
    if |data| > 0 {
      WriteRegAfter(m, m2, A0, FromNat(|data|));
    } else {
      WriteRegAfter(m, m1, A0, 0);
    }
  }

  lemma StoreKept(m: Machine, m': Machine)
    requires m' == m.(st := m'.st) && Evolves(m.st, m'.st)
    ensures Kept(m, m')
  {
    hide Evolves;
  }

  lemma SysBrkKeeps(m: Machine, args: SyscallArgs)
    ensures Kept(m, SysBrk(m, args)) && SysBrk(m, args).csrs == m.csrs
  {
    hide WriteReg, Kept;
    var m1 := if args.a0 != 0 then m.(st := SetBrk(m.st, args.a0)) else m;
    SetBrkEvolves(m.st, args.a0);
    StoreKept(m, m.(st := SetBrk(m.st, args.a0)));
    NothingTold(m);
    WriteRegAfter(m, m1, A0, m1.st.brk);
  }

  lemma SetBrkEvolves(s: Store, val: bv32)
    ensures Evolves(s, SetBrk(s, val))
  {
  }

  lemma HaltKeeps(m: Machine, code: bv32)
    ensures Kept(m, m.(halted := true, exitCode := code)) && Kept(m, m.(halted := true))
  {
    hide BrkInRange;
  }

  lemma BuiltinFramed(o: Oracle, m: Machine, args: SyscallArgs, next: bv32)
    ensures Framed(m, BuiltinSyscall(o, m, args, next), false)
  {
    hide SysWrite, SysRead, SysBrk, WriteReg, Kept, Precise;
    SysWriteKeeps(o, m, args);
    SysReadKeeps(o, m, args);
    SysBrkKeeps(m, args);
    HaltKeeps(m, args.a0);
    WriteRegKeeps(m, A0, 0);
    NothingTold(m);
  }

  lemma EcallFramed(o: Oracle, m: Machine, next: bv32)
    ensures Framed(m, ExecEcall(o, m, next), false)
  {
    hide BuiltinSyscall, Args, Record, WriteReg, Kept, Precise;
    var args := Args(m);
    var m1 := Record(m, CustomSyscall(args));
    RecordKeeps(m, CustomSyscall(args));
    BuiltinFramed(o, m, args, next);
    BuiltinFramed(o, m1, args, next);
    var res := o.customSyscall(m.st.events, args);
    WriteRegAfter(m, m1, A0, res);
    FramedAfter(m, m1, BuiltinSyscall(o, m1, args, next));
  }

  /** An arm that starts by making a host call. */
  lemma FramedAfter(m: Machine, m1: Machine, arm: Arm)
    requires Precise(m, m1) && Framed(m1, arm, false)
    ensures Framed(m, arm, false)
  {
    hide Kept, BrkInRange;
    PreciseIsKept(m, m1);
    if arm.Done? {
      KeptTransitive(m, m1, arm.m);
    }
  }

  lemma CsrArmsFramed(m: Machine, d: Inst32, next: bv32)
    ensures Framed(m, ExecCsr(m, d, next), true)
    ensures Framed(m, ExecMret(m, next), true)
  {
    hide WriteReg, ReadReg, CsrResult, CsrNumber, Kept;
    var num := CsrNumber(d.raw);
    var val := CsrResult(d.funct3, GetCsr(m, num), ReadReg(m, d.rs1), d.rs1 as bv32);
    var m1 := SetCsr(m, num, val);
    SetCsrKeeps(m, num, val);
    WriteRegKeeps(m1, d.rd, GetCsr(m, num));
    KeptTransitive(m, m1, WriteReg(m1, d.rd, GetCsr(m, num)));
    SetCsrKeeps(m, MSTATUS, ExecMret(m, next).m.csrs[MSTATUS as int]);
  }

  lemma SetCsrKeeps(m: Machine, num: bv12, val: bv32)
    ensures Kept(m, SetCsr(m, num, val))
  {
    hide BrkInRange;
  }

  lemma SystemFramed(o: Oracle, m: Machine, d: Inst32, next: bv32)
    ensures Framed(m, ExecSystem(o, m, d, next), true)
  {
    hide ExecEcall, ExecMret, ExecCsr, Kept, Precise, CsrNumber;
    EcallFramed(o, m, next);
    CsrArmsFramed(m, d, next);
    HaltKeeps(m, 0);
    NothingTold(m);
  }

  /** Whatever the encoding, one instruction keeps the frame. Only SYSTEM can reach the CSRs. */
  lemma DispatchFramed(o: Oracle, m: Machine, d: Inst32, next: bv32)
    ensures Framed(m, Dispatch(o, m, d, next), d.opcode == OP_SYSTEM)
  {
    hide Framed, ExecOp, ExecMulDiv, ExecUpper, ExecBranch, ExecLoad, ExecStore, ExecOpImm, ExecLoadFp;
    hide ExecStoreFp, ExecSystem, ExecAmo, ExecFpu;
    RegisterArmsFramed(m, d, next);
    LoadFramed(o, m, d, next);
    StoreFramed(m, d, next);
    AmoFramed(o, m, d, next);
    FloatArmsFramed(o, m, d, next);
    StoreFpFramed(m, d, next);
    SystemFramed(o, m, d, next);
    IdleFramed(m, d, next);
  }

  lemma IdleFramed(m: Machine, d: Inst32, next: bv32)
    ensures Framed(m, Done(m, next), false) && Framed(m, Fault(m, UnknownOpcode(m.pc, d.opcode)), false)
  {
    hide Kept, Precise;
    NothingTold(m);
  }

  // ---- Compressed instructions ----

  lemma Quadrant0Framed(o: Oracle, m: Machine, i: bv16, next: bv32)
    ensures Framed(m, Quadrant0(o, m, i, next), false)
    ensures Quadrant0(o, m, i, next).Fault? ==> Quadrant0(o, m, i, next).m == m
  {
    hide Funct3, Creg, Addi4spnImm, ClWordOffset, ClDoubleOffset, Get8, Get16, Get32, GetDouble, Put8;
    hide Put16, Put32, PutDouble;
    hide ReadReg, WriteReg, ReadFreg, SetFreg, WriteF64, Boxed, LowWord, Address, Kept, Precise;
    var f, low, base := Funct3(i), Creg(i, 2), Creg(i, 7);
    var word, double := Address(m, base, ClWordOffset(i)), Address(m, base, ClDoubleOffset(i));
    NothingTold(m);
    if f == 0 {
      WriteRegKeeps(m, low, Address(m, 2, Addi4spnImm(i)));
    } else if f == 1 {
      GetDoubleTells(o, m, double);
      WriteF64Keeps(m, GetDouble(o, m, double).m, low, GetDouble(o, m, double).val);
    } else if f == 2 {
      GetsTell(o, m, word);
      LoadThenWrite(m, Get32(o, m, word).m, low, Get32(o, m, word).val);
    } else if f == 3 {
      GetsTell(o, m, word);
      LoadThenWriteFloat(m, Get32(o, m, word).m, low, Boxed(Get32(o, m, word).val));
    } else if f == 5 {
      PutDoubleKeeps(m, double, ReadFreg(m, low));
    } else if f == 6 {
      PutsKeep(m, word, 0, 0, ReadReg(m, low));
    } else if f == 7 {
      PutsKeep(m, word, 0, 0, LowWord(ReadFreg(m, low)));
    }
  }

  lemma WriteF64Keeps(m: Machine, m1: Machine, r: bv5, v: bv64)
    requires Precise(m, m1)
    ensures Kept(m, WriteF64(m1, r, v)) && WriteF64(m1, r, v).csrs == m.csrs
  {
    hide Kept, Precise, SetFreg, IsNan64;
    LoadThenWriteFloat(m, m1, r, if IsNan64(v) then 0x7FF8_0000_0000_0000 else v);
  }

  lemma PutDoubleKeeps(m: Machine, addr: bv32, bits: bv64)
    ensures Kept(m, PutDouble(m, addr, bits)) && PutDouble(m, addr, bits).csrs == m.csrs
  {
    hide Put8, Put16, Put32, Kept, Plus, LowWord, HighWord;
    var m1 := Put32(m, addr, LowWord(bits));
    PutsKeep(m, addr, 0, 0, LowWord(bits));
    PutsKeep(m1, Plus(addr, 4), 0, 0, HighWord(bits));
    KeptTransitive(m, m1, PutDouble(m, addr, bits));
  }

  lemma Quadrant1Framed(m: Machine, i: bv16, next: bv32)
    ensures Framed(m, Quadrant1(m, i, next), false)
    ensures Quadrant1(m, i, next).Fault? ==> Quadrant1(m, i, next).m == m
  {
    hide Funct3, Creg, Reg, Field, Shamt, Imm6, Imm6Extended, Addi16spImm, Addi16spExtended, CjOffset;
    hide CbOffset;
    hide ReadReg, WriteReg, Address, Target, Kept, Precise, Minus, Xor, Or, And, Shl, Shr, Sra;
    NothingTold(m);
    forall r, v ensures Kept(m, WriteReg(m, r, v)) && WriteReg(m, r, v).csrs == m.csrs {
      WriteRegKeeps(m, r, v);
    }
  }

  lemma Quadrant2Framed(o: Oracle, m: Machine, i: bv16, next: bv32)
    ensures Framed(m, Quadrant2(o, m, i, next), false)
    ensures Quadrant2(o, m, i, next).Fault? ==> Quadrant2(o, m, i, next).m == m
  {
    hide Funct3, Reg, Field, Shamt, CiWordSpOffset, CiDoubleSpOffset, CssWordSpOffset, CssDoubleSpOffset;
    hide Get8, Get16, Get32, GetDouble, Put8, Put16, Put32, PutDouble, ReadReg, WriteReg, ReadFreg;
    hide SetFreg, WriteF64, Boxed, LowWord;
    hide Address, Even, Plus, Shl, Kept, Precise;
    var f, rd, rs2 := Funct3(i), Reg(i, 7), Reg(i, 2);
    NothingTold(m);
    if f == 0 || f == 4 {
      HaltKeeps(m, 0);
      forall r, v ensures Kept(m, WriteReg(m, r, v)) && WriteReg(m, r, v).csrs == m.csrs {
        WriteRegKeeps(m, r, v);
      }
    } else if f == 1 {
      var r := GetDouble(o, m, Address(m, 2, CiDoubleSpOffset(i)));
      GetDoubleTells(o, m, Address(m, 2, CiDoubleSpOffset(i)));
      WriteF64Keeps(m, r.m, rd, r.val);
    } else if f == 2 || f == 3 {
      var r := Get32(o, m, Address(m, 2, CiWordSpOffset(i)));
      GetsTell(o, m, Address(m, 2, CiWordSpOffset(i)));
      LoadThenWrite(m, r.m, rd, r.val);
      LoadThenWriteFloat(m, r.m, rd, Boxed(r.val));
    } else if f == 5 {
      PutDoubleKeeps(m, Address(m, 2, CssDoubleSpOffset(i)), ReadFreg(m, rs2));
    } else {
      PutsKeep(m, Address(m, 2, CssWordSpOffset(i)), 0, 0, ReadReg(m, rs2));
      PutsKeep(m, Address(m, 2, CssWordSpOffset(i)), 0, 0, LowWord(ReadFreg(m, rs2)));
    }
  }

  lemma Arm16Framed(o: Oracle, m: Machine, i: bv16, next: bv32)
    ensures Framed(m, Arm16(o, m, i, next), false)
    ensures Arm16(o, m, i, next).Fault? ==> Arm16(o, m, i, next).m == m
  {
    hide Framed, Quadrant0, Quadrant1, Quadrant2, Op;
    Quadrant0Framed(o, m, i, next);
    Quadrant1Framed(m, i, next);
    Quadrant2Framed(o, m, i, next);
    ReservedFramed(m, i);
  }

  lemma ReservedFramed(m: Machine, i: bv16)
    ensures Framed(m, Reserved(m, i), false)
  {
    hide Kept, Precise;
    NothingTold(m);
  }
}
