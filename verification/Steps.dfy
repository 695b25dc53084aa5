/**
 * One machine step: fetch and execute. What a step keeps, when it faults, where it
 * can go, and which CSRs it can change.
 */
module Steps {
  import opened Bits
  import opened HostImports
  import opened FlatMemory
  import opened Instructions
  import opened Machine
  import opened Compressed
  import opened Frames

  function Fetch(o: Oracle, m: Machine): Fetched { TwoReadFetch(o, m.st, Value(m.pc)) }

  /** Fetch at the pc and execute. */
  function FetchExecute(o: Oracle, m: Machine): Outcome {
    var f := Fetch(o, m);
    var m1 := m.(st := f.st);
    if f.compressed then Execute16(o, m1, LowHalf(f.raw)) else Execute32(o, m1, f.raw)
  }

  // ---- Faults are precise ----

  /**
   * The instruction may have asked the host something before it faults: a device, or
   * the custom system-call handler.
   */
  predicate AsksFirst(m: Machine, d: Inst32) {
    || (d.opcode == OP_AMO && Value(ReadReg(m, d.rs1)) + 4 > MMIO_BASE)
    || (d.opcode == OP_SYSTEM && m.customSyscalls)
  }

  /**
   * The 32-bit executor, on any encoding, faults without a trace except for host
   * calls already made; and there are such calls exactly when the instruction is
   * an atomic that reaches the device window, or a system call on a machine whose
   * host handles custom ones.
   */
  lemma TrapsArePrecise32(o: Oracle, m: Machine, raw: bv32)
    requires Execute32(o, m, raw).Err?
    ensures Precise(m, Execute32(o, m, raw).m)
    ensures Execute32(o, m, raw).m == m <==> !AsksFirst(m, Decode(raw))
  {
    hide Dispatch, Decode, Precise, Kept, Plus, AsksFirst;
    DispatchFramed(o, m, Decode(raw), Plus(m.pc, 4));
    FaultsSilently(o, m, Decode(raw), Plus(m.pc, 4));
  }

  lemma FaultsSilently(o: Oracle, m: Machine, d: Inst32, next: bv32)
    requires Dispatch(o, m, d, next).Fault?
    ensures Dispatch(o, m, d, next).m == m <==> !AsksFirst(m, d)
  {
    hide Dispatch, ReadReg, Load32, Value, Funct5, IsAmo;
    if d.opcode == OP_AMO {
      AmoFaults(o, m, d, next);
      AmoReadsFirst(o, m, d, next);
      LoadIsSilent(o, m.st, Value(ReadReg(m, d.rs1)));
    } else if d.opcode == OP_SYSTEM {
      SystemFaults(o, m, d, next);
    } else {
      SilentFaults(o, m, d, next);
    }
  }

  /** A word load leaves no trace exactly when it lies wholly below the device window. */
  lemma LoadIsSilent(o: Oracle, s: Store, a: U32)
    ensures Load32(o, s, a).st == s <==> a + 4 <= MMIO_BASE
  {
    hide Word, Load8;
    LoadTells(o, s, a);
    if a < MMIO_BASE {
      var b0 := Load8(o, s, a);
      var b1 := Load8(o, b0.st, a + 1);
      var b2 := Load8(o, b1.st, a + 2);
      LoadTells(o, b0.st, a + 1);
      LoadTells(o, b1.st, a + 2);
      LoadTells(o, b2.st, a + 3);
    }
  }

  lemma LoadTells(o: Oracle, s: Store, a: U32)
    ensures a < MMIO_BASE ==> Load8(o, s, a).st == s
    ensures a >= MMIO_BASE ==> |Load8(o, s, a).st.events| == |s.events| + 1
  {
  }

  lemma AmoFaults(o: Oracle, m: Machine, d: Inst32, next: bv32)
    requires d.opcode == OP_AMO && Dispatch(o, m, d, next).Fault?
    ensures !IsAmo(Funct5(d))
  {
    hide IsAmo, ReadReg, WriteReg, Load32, Put32, AmoValue, Funct5;
    hide ExecOp, ExecMulDiv, ExecUpper, ExecBranch, ExecLoad, ExecStore, ExecOpImm;
    hide ExecLoadFp, ExecStoreFp, ExecSystem, ExecFpu;
  }

  lemma SystemFaults(o: Oracle, m: Machine, d: Inst32, next: bv32)
    requires d.opcode == OP_SYSTEM && Dispatch(o, m, d, next).Fault?
    ensures Dispatch(o, m, d, next).m == m <==> !m.customSyscalls
  {
    hide ExecOp, ExecMulDiv, ExecUpper, ExecBranch, ExecLoad, ExecStore, ExecOpImm;
    hide ExecLoadFp, ExecStoreFp, ExecAmo, ExecFpu, ExecSystem, ExecEcall, Record, Args;
    OnlyEcallFaults(o, m, d, next);
    EcallFaults(o, m, next);
    RecordIsSeen(m, CustomSyscall(Args(m)));
  }

  lemma RecordIsSeen(m: Machine, e: Event)
    ensures Record(m, e) != m
  {
    assert |Record(m, e).st.events| == |m.st.events| + 1;
  }

  lemma OnlyEcallFaults(o: Oracle, m: Machine, d: Inst32, next: bv32)
    ensures ExecSystem(o, m, d, next).Fault? ==> ExecSystem(o, m, d, next) == ExecEcall(o, m, next)
  {
    hide ExecEcall, CsrNumber, CsrResult, GetCsr, SetCsr, WriteReg, ReadReg;
  }

  lemma EcallFaults(o: Oracle, m: Machine, next: bv32)
    requires ExecEcall(o, m, next).Fault?
    ensures ExecEcall(o, m, next).m == if m.customSyscalls then Record(m, CustomSyscall(Args(m))) else m
  {
    hide Args, SysWrite, SysRead, SysBrk, WriteReg;
  }

  /** An arm that falls through, or faults having done nothing at all. */
  predicate Plain(m: Machine, arm: Arm, next: bv32) {
    match arm
    case Done(_, n) => n == next
    case Fault(m', _) => m' == m
  }

  lemma MemoryArmsPlain(o: Oracle, m: Machine, d: Inst32, next: bv32)
    ensures Plain(m, ExecLoad(o, m, d, next), next) && Plain(m, ExecStore(m, d, next), next)
  {
    hide Get8, Get16, Get32, Put8, Put16, Put32, ReadReg, WriteReg, LowHalf, SignExtend8, SignExtend16;
    hide ZeroExtend8, ZeroExtend16, Address, IImm, SImm;
  }

  lemma RegisterArmsPlain(m: Machine, d: Inst32, next: bv32)
    ensures Plain(m, ExecOpImm(m, d, next), next) && Plain(m, ExecOp(m, d, next), next)
            && Plain(m, ExecMulDiv(m, d, next), next)
  {
    hide ReadReg, WriteReg, IImm, ImmResult, OpResult, MulDiv, IsOp;
  }

  lemma FloatArmsPlain(o: Oracle, m: Machine, d: Inst32, next: bv32)
    ensures Plain(m, ExecLoadFp(o, m, d, next), next) && Plain(m, ExecStoreFp(m, d, next), next)
            && Plain(m, ExecFpu(o, m, d, next), next)
  {
    hide Get32, GetDouble, Put32, PutDouble, ReadReg, WriteReg, ReadFreg, SetFreg, WriteF64, Boxed;
    hide LowWord, Address, IImm, SImm;
  }

  lemma AmoFallsThrough(o: Oracle, m: Machine, d: Inst32, next: bv32)
    ensures ExecAmo(o, m, d, next).Done? ==> ExecAmo(o, m, d, next).next == next
  {
    hide Get32, Put32, ReadReg, WriteReg, Funct5, IsAmo, AmoValue;
  }

  lemma BranchFaultsSilently(m: Machine, d: Inst32, next: bv32)
    ensures ExecBranch(m, d, next).Fault? ==> ExecBranch(m, d, next).m == m
  {
    hide ReadReg, Compare, Target, BImm;
  }

  lemma SilentFaults(o: Oracle, m: Machine, d: Inst32, next: bv32)
    requires d.opcode != OP_AMO && d.opcode != OP_SYSTEM
    ensures Dispatch(o, m, d, next).Fault? ==> Dispatch(o, m, d, next).m == m
  {
    hide ExecOp, ExecMulDiv, ExecBranch, ExecLoad, ExecStore, ExecOpImm, ExecLoadFp, ExecStoreFp;
    hide ExecSystem, ExecAmo, ExecFpu;
    hide WriteReg, ReadReg, Target, Address, Even, UImm, JImm, IImm;
    MemoryArmsPlain(o, m, d, next);
    RegisterArmsPlain(m, d, next);
    FloatArmsPlain(o, m, d, next);
    BranchFaultsSilently(m, d, next);
  }

  /** The 16-bit executor leaves the whole machine alone when it faults. */
  lemma TrapsArePrecise16(o: Oracle, m: Machine, i: bv16)
    requires Execute16(o, m, i).Err?
    ensures Execute16(o, m, i).m == m
  {
    hide Arm16;
    Arm16Framed(o, m, i, Plus(m.pc, 2));
  }

  /**
   * An atomic with an unknown operation faults after its read: the machine it
   * leaves is the one after the load, device calls included.
   */
  lemma IllegalAmoHasRead(o: Oracle, m: Machine, raw: bv32)
    requires Decode(raw).opcode == OP_AMO && !IsAmo(Funct5(Decode(raw)))
    ensures Execute32(o, m, raw) ==
            Err(m.(st := Load32(o, m.st, Value(ReadReg(m, Decode(raw).rs1))).st), IllegalInstruction(m.pc, raw))
  {
    hide Decode, IsAmo, ReadReg, Dispatch, Plus, Load32;
    DecodeKeepsRaw(raw);
    AmoReadsFirst(o, m, Decode(raw), Plus(m.pc, 4));
  }

  lemma AmoReadsFirst(o: Oracle, m: Machine, d: Inst32, next: bv32)
    requires d.opcode == OP_AMO && !IsAmo(Funct5(d))
    ensures Dispatch(o, m, d, next) ==
            Fault(m.(st := Load32(o, m.st, Value(ReadReg(m, d.rs1))).st), IllegalInstruction(m.pc, d.raw))
  {
    hide IsAmo, ReadReg, WriteReg, Load32, Put32, AmoValue;
    hide ExecOp, ExecMulDiv, ExecUpper, ExecBranch, ExecLoad, ExecStore, ExecOpImm, ExecLoadFp;
    hide ExecStoreFp, ExecSystem, ExecFpu;
  }

  // ---- A step keeps its frame ----

  /** What a step keeps: everything `Kept` says, with the pc committed. */
  predicate StepKept(m: Machine, m': Machine) { Kept(m, m'.(pc := m.pc)) }

  lemma StepFramed(o: Oracle, m: Machine)
    ensures FetchExecute(o, m).Ok? ==> StepKept(m, FetchExecute(o, m).m)
    ensures FetchExecute(o, m).Err? ==> Precise(m, FetchExecute(o, m).m)
  {
    hide Arm16, Dispatch, Decode, Kept, Precise, LowHalf, TwoReadFetch, Plus;
    var f := Fetch(o, m);
    var m1 := m.(st := f.st);
    FetchTells(o, m);
    PreciseIsKept(m, m1);
    var arm := if f.compressed then Arm16(o, m1, LowHalf(f.raw), Plus(m1.pc, 2))
      else Dispatch(o, m1, Decode(f.raw), Plus(m1.pc, 4));
    if f.compressed {
      Arm16Framed(o, m1, LowHalf(f.raw), Plus(m1.pc, 2));
    } else {
      DispatchFramed(o, m1, Decode(f.raw), Plus(m1.pc, 4));
    }
    if arm.Done? {
      KeptTransitive(m, m1, arm.m);
      KeptPc(m, arm.m, arm.next);
    } else {
      PreciseTransitive(m, m1, arm.m);
    }
  }

  lemma KeptPc(m: Machine, m1: Machine, next: bv32)
    requires Kept(m, m1)
    ensures m1.(pc := next).(pc := m.pc) == m1
  {
  }

  lemma PreciseTransitive(a: Machine, b: Machine, c: Machine)
    requires Precise(a, b) && Precise(b, c)
    ensures Precise(a, c)
  {
  }

  lemma FetchTells(o: Oracle, m: Machine)
    ensures Precise(m, m.(st := Fetch(o, m).st))
  {
    hide Load16, Load32, IsCompressed;
    var half := Load16(o, m.st, Value(m.pc));
    Load16Tells(o, m.st, Value(m.pc));
    Load32Tells(o, half.st, Value(m.pc));
  }

  // ---- The pc stays even ----

  /** Offsets of jumps and branches are even. */
  lemma OffsetsAreEven(raw: bv32)
    ensures IsEven(BImm(raw)) && IsEven(JImm(raw))
  {
    hide BBits, JBits, Shl, Sra, IsEven;
    BitsAreEven(raw);
    ExtensionKeepsParity(BBits(raw));
    ExtensionKeepsParity(JBits(raw));
  }

  lemma BitsAreEven(raw: bv32)
    ensures IsEven(BBits(raw)) && IsEven(JBits(raw))
  {
  }

  lemma ExtensionKeepsParity(x: bv32)
    requires IsEven(x)
    ensures IsEven(Sra(Shl(x, 19), 19)) && IsEven(Sra(Shl(x, 11), 11))
  {
    assert ((x << 19) >> 19) & 1 == x & 1 && ((x << 11) >> 11) & 1 == x & 1;
    assert !(!(x << 19) >> 19) & 1 == x & 1 && !(!(x << 11) >> 11) & 1 == x & 1;
  }

  lemma CompressedOffsetsAreEven(i: bv16)
    ensures IsEven(CjOffset(i)) && IsEven(CbOffset(i))
  {
  }

  lemma SumIsEven(x: bv32, y: bv32)
    requires IsEven(x) && IsEven(y)
    ensures IsEven(Plus(x, y))
  {
    assert (x + y) & 1 == (x & 1) ^ (y & 1);
  }

  lemma EvenIsEven(x: bv32)
    ensures IsEven(Even(x))
  {
  }

  lemma NextIsEven(x: bv32)
    requires IsEven(x)
    ensures IsEven(Plus(x, 2)) && IsEven(Plus(x, 4))
  {
    SumIsEven(x, 2);
    SumIsEven(x, 4);
  }

  lemma UpperGoesEven(m: Machine, d: Inst32, next: bv32)
    requires IsEven(m.pc) && IsEven(next)
    ensures IsEven(ExecUpper(m, d, next).next)
  {
    hide ReadReg, WriteReg, Address, Even, IImm, UImm, JImm, BImm, Plus, IsEven;
    OffsetsAreEven(d.raw);
    SumIsEven(m.pc, JImm(d.raw));
    EvenIsEven(Address(m, d.rs1, IImm(d.raw)));
  }

  lemma BranchGoesEven(m: Machine, d: Inst32, next: bv32)
    requires IsEven(m.pc) && IsEven(next)
    ensures ExecBranch(m, d, next).Done? ==> IsEven(ExecBranch(m, d, next).next)
  {
    hide ReadReg, Compare, BImm, JImm, Plus, IsEven;
    OffsetsAreEven(d.raw);
    SumIsEven(m.pc, BImm(d.raw));
  }

  lemma EcallFallsThrough(o: Oracle, m: Machine, next: bv32)
    ensures ExecEcall(o, m, next).Done? ==> ExecEcall(o, m, next).next == next
  {
    hide Args, Record, SysWrite, SysRead, SysBrk, WriteReg;
  }

  lemma SystemGoesEven(o: Oracle, m: Machine, d: Inst32, next: bv32)
    requires IsEven(next) && IsEven(GetCsr(m, MEPC))
    ensures ExecSystem(o, m, d, next).Done? ==> IsEven(ExecSystem(o, m, d, next).next)
  {
    hide ExecEcall, IsEven, CsrNumber, CsrResult, SetCsr, GetCsr, WriteReg, ReadReg;
    EcallFallsThrough(o, m, next);
  }

  /** From an even pc, an instruction goes to an even address unless it returns to an odd mepc. */
  lemma DispatchGoesEven(o: Oracle, m: Machine, d: Inst32, next: bv32)
    requires IsEven(m.pc) && IsEven(next) && IsEven(GetCsr(m, MEPC))
    ensures Dispatch(o, m, d, next).Done? ==> IsEven(Dispatch(o, m, d, next).next)
  {
    hide ExecOp, ExecMulDiv, ExecUpper, ExecBranch, ExecLoad, ExecStore, ExecOpImm, ExecLoadFp;
    hide ExecStoreFp, ExecSystem, ExecAmo, ExecFpu, IsEven, GetCsr;
    UpperGoesEven(m, d, next);
    BranchGoesEven(m, d, next);
    SystemGoesEven(o, m, d, next);
    AmoFallsThrough(o, m, d, next);
    MemoryArmsPlain(o, m, d, next);
    RegisterArmsPlain(m, d, next);
    FloatArmsPlain(o, m, d, next);
  }

  lemma Quadrant0GoesEven(o: Oracle, m: Machine, i: bv16, next: bv32)
    ensures Plain(m, Quadrant0(o, m, i, next), next)
  {
    hide Funct3, Creg, Addi4spnImm, ClWordOffset, ClDoubleOffset, Get32, GetDouble, Put32, PutDouble;
    hide ReadReg, WriteReg;
    hide ReadFreg, SetFreg, WriteF64, Boxed, LowWord, Address;
  }

  lemma Quadrant1GoesEven(m: Machine, i: bv16, next: bv32)
    requires IsEven(m.pc) && IsEven(next)
    ensures Quadrant1(m, i, next).Done? ==> IsEven(Quadrant1(m, i, next).next)
  {
    hide Funct3, Creg, Reg, Field, Shamt, Imm6, Imm6Extended, Addi16spImm, Addi16spExtended, CjOffset;
    hide CbOffset;
    hide ReadReg, WriteReg, Address, IsEven, Plus, Minus, Xor, Or, And, Shl, Shr, Sra;
    CompressedOffsetsAreEven(i);
    SumIsEven(m.pc, CjOffset(i));
    SumIsEven(m.pc, CbOffset(i));
  }

  lemma Quadrant2GoesEven(o: Oracle, m: Machine, i: bv16, next: bv32)
    requires IsEven(next)
    ensures Quadrant2(o, m, i, next).Done? ==> IsEven(Quadrant2(o, m, i, next).next)
  {
    hide Funct3, Reg, Field, Shamt, CiWordSpOffset, CiDoubleSpOffset, CssWordSpOffset;
    hide CssDoubleSpOffset, Get32, GetDouble, Put32, PutDouble;
    hide ReadReg, WriteReg, ReadFreg, SetFreg, WriteF64, Boxed, LowWord, Address, Even, IsEven, Plus, Shl;
    EvenIsEven(ReadReg(m, Reg(i, 7)));
  }

  lemma Arm16GoesEven(o: Oracle, m: Machine, i: bv16, next: bv32)
    requires IsEven(m.pc) && IsEven(next)
    ensures Arm16(o, m, i, next).Done? ==> IsEven(Arm16(o, m, i, next).next)
  {
    hide Op, Quadrant0, Quadrant1, Quadrant2, IsEven;
    Quadrant0GoesEven(o, m, i, next);
    Quadrant1GoesEven(m, i, next);
    Quadrant2GoesEven(o, m, i, next);
  }

  /** A step from an even pc lands on an even pc while mepc is even. */
  lemma StepGoesEven(o: Oracle, m: Machine)
    requires IsEven(m.pc) && IsEven(GetCsr(m, MEPC))
    ensures IsEven(FetchExecute(o, m).m.pc)
  {
    hide Arm16, Dispatch, Decode, LowHalf, TwoReadFetch, IsEven, Kept, OnlyTold, Plus;
    var f := Fetch(o, m);
    var m1 := m.(st := f.st);
    NextIsEven(m.pc);
    if f.compressed {
      Arm16GoesEven(o, m1, LowHalf(f.raw), Plus(m1.pc, 2));
      Arm16Framed(o, m1, LowHalf(f.raw), Plus(m1.pc, 2));
    } else {
      DispatchGoesEven(o, m1, Decode(f.raw), Plus(m1.pc, 4));
      DispatchFramed(o, m1, Decode(f.raw), Plus(m1.pc, 4));
    }
  }
}
