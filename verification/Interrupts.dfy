/**
 * Machine-mode interrupts: entry, the return instruction, and which instructions
 * can disturb the state saved on entry. Section 3.1.6.1 of the RISC-V Privileged
 * ISA, version 20211203.
 */
module Interrupts {
  import opened Bits
  import opened HostImports
  import opened Instructions
  import opened Machine
  import opened Compressed
  import opened Frames
  import opened Steps

  predicate MieSet(mstatus: bv32) { mstatus & MSTATUS_MIE != 0 }
  predicate MpieSet(mstatus: bv32) { mstatus & MSTATUS_MPIE != 0 }

  predicate InterruptsEnabled(m: Machine) { MieSet(GetCsr(m, MSTATUS)) }

  /** `mstatus` on entry to a handler: MIE moves to MPIE. */
  function Entered(mstatus: bv32): bv32 {
    var cleared := And(mstatus, Not(Or(MSTATUS_MIE, MSTATUS_MPIE)));
    if MieSet(mstatus) then Or(cleared, MSTATUS_MPIE) else cleared
  }

  /** `mstatus` after MRET: MPIE moves back to MIE and is set. */
  function Returned(mstatus: bv32): bv32 {
    var enabled := Or(And(mstatus, Not(MSTATUS_MIE)), MSTATUS_MPIE);
    if MpieSet(mstatus) then Or(enabled, MSTATUS_MIE) else enabled
  }

  /** `handle_interrupt`. A zero mtvec means that no handler was installed. */
  function TakeInterrupt(m: Machine, irq: bv32): Machine {
    var m1 := SetCsr(m, MEPC, m.pc);
    var m2 := SetCsr(m1, MCAUSE, 0x8000_0000 | irq);
    var m3 := SetCsr(m2, MSTATUS, Entered(GetCsr(m2, MSTATUS)));
    var mtvec := GetCsr(m3, MTVEC);
    if mtvec != 0 then m3.(pc := mtvec) else m3
  }

  /** Entry saves the pc, masks interrupts and touches only three CSRs and the pc. */
  lemma EntrySaves(m: Machine, irq: bv32)
    ensures var m' := TakeInterrupt(m, irq);
            && GetCsr(m', MEPC) == m.pc
            && GetCsr(m', MCAUSE) == 0x8000_0000 | irq
            && GetCsr(m', MSTATUS) == Entered(GetCsr(m, MSTATUS))
            && m'.pc == (if GetCsr(m, MTVEC) != 0 then GetCsr(m, MTVEC) else m.pc)
            && m' == m.(pc := m'.pc, csrs := m'.csrs)
            && (forall n: bv12 :: n != MEPC && n != MCAUSE && n != MSTATUS ==> GetCsr(m', n) == GetCsr(m, n))
  {
    hide Entered, GetCsr, SetCsr;
    var m1 := SetCsr(m, MEPC, m.pc);
    var m2 := SetCsr(m1, MCAUSE, 0x8000_0000 | irq);
    var m3 := SetCsr(m2, MSTATUS, Entered(GetCsr(m2, MSTATUS)));
    forall n: bv12 ensures GetCsr(m3, n) ==
      if n == MSTATUS then Entered(GetCsr(m, MSTATUS))
      else if n == MCAUSE then 0x8000_0000 | irq
      else if n == MEPC then m.pc
      else GetCsr(m, n)
    {
      SetThenGet(m, MEPC, n, m.pc);
      SetThenGet(m1, MCAUSE, n, 0x8000_0000 | irq);
      SetThenGet(m2, MSTATUS, n, Entered(GetCsr(m2, MSTATUS)));
      SetThenGet(m, MEPC, MSTATUS, m.pc);
      SetThenGet(m1, MCAUSE, MSTATUS, 0x8000_0000 | irq);
    }
    SetThenGet(m, MEPC, MEPC, m.pc);
    SetThenGet(m1, MCAUSE, MEPC, 0x8000_0000 | irq);
    SetThenGet(m2, MSTATUS, MEPC, Entered(GetCsr(m2, MSTATUS)));
    CsrsOnly(m, m3);
    PcOnly(m3, GetCsr(m3, MTVEC));
  }

  lemma SetThenGet(m: Machine, a: bv12, b: bv12, v: bv32)
    ensures GetCsr(SetCsr(m, a, v), b) == if a == b then v else GetCsr(m, b)
    ensures SetCsr(m, a, v) == m.(csrs := SetCsr(m, a, v).csrs)
  {
    if a != b {
      DistinctIndices(a, b);
    }
  }

  lemma DistinctIndices(a: bv12, b: bv12)
    requires a != b
    ensures a as int != b as int
  {
    assert (a as int) as bv12 == a && (b as int) as bv12 == b;
  }

  lemma CsrsOnly(m: Machine, m': Machine)
    requires m' == m.(csrs := m'.csrs)
    ensures m'.pc == m.pc
  {
  }

  lemma PcOnly(m: Machine, pc: bv32)
    ensures forall n: bv12 :: GetCsr(m.(pc := pc), n) == GetCsr(m, n)
  {
  }

  lemma EntryMasks(m: Machine, irq: bv32)
    ensures !InterruptsEnabled(TakeInterrupt(m, irq))
  {
    hide Entered, TakeInterrupt, MieSet;
    EntrySaves(m, irq);
    EnteredBits(GetCsr(m, MSTATUS));
  }

  lemma EnteredBits(mstatus: bv32)
    ensures !MieSet(Entered(mstatus))
    ensures MpieSet(Entered(mstatus)) <==> MieSet(mstatus)
  {
  }

  /** Entry then return: MIE is restored, MPIE is set and every other bit is as before. */
  lemma EntryThenReturnBits(mstatus: bv32)
    ensures Returned(Entered(mstatus)) == mstatus | MSTATUS_MPIE
  {
    RawBits(mstatus);
  }

  lemma RawBits(x: bv32)
    ensures x & 0x8 != 0 ==>
      var e := (x & !(0x8 | 0x80)) | 0x80;
      e & 0x80 != 0 && ((e & !0x8) | 0x80) | 0x8 == x | 0x80
    ensures x & 0x8 == 0 ==>
      var e := x & !(0x8 | 0x80);
      e & 0x80 == 0 && (e & !0x8) | 0x80 == x | 0x80
  {
  }

  /** MRET as an arm. */
  lemma MretArm(m: Machine, next: bv32)
    ensures ExecMret(m, next) ==
            Done(SetCsr(m, MSTATUS, Returned(GetCsr(m, MSTATUS))), if GetCsr(m, MEPC) != 0 then GetCsr(m, MEPC)
              else next)
  {
  }

  // ---- Which instructions can change which CSR ----

  predicate IsMret(d: Inst32) {
    d.opcode == OP_SYSTEM && d.funct3 == 0 && CsrNumber(d.raw) == 0x302
  }

  /** A CSR instruction that writes: the set and clear forms write only with a nonzero source field. */
  predicate WritesCsr(d: Inst32, num: bv12) {
    && d.opcode == OP_SYSTEM
    && CsrNumber(d.raw) == num
    && (d.funct3 == 1 || d.funct3 == 5 || (d.funct3 in {2, 3, 6, 7} && d.rs1 != 0))
  }

  predicate Disturbs(d: Inst32, num: bv12) {
    WritesCsr(d, num) || (IsMret(d) && num == MSTATUS)
  }

  lemma OrZero(x: bv32)
    ensures Or(x, 0) == x && And(x, !0) == x
  {
  }

  lemma CsrResultOfZero(funct3: bv3, was: bv32)
    requires funct3 != 1 && funct3 != 5
    ensures CsrResult(funct3, was, 0, 0) == was
  {
    hide Or, And;
    OrZero(was);
  }

  lemma CsrArmKeeps(m: Machine, d: Inst32, next: bv32, num: bv12)
    requires d.opcode == OP_SYSTEM && d.funct3 != 0 && !WritesCsr(d, num)
    ensures GetCsr(ExecCsr(m, d, next).m, num) == GetCsr(m, num)
  {
    hide CsrResult, CsrNumber, WriteReg, ReadReg, GetCsr, SetCsr;
    var n := CsrNumber(d.raw);
    var was := GetCsr(m, n);
    var val := CsrResult(d.funct3, was, ReadReg(m, d.rs1), d.rs1 as bv32);
    WriteRegLeavesCsrs(SetCsr(m, n, val), d.rd, was, num);
    SetThenGet(m, n, num, val);
    if n == num {
      if d.funct3 == 4 {
        CsrReserved(was, ReadReg(m, d.rs1), d.rs1 as bv32);
      } else {
        ReadZero(m);
        CsrResultOfZero(d.funct3, was);
      }
    }
  }

  lemma CsrReserved(was: bv32, src: bv32, imm: bv32)
    ensures CsrResult(4, was, src, imm) == was
  {
  }

  lemma ReadZero(m: Machine)
    ensures ReadReg(m, 0) == 0
  {
  }

  lemma WriteRegLeavesCsrs(m: Machine, r: bv5, v: bv32, num: bv12)
    ensures GetCsr(WriteReg(m, r, v), num) == GetCsr(m, num)
  {
  }

  lemma SystemKeepsCsr(o: Oracle, m: Machine, d: Inst32, next: bv32, num: bv12)
    requires d.opcode == OP_SYSTEM && !Disturbs(d, num)
    ensures ExecSystem(o, m, d, next).Done? ==> GetCsr(ExecSystem(o, m, d, next).m, num) == GetCsr(m, num)
  {
    hide ExecEcall, ExecCsr, CsrNumber, Returned, Kept;
    if d.funct3 != 0 {
      CsrArmKeeps(m, d, next, num);
    } else {
      EcallFramed(o, m, next);
      MretArm(m, next);
    }
  }

  lemma DispatchKeepsCsr(o: Oracle, m: Machine, d: Inst32, next: bv32, num: bv12)
    requires !Disturbs(d, num)
    ensures Dispatch(o, m, d, next).Done? ==> GetCsr(Dispatch(o, m, d, next).m, num) == GetCsr(m, num)
  {
    hide Disturbs, Kept, Precise;
    hide ExecOp, ExecMulDiv, ExecUpper, ExecBranch, ExecLoad, ExecStore, ExecOpImm, ExecLoadFp;
    hide ExecStoreFp, ExecSystem, ExecAmo, ExecFpu;
    DispatchFramed(o, m, d, next);
    if d.opcode == OP_SYSTEM {
      SystemKeepsCsr(o, m, d, next, num);
    }
  }

  /** The instruction about to be executed can change CSR `num`. */
  predicate StepDisturbs(o: Oracle, m: Machine, num: bv12) {
    var f := Fetch(o, m);
    !f.compressed && Disturbs(Decode(f.raw), num)
  }

  predicate StepIsMret(o: Oracle, m: Machine) {
    var f := Fetch(o, m);
    !f.compressed && IsMret(Decode(f.raw))
  }

  /** A step changes a CSR only through a CSR write or, for mstatus, MRET. */
  lemma StepKeepsCsr(o: Oracle, m: Machine, num: bv12)
    requires !StepDisturbs(o, m, num)
    ensures GetCsr(FetchExecute(o, m).m, num) == GetCsr(m, num)
  {
    hide Arm16, Dispatch, Decode, LowHalf, Fetch, Disturbs, Kept, OnlyTold, Plus;
    var f := Fetch(o, m);
    var m1 := m.(st := f.st);
    if f.compressed {
      Arm16Framed(o, m1, LowHalf(f.raw), Plus(m1.pc, 2));
    } else {
      DispatchKeepsCsr(o, m1, Decode(f.raw), Plus(m1.pc, 4), num);
      DispatchFramed(o, m1, Decode(f.raw), Plus(m1.pc, 4));
    }
  }

  /** Executing MRET: back to mepc unless it is zero, with mstatus restored. */
  lemma StepOfMret(o: Oracle, m: Machine)
    requires StepIsMret(o, m)
    ensures FetchExecute(o, m).Ok?
    ensures FetchExecute(o, m).m.pc == if GetCsr(m, MEPC) != 0 then GetCsr(m, MEPC) else Plus(m.pc, 4)
    ensures GetCsr(FetchExecute(o, m).m, MSTATUS) == Returned(GetCsr(m, MSTATUS))
    ensures FetchExecute(o, m).m.regs == m.regs && FetchExecute(o, m).m.fregs == m.fregs
  {
    hide Decode, Fetch, Plus, Returned, CsrNumber, LowHalf, Execute16;
    hide ExecOp, ExecMulDiv, ExecUpper, ExecBranch, ExecLoad, ExecStore, ExecOpImm, ExecLoadFp;
    hide ExecStoreFp, ExecAmo, ExecFpu, ExecEcall, ExecCsr, ExecMret;
    var f := Fetch(o, m);
    var m1 := m.(st := f.st);
    MretArm(m1, Plus(m1.pc, 4));
  }
}
